/**
 How far compaction goes: how many blocks are left, how large a merged slice gets,
 and when there is nothing to merge.
 */
module CompactionNumbers {
  import opened Wrappers
  import opened Odf
  import opened CompactionModel
  import opened CompactionMeaning
  import opened CompactionLength
  import opened CompactionGroups
  import opened CompactionCheckpoints

  /******* Counting the blocks that are left *******/

  /** The slice of block k is merged with the next newer one. */
  predicate Joins(c: Hash, k: nat, limits: Limits) {
    k < |c| && HasData(c[k].event) && MergesInto(c, NextData(c, k + 1), limits)
  }

  /** The block leads to a block of its own: a metadata event, or the newest slice of a group. */
  predicate Opens(c: Hash, k: nat, limits: Limits)
    requires k < |c|
  {
    IsMetadata(c[k].event) || (HasData(c[k].event) && !Joins(c, k, limits))
  }

  function OpenCount(c: Hash, i: nat, limits: Limits): nat
    requires i <= |c|
    decreases |c| - i
  {
    if i == |c| then 0 else OpenCount(c, i + 1, limits) + if Opens(c, i, limits) then 1 else 0
  }

  lemma CountSlice(c: Hash, i: nat, limits: Limits, st: ScanState, encode: Encoder)
    requires i < |c| && c[i].event.AddData? && HasData(c[i].event) && Tracked(c, i + 1, limits, st, encode)
    ensures BatchCount(Visit(st, c[..i + 1], limits, false)) == BatchCount(st) + if Opens(c, i, limits) then 1 else 0
  {
    assert c[..i + 1][i] == c[i];
    SliceFacts(c, i, limits);
    LengthAfterSlice(st, c[..i + 1], limits);
  }

  lemma CountStep(c: Hash, i: nat, limits: Limits, st: ScanState, encode: Encoder)
    requires i < |c| && (c[i].event.AddData? || IsMetadata(c[i].event)) && Tracked(c, i + 1, limits, st, encode)
    ensures BatchCount(Visit(st, c[..i + 1], limits, false)) == BatchCount(st) + if Opens(c, i, limits) then 1 else 0
  {
    assert c[..i + 1][i] == c[i];
    if HasData(c[i].event) {
      CountSlice(c, i, limits, st, encode);
    }
  }

  /** The scan makes one batch for every block that opens one. */
  lemma {:induction false} ScanCount(c: Hash, i: nat, limits: Limits, encode: Encoder)
    requires Valid(c) && IsRoot(c) && 0 < i <= |c|
    ensures BatchCount(ScanFrom(c, i, limits, false)) == OpenCount(c, i, limits)
    decreases |c| - i
  {
    if i == |c| {
    } else {
      ScanCount(c, i + 1, limits, encode);
      ScanTracked(c, i + 1, limits, encode);
      SeedIsFirst(c, i);
      CountStep(c, i, limits, ScanFrom(c, i + 1, limits, false), encode);
    }
  }

  lemma {:induction false} AllOpenIff(c: Hash, i: nat, limits: Limits)
    requires i <= |c|
    ensures OpenCount(c, i, limits) <= |c| - i
    ensures OpenCount(c, i, limits) == |c| - i <==> forall k | i <= k < |c| :: Opens(c, k, limits)
    decreases |c| - i
  {
    if i == |c| {
    } else {
      AllOpenIff(c, i + 1, limits);
    }
  }

  lemma CountAtSeed(c: Hash, limits: Limits, encode: Encoder)
    requires Valid(c) && Intact(c) && IsRoot(c) && c != []
    ensures |Scan(c, limits, false)| == OpenCount(c, 1, limits)
  {
    SeedFirst(c);
    SeedSkipped(c, limits, false);
    NothingPendingAtSeed(c, limits);
    ScanCount(c, 1, limits, encode);
  }

  /******* When there is nothing to merge *******/

  /** The slices of two neighbouring blocks stay within both limits, counted from the head. */
  predicate NeighboursFit(c: Hash, k: nat, limits: Limits)
    requires k + 1 < |c| && HasData(c[k].event)
  {
    var counted, d := Counters(c, k + 1, limits), c[k].event.stream.newData.value;
    counted.0 + d.size <= limits.maxSize && counted.1 + NumRecords(d) <= limits.maxRecords
  }

  /** No event is without content, and no two neighbouring slices fit. */
  ghost predicate NothingToMerge(c: Hash, limits: Limits) {
    && (forall k | 0 < k < |c| :: IsMetadata(c[k].event) || HasData(c[k].event))
    && (forall k | 0 < k < |c| - 1 && HasData(c[k].event) && HasData(c[k + 1].event) ::
          !NeighboursFit(c, k, limits))
  }

  /** Without empty events a slice joins exactly if the next block has a slice that it fits with. */
  lemma JoinsNeighbour(c: Hash, k: nat, limits: Limits)
    requires 0 < k < |c| && HasData(c[k].event)
    requires forall j | 0 < j < |c| :: IsMetadata(c[j].event) || HasData(c[j].event)
    ensures Joins(c, k, limits) <==>
      k + 1 < |c| && HasData(c[k + 1].event) && NeighboursFit(c, k, limits)
  {
    var q := NextData(c, k + 1);
    if Joins(c, k, limits) {
      MergedNeighbour(c, k, q.value, limits);
      if k + 1 < q.value {
        QuietBlock(c, q.value, k + 1);
      }
    }
  }

  lemma OpenLeavesNothing(c: Hash, limits: Limits)
    requires forall k | 1 <= k < |c| :: Opens(c, k, limits)
    ensures NothingToMerge(c, limits)
  {
    forall k | 0 < k < |c|
      ensures IsMetadata(c[k].event) || HasData(c[k].event)
    {
      assert Opens(c, k, limits);
    }
    forall k | 0 < k < |c| - 1 && HasData(c[k].event) && HasData(c[k + 1].event)
      ensures !NeighboursFit(c, k, limits)
    {
      assert Opens(c, k, limits);
      JoinsNeighbour(c, k, limits);
    }
  }

  lemma NothingLeavesOpen(c: Hash, limits: Limits)
    requires NothingToMerge(c, limits)
    ensures forall k | 1 <= k < |c| :: Opens(c, k, limits)
  {
    forall k | 1 <= k < |c|
      ensures Opens(c, k, limits)
    {
      assert IsMetadata(c[k].event) || HasData(c[k].event);
      if HasData(c[k].event) {
        JoinsNeighbour(c, k, limits);
      }
    }
  }

  /** As many batches as blocks exactly if there is nothing to merge. */
  lemma NothingToMergeIff(c: Hash, limits: Limits, encode: Encoder)
    requires Valid(c) && Intact(c) && IsRoot(c) && c != []
    ensures |Scan(c, limits, false)| + 1 == |c| <==> NothingToMerge(c, limits)
  {
    CountAtSeed(c, limits, encode);
    AllOpenIff(c, 1, limits);
    if NothingToMerge(c, limits) {
      NothingLeavesOpen(c, limits);
    }
    if |Scan(c, limits, false)| + 1 == |c| {
      OpenLeavesNothing(c, limits);
    }
  }

  /******* How large slices get *******/

  /** The event is one of the chain, or holds a slice within both limits. */
  ghost predicate OldOrWithin(c: Hash, e: Event, limits: Limits, encode: Encoder) {
    || (exists j | 0 <= j < |c| :: c[j].event == e)
    || (HasData(e) && NumRecords(e.stream.newData.value) <= limits.maxRecords &&
        (SizesAdd(encode) ==> e.stream.newData.value.size <= limits.maxSize))
  }

  lemma BatchWithin(c: Hash, b: Batch, limits: Limits, encode: Encoder)
    requires BatchOk(c, b) && BatchWithinLimits(b, limits)
    ensures WellFormed(b) && OldOrWithin(c, BatchEvent(b, encode), limits, encode)
  {
    match b {
      case SingleBlock(hash) =>
        assert c[|hash| - 1].event == BatchEvent(b, encode);
      case CompactedBatch(info) =>
        assert SizesAdd(encode) ==> encode(info.slices).size == SumSizes(info.slices);
    }
  }

  lemma {:induction false} BatchesWithin(c: Hash, bs: seq<Batch>, limits: Limits, encode: Encoder)
    requires BatchesOk(c, bs) && AllWithinLimits(bs, limits) && AllWellFormed(bs)
    ensures forall k | 0 <= k < |bs| ::
      OldOrWithin(c, BatchEvents(bs, encode)[k], limits, encode)
  {
    if bs == [] {
    } else {
      BatchesWithin(c, bs[..|bs| - 1], limits, encode);
      BatchWithin(c, bs[|bs| - 1], limits, encode);
    }
  }

  /** Every slice that is committed is an old one, or within both limits. */
  lemma ScanWithin(c: Hash, limits: Limits, encode: Encoder)
    requires Valid(c) && Intact(c) && IsRoot(c) && c != []
    ensures var bs := Scan(c, limits, false);
      && AllWellFormed(bs)
      && forall k | 0 <= k < |bs| ::
           OldOrWithin(c, BatchEvents(bs, encode)[k], limits, encode)
  {
    ScanOk(c, 0, limits);
    OkWellFormed(c, Scan(c, limits, false));
    ScanWithinLimits(c, 0, limits);
    BatchesWithin(c, Scan(c, limits, false), limits, encode);
  }
}
