/**
 The change summary of an interval of a chain: one backward pass that counts
 blocks and records and finds out whether the watermark was updated.
 */
module Changes {
  import opened Wrappers
  import opened Odf
  import opened Offsets

  datatype Increment = Increment(numBlocks: nat, numRecords: int, updatedWatermark: Option<Time>)

  function OldChain(oldHead: Option<Hash>): Hash {
    if oldHead.Some? then oldHead.value else []
  }

  /** The watermark at the new head, if it differs from the one at the old head. */
  function WatermarkUpdate(oldHead: Hash, newHead: Hash): Option<Time> {
    if ChainWatermark(newHead) != ChainWatermark(oldHead) then ChainWatermark(newHead) else None
  }

  /** What the pass has found out about blocks i and later. */
  ghost predicate ScannedFrom(c: Hash, i: nat, latest: Option<Time>, updated: Option<Time>)
    requires i <= |c|
  {
    && (latest.None? ==> updated.None? && ChainWatermark(c[..i]) == ChainWatermark(c))
    && (latest.Some? ==> latest == ChainWatermark(c))
    && (updated.Some? ==> updated == ChainWatermark(c) && ChainWatermark(c[..i]) != ChainWatermark(c))
  }

  /** The pair (latest, updated) after looking at one more event. */
  function NoteWatermark(latest: Option<Time>, updated: Option<Time>, e: Event): (Option<Time>, Option<Time>) {
    var s := AsStream(e);
    var watermark := if s.Some? then s.value.newWatermark else None;
    if updated.Some? || watermark.None? then (latest, updated)
    else if latest.None? then (watermark, None)
    else (latest, if watermark != latest then latest else None)
  }

  lemma ScanStep(c: Hash, i: nat, latest: Option<Time>, updated: Option<Time>)
    requires Valid(c) && i < |c| && ScannedFrom(c, i + 1, latest, updated)
    ensures var next := NoteWatermark(latest, updated, c[i].event); ScannedFrom(c, i, next.0, next.1)
  {
    StreamStep(c, i);
    WatermarkMonotone(c, i, i + 1);
    WatermarkMonotone(c, i + 1, |c|);
    assert c[..|c|] == c;
  }

  lemma CountStep(blocks: seq<Block>, i: nat)
    requires i < |blocks|
    ensures RecordsIn(blocks[i..]) == RecordsIn([blocks[i]]) + RecordsIn(blocks[i + 1..])
  {
    RecordsConcat([blocks[i]], blocks[i + 1..]);
    assert blocks[i..] == [blocks[i]] + blocks[i + 1..];
  }

  /** The pass over the last m blocks of the chain, from its head backwards. */
  method ScanBack(newHead: Hash, blocks: seq<Block>)
    returns (numBlocks: nat, numRecords: int, latest: Option<Time>, updated: Option<Time>)
    requires Valid(newHead) && |blocks| <= |newHead| && blocks == newHead[|newHead| - |blocks|..]
    ensures numBlocks == |blocks| && numRecords == RecordsIn(blocks)
    ensures ScannedFrom(newHead, |newHead| - |blocks|, latest, updated)
  {
    ghost var n := |newHead| - |blocks|;
    numBlocks, numRecords, latest, updated := 0, 0, None, None;
    var i := |blocks|;
    assert newHead[..n + i] == newHead && blocks[i..] == [];
    while i > 0
      invariant 0 <= i <= |blocks|
      invariant numBlocks == |blocks| - i
      invariant numRecords == RecordsIn(blocks[i..])
      invariant ScannedFrom(newHead, n + i, latest, updated)
    {
      i := i - 1;
      CountStep(blocks, i);
      ScanStep(newHead, n + i, latest, updated);
      numBlocks := numBlocks + 1;
      numRecords := numRecords + RecordsIn([blocks[i]]);
      var next := NoteWatermark(latest, updated, blocks[i].event);
      latest, updated := next.0, next.1;
    }
    assert blocks[0..] == blocks;
  }

  /** Summary of the blocks after the old head up to the new head. */
  method MakeIncrement(oldHead: Option<Hash>, newHead: Hash) returns (r: Result<Increment, IterError>)
    requires Valid(newHead)
    ensures r.Ok? <==> oldHead.None? || oldHead.value <= newHead
    ensures r.Ok? ==>
      && r.value.numBlocks == |newHead| - |OldChain(oldHead)|
      && r.value.numRecords == RecordsIn(newHead[|OldChain(oldHead)|..])
      && r.value.updatedWatermark == WatermarkUpdate(OldChain(oldHead), newHead)
  {
    var interval := Interval(newHead, oldHead);
    if interval.Err? {
      return Err(interval.error);
    }
    ghost var n := |OldChain(oldHead)|;
    assert newHead[..n] == OldChain(oldHead) && interval.value == newHead[n..];
    var numBlocks, numRecords, latest, updated := ScanBack(newHead, interval.value);
    if updated.None? && latest.Some? {
      if oldHead.Some? {
        var previous := ChainWatermark(oldHead.value);
        updated := if previous.Some? && previous == latest then None else latest;
      } else {
        updated := latest;
      }
    }
    r := Ok(Increment(numBlocks, numRecords, updated));
  }

  /** Increments add up over adjacent intervals; an update shows in the whole exactly when the
      watermarks at its two ends differ, and only if it shows in one of the parts. */
  lemma IncrementsAdd(c: Hash, m: nat, n: nat)
    requires Valid(c) && m <= n <= |c|
    ensures RecordsIn(c[m..]) == RecordsIn(c[..n][m..]) + RecordsIn(c[n..])
    ensures WatermarkUpdate(c[..m], c).Some? <==>
      WatermarkUpdate(c[..m], c[..n]).Some? || WatermarkUpdate(c[..n], c).Some?
    ensures WatermarkUpdate(c[..n], c).Some? ==> WatermarkUpdate(c[..m], c) == WatermarkUpdate(c[..n], c)
  {
    RecordsConcat(c[..n][m..], c[n..]);
    assert c[..n][m..] + c[n..] == c[m..];
    WatermarkMonotone(c, m, n);
    WatermarkMonotone(c, n, |c|);
    assert c[..|c|] == c;
  }

  /** The records of an interval are the difference of the last offsets at its ends; before the
      first data event the offset it starts from stands in. */
  lemma {:induction false} RecordsAreOffsetDifference(c: Hash, n: nat)
    requires Valid(c) && n <= |c|
    ensures RecordsIn(c[n..]) ==
      if LastStream(c[..n]).Some? then NextOffset(ChainOffset(c)) - NextOffset(ChainOffset(c[..n]))
      else if LastStream(c).Some? then NextOffset(ChainOffset(c)) - BaseOffset(c)
      else 0
  {
    ValidPrefix(c, n);
    IntervalRecords(c, n);
    RecordsByOffset(c);
    RecordsByOffset(c[..n]);
    OffsetsPersist(c, n);
  }
}
