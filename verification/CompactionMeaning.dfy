/**
 Compaction keeps the meaning of a chain: every batch holds consecutive records
 within the limits, and committing the batches reproduces the same records and
 the same other events in the same order.
 */
module CompactionMeaning {
  import opened Wrappers
  import opened Odf
  import opened CompactionModel

  /******* Merging files *******/

  lemma {:induction false} RowsSnoc(fs: seq<File>, f: File)
    ensures RowsOldestFirst(fs + [f]) == f.rows + RowsOldestFirst(fs)
    ensures SumSizes(fs + [f]) == SumSizes(fs) + f.size
  {
    if fs == [] {
    } else {
      RowsSnoc(fs[1..], f);
      assert (fs + [f])[1..] == fs[1..] + [f];
    }
  }

  lemma OneFile(f: File)
    ensures RowsOldestFirst([f]) == f.rows
    ensures SumSizes([f]) == f.size
  {
    assert [f][1..] == [];
    assert RowsOldestFirst([f]) == [] + f.rows;
  }

  lemma {:induction false} SameRows(fs: seq<File>)
    ensures multiset(AllRows(fs)) == multiset(RowsOldestFirst(fs))
  {
    if fs == [] {
    } else {
      SameRows(fs[1..]);
    }
  }

  /** Reading files newest first and sorting by offset puts their records back in chain order. */
  lemma {:induction false} MergeRestoresOrder(fs: seq<File>, start: int, encode: Encoder)
    requires Consecutive(RowsOldestFirst(fs), start)
    ensures MergeFiles(fs, encode).rows == RowsOldestFirst(fs)
  {
    var rows := RowsOldestFirst(fs);
    assert Sorting.TotalOrder(OffsetLe);
    Sorting.SortCorrect(AllRows(fs), OffsetLe);
    SameRows(fs);
    assert Sorting.Sorted(rows, OffsetLe) && Sorting.NoTies(rows, OffsetLe);
    Sorting.SortedUnique(rows, MergeFiles(fs, encode).rows, OffsetLe);
  }

  /******* Batches hold consecutive records *******/

  /** The pending slices, oldest first, are one run of records from the lower to the upper bound. */
  ghost predicate Tiled(info: BatchInfo) {
    var rows := RowsOldestFirst(info.slices);
    && Consecutive(rows, info.lower.startOffset)
    && |rows| == info.upper.endOffset - info.lower.startOffset + 1
    && info.lower.startOffset <= info.upper.endOffset
    && info.lower.startOffset == NextOffset(info.lower.prevOffset)
  }

  /** A one-slice batch names the block that holds exactly that slice. */
  ghost predicate NamesSlice(c: Hash, hash: Hash, file: File) {
    hash != [] && hash <= c && hash[|hash| - 1].event.AddData? && HasData(hash[|hash| - 1].event) &&
    hash[|hash| - 1].event.stream.newData.value.physicalHash == file
  }

  ghost predicate PendingOk(c: Hash, i: nat, st: ScanState)
    requires i <= |c|
  {
    && HashKnown(st)
    && (st.info.slices != [] ==>
          && Tiled(st.info)
          && (LastStream(c[..i]).Some? ==> ChainOffset(c[..i]) == st.info.lower.prevOffset))
    && (|st.info.slices| == 1 ==> NamesSlice(c, st.currentHash.value, st.info.slices[0]))
  }

  ghost predicate BatchOk(c: Hash, b: Batch) {
    match b
    case SingleBlock(hash) =>
      hash != [] && hash <= c && (IsMetadata(hash[|hash| - 1].event) || HasData(hash[|hash| - 1].event))
    case CompactedBatch(info) => |info.slices| >= 2 && Tiled(info)
  }

  ghost predicate BatchesOk(c: Hash, bs: seq<Batch>) {
    forall i | 0 <= i < |bs| :: BatchOk(c, bs[i])
  }

  lemma OneSliceTiled(d: DataSlice, s: DataStream, info: BatchInfo)
    requires SliceIntact(d) && s.newData == Some(d) && StartsAtNextOffset(s) && HasValidInterval(s)
    requires info.slices == [d.physicalHash] && info.upper.endOffset == d.end
    requires info.lower.startOffset == d.start && info.lower.prevOffset == s.prevOffset
    ensures Tiled(info)
  {
    OneFile(d.physicalHash);
  }

  lemma JoinedTiled(d: DataSlice, s: DataStream, info: BatchInfo, joined: BatchInfo)
    requires SliceIntact(d) && s.newData == Some(d) && StartsAtNextOffset(s) && HasValidInterval(s)
    requires Tiled(info) && info.lower.prevOffset == Some(d.end)
    requires joined.slices == info.slices + [d.physicalHash] && joined.upper.endOffset == info.upper.endOffset
    requires joined.lower.startOffset == d.start && joined.lower.prevOffset == s.prevOffset
    ensures Tiled(joined)
  {
    RowsSnoc(info.slices, d.physicalHash);
  }

  lemma SliceVisited(c: Hash, i: nat, st: ScanState, limits: Limits)
    requires Valid(c) && Intact(c) && i < |c| && c[i].event.AddData? && HasData(c[i].event)
    requires PendingOk(c, i + 1, st)
    ensures PendingOk(c, i, VisitSlice(st, c[..i + 1], limits))
  {
    var s := c[i].event.stream;
    var d := s.newData.value;
    var next := VisitSlice(st, c[..i + 1], limits);
    StreamLinked(c, i);
    StreamStep(c, i);
    assert c[..i + 1] <= c;
    if Overflows(st, d, limits) || st.info.slices == [] {
      assert next.info.slices == [d.physicalHash];
      OneSliceTiled(d, s, next.info);
    } else {
      JoinedTiled(d, s, st.info, next.info);
    }
  }

  lemma FlushOk(c: Hash, i: nat, st: ScanState)
    requires i <= |c| && PendingOk(c, i, st) && BatchesOk(c, st.batches)
    ensures BatchesOk(c, Flushed(st))
  {
    if |st.info.slices| == 1 {
      assert BatchOk(c, PendingBatch(st));
    }
  }

  lemma VisitOk(c: Hash, i: nat, st: ScanState, limits: Limits)
    requires Valid(c) && Intact(c) && i < |c| && !c[i].event.ExecuteTransform?
    requires PendingOk(c, i + 1, st) && BatchesOk(c, st.batches)
    ensures var next := Visit(st, c[..i + 1], limits, false); PendingOk(c, i, next) && BatchesOk(c, next.batches)
  {
    var next := Visit(st, c[..i + 1], limits, false);
    StreamStep(c, i);
    assert c[..i + 1] <= c && c[..i + 1][i] == c[i];
    FlushOk(c, i + 1, st);
    if c[i].event.AddData? {
      StreamLinked(c, i);
      if HasData(c[i].event) {
        SliceVisited(c, i, st, limits);
      }
      assert next.batches == st.batches || next.batches == Flushed(st);
    } else if IsMetadata(c[i].event) {
      assert next.batches == Flushed(st) + [SingleBlock(c[..i + 1])] && next.info.slices == [];
    }
  }

  lemma {:induction false} ScanOk(c: Hash, i: nat, limits: Limits)
    requires Valid(c) && Intact(c) && IsRoot(c) && i <= |c|
    ensures var st := ScanFrom(c, i, limits, false); PendingOk(c, i, st) && BatchesOk(c, st.batches)
    decreases |c| - i
  {
    if i == |c| {
    } else {
      ScanOk(c, i + 1, limits);
      VisitOk(c, i, ScanFrom(c, i + 1, limits, false), limits);
    }
  }

  /******* Limits *******/

  /** The counters never under-count the pending slices. */
  ghost predicate WithinLimits(st: ScanState, limits: Limits) {
    && SumSizes(st.info.slices) <= st.size
    && 0 <= st.records
    && |RowsOldestFirst(st.info.slices)| <= st.records
    && (|st.info.slices| >= 2 ==> st.size <= limits.maxSize && st.records <= limits.maxRecords)
  }

  ghost predicate BatchWithinLimits(b: Batch, limits: Limits) {
    b.CompactedBatch? ==>
      SumSizes(b.info.slices) <= limits.maxSize && |RowsOldestFirst(b.info.slices)| <= limits.maxRecords
  }

  ghost predicate AllWithinLimits(bs: seq<Batch>, limits: Limits) {
    forall k | 0 <= k < |bs| :: BatchWithinLimits(bs[k], limits)
  }

  lemma FlushWithinLimits(st: ScanState, limits: Limits)
    requires HashKnown(st) && WithinLimits(st, limits) && AllWithinLimits(st.batches, limits)
    ensures AllWithinLimits(Flushed(st), limits)
  {
  }

  lemma SliceWithinLimits(st: ScanState, hash: Hash, limits: Limits)
    requires HashKnown(st) && hash != [] && HasData(hash[|hash| - 1].event) && WithinLimits(st, limits)
    requires SliceIntact(hash[|hash| - 1].event.stream.newData.value)
    ensures WithinLimits(VisitSlice(st, hash, limits), limits)
  {
    var f := hash[|hash| - 1].event.stream.newData.value.physicalHash;
    RowsSnoc(st.info.slices, f);
    OneFile(f);
    if st.info.slices == [] {
      assert st.info.slices + [f] == [f];
    }
  }

  lemma VisitWithinLimits(c: Hash, i: nat, st: ScanState, limits: Limits)
    requires Intact(c) && i < |c| && HashKnown(st) && WithinLimits(st, limits) && AllWithinLimits(st.batches, limits)
    ensures var next := Visit(st, c[..i + 1], limits, false);
      WithinLimits(next, limits) && AllWithinLimits(next.batches, limits)
  {
    var next := Visit(st, c[..i + 1], limits, false);
    assert c[..i + 1][i] == c[i];
    FlushWithinLimits(st, limits);
    if c[i].event.AddData? && HasData(c[i].event) {
      SliceWithinLimits(st, c[..i + 1], limits);
      assert next.batches == st.batches || next.batches == Flushed(st);
    } else if IsMetadata(c[i].event) {
      assert next.batches == Flushed(st) + [SingleBlock(c[..i + 1])];
    } else {
      assert next.batches == st.batches;
    }
  }

  /** Every batch of two or more slices stays within both limits, even though the counters
      are not reset when a metadata event closes a batch. */
  lemma {:induction false} ScanWithinLimits(c: Hash, i: nat, limits: Limits)
    requires Intact(c) && i <= |c|
    ensures var st := ScanFrom(c, i, limits, false);
      WithinLimits(st, limits) && AllWithinLimits(st.batches, limits)
    decreases |c| - i
  {
    if i == |c| {
    } else {
      ScanWithinLimits(c, i + 1, limits);
      VisitWithinLimits(c, i, ScanFrom(c, i + 1, limits, false), limits);
    }
  }

  /******* The same records and the same other events *******/

  lemma EventsCons(c: Hash, i: nat)
    requires i < |c|
    ensures Events(c[i..]) == [c[i].event] + Events(c[i + 1..])
    ensures Events(c[i..])[1..] == Events(c[i + 1..])
  {
  }

  lemma EventsFromSeed(c: Hash)
    requires c != []
    ensures Events(c) == [c[0].event] + Events(c[1..])
    ensures Events(c)[1..] == Events(c[1..])
  {
  }

  lemma {:induction false} MeaningCons(e: Event, es: seq<Event>)
    ensures Meaning([e] + es) == EventMeaning(e) + Meaning(es)
  {
    assert ([e] + es)[1..] == es;
  }

  lemma {:induction false} BatchEventsSnoc(bs: seq<Batch>, b: Batch, encode: Encoder)
    requires AllWellFormed(bs) && WellFormed(b)
    ensures AllWellFormed(bs + [b])
    ensures BatchEvents(bs + [b], encode) == [BatchEvent(b, encode)] + BatchEvents(bs, encode)
  {
    assert (bs + [b])[..|bs|] == bs;
  }

  lemma {:induction false} BatchMeaning(bs: seq<Batch>, b: Batch, encode: Encoder)
    requires AllWellFormed(bs) && WellFormed(b)
    ensures AllWellFormed(bs + [b])
    ensures Meaning(BatchEvents(bs + [b], encode)) ==
      EventMeaning(BatchEvent(b, encode)) + Meaning(BatchEvents(bs, encode))
  {
    BatchEventsSnoc(bs, b, encode);
    MeaningCons(BatchEvent(b, encode), BatchEvents(bs, encode));
  }

  /** What the scan holds at any moment: the pending records, then the batches. */
  ghost function ScanMeaning(st: ScanState, encode: Encoder): seq<Item>
    requires AllWellFormed(st.batches)
  {
    Records(RowsOldestFirst(st.info.slices)) + Meaning(BatchEvents(st.batches, encode))
  }

  lemma CompactedMeaning(info: BatchInfo, encode: Encoder)
    requires Tiled(info)
    ensures EventMeaning(BatchEvent(CompactedBatch(info), encode)) == Records(RowsOldestFirst(info.slices))
  {
    MergeRestoresOrder(info.slices, info.lower.startOffset, encode);
  }

  lemma FlushKeepsMeaning(c: Hash, i: nat, st: ScanState, encode: Encoder)
    requires i <= |c| && PendingOk(c, i, st) && BatchesOk(c, st.batches)
    ensures AllWellFormed(Flushed(st)) && BatchesOk(c, Flushed(st))
    ensures Meaning(BatchEvents(Flushed(st), encode)) == ScanMeaning(st, encode)
  {
    if |st.info.slices| == 1 {
      BatchMeaning(st.batches, PendingBatch(st), encode);
      assert st.info.slices == [st.info.slices[0]];
      OneFile(st.info.slices[0]);
    } else if |st.info.slices| > 1 {
      BatchMeaning(st.batches, PendingBatch(st), encode);
      CompactedMeaning(st.info, encode);
    }
  }

  lemma MetadataVisited(c: Hash, i: nat, bs: seq<Batch>, encode: Encoder)
    requires i < |c| && AllWellFormed(bs) && !c[i].event.AddData?
    ensures var next := bs + [SingleBlock(c[..i + 1])];
      && AllWellFormed(next)
      && Meaning(BatchEvents(next, encode)) == [Metadata(c[i].event)] + Meaning(BatchEvents(bs, encode))
  {
    var b := SingleBlock(c[..i + 1]);
    assert BatchEvent(b, encode) == c[i].event;
    BatchMeaning(bs, b, encode);
  }

  lemma SliceKeepsMeaning(c: Hash, i: nat, st: ScanState, limits: Limits, encode: Encoder)
    requires i < |c| && c[i].event.AddData? && HasData(c[i].event)
    requires PendingOk(c, i + 1, st) && BatchesOk(c, st.batches)
    ensures var next := VisitSlice(st, c[..i + 1], limits);
      AllWellFormed(next.batches) && ScanMeaning(next, encode) == EventMeaning(c[i].event) + ScanMeaning(st, encode)
  {
    var d := c[i].event.stream.newData.value;
    var f := d.physicalHash;
    var next := VisitSlice(st, c[..i + 1], limits);
    if Overflows(st, d, limits) {
      assert next.batches == Flushed(st) && next.info.slices == [f];
      FlushKeepsMeaning(c, i + 1, st, encode);
      OneFile(f);
    } else {
      assert next.batches == st.batches && next.info.slices == st.info.slices + [f];
      RowsSnoc(st.info.slices, f);
      assert Records(f.rows + RowsOldestFirst(st.info.slices)) ==
        Records(f.rows) + Records(RowsOldestFirst(st.info.slices));
    }
  }

  lemma {:induction false} ScanKeepsMeaning(c: Hash, i: nat, limits: Limits, encode: Encoder)
    requires Valid(c) && Intact(c) && IsRoot(c) && 0 < i <= |c|
    ensures var st := ScanFrom(c, i, limits, false);
      AllWellFormed(st.batches) && ScanMeaning(st, encode) == Meaning(Events(c[i..]))
    decreases |c| - i
  {
    if i == |c| {
    } else {
      var st, next := ScanFrom(c, i + 1, limits, false), ScanFrom(c, i, limits, false);
      ScanOk(c, i + 1, limits);
      ScanKeepsMeaning(c, i + 1, limits, encode);
      EventsCons(c, i);
      MeaningCons(c[i].event, Events(c[i + 1..]));
      if !c[i].event.AddData? {
        SeedIsFirst(c, i);
        FlushKeepsMeaning(c, i + 1, st, encode);
        MetadataVisited(c, i, Flushed(st), encode);
        assert next.batches == Flushed(st) + [SingleBlock(c[..i + 1])] && next.info.slices == [];
        assert Records(RowsOldestFirst([])) == [];
      } else if HasData(c[i].event) {
        SliceKeepsMeaning(c, i, st, limits, encode);
      }
    }
  }

  /******* Nothing is left pending at the seed *******/

  ghost predicate SchemaLeads(es: seq<Event>) {
    forall k | 0 <= k < |es| && HasData(es[k]) :: exists j :: 0 <= j < k && es[j].SetDataSchema?
  }

  lemma SchemaLeadsCons(e: Event, es: seq<Event>)
    requires e.SetDataSchema? || (!HasData(e) && SchemaLeads(es))
    ensures SchemaLeads([e] + es)
  {
    var r := [e] + es;
    forall k | 0 <= k < |r| && HasData(r[k])
      ensures exists j :: 0 <= j < k && r[j].SetDataSchema?
    {
      if e.SetDataSchema? {
        assert r[0].SetDataSchema?;
      } else {
        var j :| 0 <= j < k - 1 && es[j].SetDataSchema?;
        assert r[j + 1].SetDataSchema?;
      }
    }
  }

  lemma OkWellFormed(c: Hash, bs: seq<Batch>)
    requires BatchesOk(c, bs)
    ensures AllWellFormed(bs)
  {
    forall k | 0 <= k < |bs|
      ensures WellFormed(bs[k])
    {
      assert BatchOk(c, bs[k]);
    }
  }

  lemma SchemaStillLeads(c: Hash, i: nat, st: ScanState, encode: Encoder)
    requires i < |c| && PendingOk(c, i + 1, st) && BatchesOk(c, st.batches) && !HasData(c[i].event)
    requires c[i].event.SetDataSchema? || (st.info.slices == [] && SchemaLeads(BatchEvents(st.batches, encode)))
    ensures var bs := Flushed(st) + [SingleBlock(c[..i + 1])];
      AllWellFormed(bs) && SchemaLeads(BatchEvents(bs, encode))
  {
    FlushOk(c, i + 1, st);
    OkWellFormed(c, Flushed(st));
    BatchEventsSnoc(Flushed(st), SingleBlock(c[..i + 1]), encode);
    SchemaLeadsCons(c[i].event, BatchEvents(Flushed(st), encode));
  }

  /** Once the scan is past the oldest schema event nothing is pending, because validation
      admits data only after a schema: so the missing flush at the seed loses nothing. */
  lemma {:induction false} NothingPendingBelowSchema(c: Hash, i: nat, limits: Limits, encode: Encoder)
    requires Valid(c) && Intact(c) && IsRoot(c) && i <= |c|
    ensures var st := ScanFrom(c, i, limits, false);
      && AllWellFormed(st.batches)
      && (LastOf(c[..i], SchemaKind).Some? || (st.info.slices == [] && SchemaLeads(BatchEvents(st.batches, encode))))
    decreases |c| - i
  {
    ScanOk(c, i, limits);
    var next := ScanFrom(c, i, limits, false);
    assert AllWellFormed(next.batches);
    if i < |c| && LastOf(c[..i], SchemaKind).None? {
      NothingPendingBelowSchema(c, i + 1, limits, encode);
      ScanOk(c, i + 1, limits);
      KindStep(c, i, SchemaKind);
      var st := ScanFrom(c, i + 1, limits, false);
      if HasData(c[i].event) {
        Odf.SchemaBeforeData(c, i);
      } else if IsMetadata(c[i].event) {
        assert next.batches == Flushed(st) + [SingleBlock(c[..i + 1])];
        SchemaStillLeads(c, i, st, encode);
      } else {
        assert next.batches == st.batches && next.info.slices == st.info.slices;
      }
    }
  }

  lemma SeedFirst(c: Hash)
    requires Valid(c) && c != []
    ensures c[0].event.Seed?
  {
    SeedIsFirst(c, 0);
  }

  lemma {:induction false} SeedSkipped(c: Hash, limits: Limits, keepMetadataOnly: bool)
    requires Valid(c) && c != []
    ensures Scan(c, limits, keepMetadataOnly) == ScanFrom(c, 1, limits, keepMetadataOnly).batches
  {
    SeedFirst(c);
  }

  lemma {:induction false} NothingPendingAtSeed(c: Hash, limits: Limits)
    requires Valid(c) && Intact(c) && IsRoot(c) && c != []
    ensures ScanFrom(c, 1, limits, false).info.slices == []
  {
    NothingPendingBelowSchema(c, 1, limits, _ => Encoding(0, 0));
    SeedFirst(c);
    KindStep(c, 0, SchemaKind);
  }

  lemma BatchesKeepMeaning(c: Hash, limits: Limits, encode: Encoder)
    requires Valid(c) && Intact(c) && IsRoot(c) && c != []
    ensures AllWellFormed(Scan(c, limits, false))
    ensures Meaning(BatchEvents(Scan(c, limits, false), encode)) == Meaning(Events(c[1..]))
  {
    SeedSkipped(c, limits, false);
    ScanKeepsMeaning(c, 1, limits, encode);
    NothingPendingAtSeed(c, limits);
    assert Records(RowsOldestFirst([])) == [];
  }

  /** Committing the batches on top of the seed reproduces the records and the other events. */
  lemma CompactionPreservesMeaning(c: Hash, limits: Limits, encode: Encoder)
    requires Valid(c) && Intact(c) && IsRoot(c) && c != []
    ensures AllWellFormed(Scan(c, limits, false))
    ensures Meaning([c[0].event] + BatchEvents(Scan(c, limits, false), encode)) == Meaning(Events(c))
  {
    BatchesKeepMeaning(c, limits, encode);
    MeaningCons(c[0].event, BatchEvents(Scan(c, limits, false), encode));
    EventsFromSeed(c);
    MeaningCons(c[0].event, Events(c[1..]));
  }
}
