/**
 The length test that decides whether there is anything to do, and idempotence:
 compacting a compacted chain finds nothing to do.
 */
module CompactionLength {
  import opened Wrappers
  import opened Odf
  import opened CompactionModel
  import opened CompactionMeaning

  /** Number of batches if the scan stopped here. */
  function BatchCount(st: ScanState): nat {
    |st.batches| + if st.info.slices == [] then 0 else 1
  }

  /******* The length test is exact *******/

  /** One batch for every block from i on, newest first. */
  function OneBatchPerBlock(c: Hash, i: nat): seq<Batch>
    requires i <= |c|
    decreases |c| - i
  {
    if i == |c| then [] else OneBatchPerBlock(c, i + 1) + [SingleBlock(c[..i + 1])]
  }

  lemma {:induction false} OneBatchPerBlockEvents(c: Hash, i: nat, encode: Encoder)
    requires i <= |c|
    ensures AllWellFormed(OneBatchPerBlock(c, i))
    ensures BatchEvents(OneBatchPerBlock(c, i), encode) == Events(c[i..])
    decreases |c| - i
  {
    if i == |c| {
    } else {
      OneBatchPerBlockEvents(c, i + 1, encode);
      BatchEventsSnoc(OneBatchPerBlock(c, i + 1), SingleBlock(c[..i + 1]), encode);
      EventsCons(c, i);
    }
  }

  lemma LengthAfterSlice(st: ScanState, hash: Hash, limits: Limits)
    requires HashKnown(st) && hash != [] && HasData(hash[|hash| - 1].event)
    ensures var next := VisitSlice(st, hash, limits);
      && BatchCount(next) <= BatchCount(st) + 1
      && (BatchCount(next) == BatchCount(st) + 1 ==>
            |next.info.slices| == 1 && Flushed(next) == Flushed(st) + [SingleBlock(hash)])
  {
  }

  /** With as many batches as blocks, every batch is one block, and none holds a query. */
  lemma {:induction false} ScanLength(c: Hash, i: nat, limits: Limits)
    requires Valid(c) && 0 < i <= |c|
    ensures var st := ScanFrom(c, i, limits, false);
      && BatchCount(st) <= |c| - i
      && (BatchCount(st) == |c| - i ==>
            && |st.info.slices| <= 1 && Flushed(st) == OneBatchPerBlock(c, i)
            && forall k | i <= k < |c| :: !c[k].event.ExecuteTransform?)
    decreases |c| - i
  {
    if i == |c| {
    } else {
      var st, next := ScanFrom(c, i + 1, limits, false), ScanFrom(c, i, limits, false);
      ScanLength(c, i + 1, limits);
      if c[i].event.ExecuteTransform? {
        assert next == st;
      } else if HasData(c[i].event) {
        LengthAfterSlice(st, c[..i + 1], limits);
      } else if c[i].event.AddData? {
        assert BatchCount(next) == BatchCount(st);
      } else {
        SeedIsFirst(c, i);
        assert Flushed(next) == Flushed(st) + [SingleBlock(c[..i + 1])];
      }
    }
  }

  /** Counting the seed, there are never more batches than blocks, and fewer if there is a query. */
  lemma NeverLonger(c: Hash, limits: Limits)
    requires Valid(c) && c != []
    ensures |Scan(c, limits, false)| + 1 <= |c|
    ensures |Scan(c, limits, false)| + 1 == |c| ==> IsRoot(c)
  {
    SeedFirst(c);
    SeedSkipped(c, limits, false);
    ScanLength(c, 1, limits);
  }

  /** The batches and the seed are never more than the blocks there were, and they are
      equally many exactly when committing them would reproduce the same events. */
  lemma LengthTestExact(c: Hash, limits: Limits, encode: Encoder)
    requires Valid(c) && Intact(c) && IsRoot(c) && c != []
    ensures var bs := Scan(c, limits, false);
      && AllWellFormed(bs)
      && |bs| + 1 <= |c|
      && (|bs| + 1 == |c| <==> [c[0].event] + BatchEvents(bs, encode) == Events(c))
  {
    var st := ScanFrom(c, 1, limits, false);
    SeedSkipped(c, limits, false);
    NothingPendingAtSeed(c, limits);
    ScanLength(c, 1, limits);
    CompactionPreservesMeaning(c, limits, encode);
    OneBatchPerBlockEvents(c, 1, encode);
    EventsFromSeed(c);
  }

  /******* Grouping by size alone *******/

  /** What the grouping decisions depend on: slices with their size and number of records,
      and the metadata events that separate them. */
  datatype Chunk = Data(size: int, records: int) | Marker

  datatype Groups = Groups(done: seq<Chunk>, open: Option<Chunk>, size: int, records: int)

  const NO_GROUPS := Groups([], None, 0, 0)

  function Joined(open: Option<Chunk>, c: Chunk): Chunk
    requires c.Data?
  {
    if open.Some? && open.value.Data? then Data(open.value.size + c.size, open.value.records + c.records) else c
  }

  predicate IsOpen(g: Groups) {
    g.open.Some?
  }

  function Closed(g: Groups): seq<Chunk> {
    g.done + if IsOpen(g) then [g.open.value] else []
  }

  function AddChunk(g: Groups, c: Chunk, limits: Limits): Groups {
    if c.Marker? then Groups(Closed(g) + [Marker], None, g.size, g.records)
    else if g.size + c.size > limits.maxSize || g.records + c.records > limits.maxRecords then
      Groups(Closed(g), Some(c), c.size, c.records)
    else Groups(g.done, Some(Joined(g.open, c)), g.size + c.size, g.records + c.records)
  }

  function Group(cs: seq<Chunk>, limits: Limits): Groups {
    if cs == [] then NO_GROUPS else AddChunk(Group(cs[..|cs| - 1], limits), cs[|cs| - 1], limits)
  }

  ghost predicate NonNegative(cs: seq<Chunk>) {
    forall i | 0 <= i < |cs| :: cs[i].Data? ==> cs[i].size >= 0 && cs[i].records >= 0
  }

  lemma {:induction false} GroupSnoc(cs: seq<Chunk>, c: Chunk, limits: Limits)
    ensures Group(cs + [c], limits) == AddChunk(Group(cs, limits), c, limits)
  {
    assert (cs + [c])[..|cs|] == cs;
  }

  /** The groups, taken as chunks, group into themselves and leave the same counters behind. */
  ghost predicate Stable(g: Groups, limits: Limits) {
    && Group(Closed(g), limits) == g
    && Closed(Group(g.done, limits)) == g.done
    && (IsOpen(g) ==> g.open.value.Data?)
    && (IsOpen(g) ==> g.open.value.size >= 0 && g.open.value.records >= 0)
  }

  /** A chunk that joins the open group: the enlarged group meets the same decision that the
      open group met, because either the counters already overflowed without the new chunk, or
      they still fit with it. */
  lemma StableJoin(g: Groups, c: Chunk, limits: Limits)
    requires Stable(g, limits) && IsOpen(g)
    requires c.Data? && c.size >= 0 && c.records >= 0
    requires g.size + c.size <= limits.maxSize && g.records + c.records <= limits.maxRecords
    ensures Stable(AddChunk(g, c, limits), limits)
  {
    var next := AddChunk(g, c, limits);
    var u, before, after := Group(g.done, limits), g.open.value, next.open.value;
    assert Closed(g) == g.done + [before] && Closed(next) == g.done + [after];
    GroupSnoc(g.done, before, limits);
    GroupSnoc(g.done, after, limits);
    assert AddChunk(u, before, limits) == g;
    assert AddChunk(u, after, limits) == next by {
      if u.size + before.size <= limits.maxSize && u.records + before.records <= limits.maxRecords {
        assert |Closed(g)| == |Closed(u)| + 1;
        assert !IsOpen(u);
      }
    }
  }

  /** A chunk that stays apart from the groups there are. */
  lemma {:induction false} StableApart(g: Groups, c: Chunk, limits: Limits)
    requires Stable(g, limits) && (c.Data? ==> c.size >= 0 && c.records >= 0)
    requires Closed(AddChunk(g, c, limits)) == Closed(g) + [c]
    ensures Stable(AddChunk(g, c, limits), limits)
  {
    GroupSnoc(Closed(g), c, limits);
  }

  lemma StableStep(g: Groups, c: Chunk, limits: Limits)
    requires Stable(g, limits)
    requires c.Data? ==> c.size >= 0 && c.records >= 0
    ensures Stable(AddChunk(g, c, limits), limits)
  {
    if c.Data? && g.size + c.size <= limits.maxSize && g.records + c.records <= limits.maxRecords && IsOpen(g) {
      StableJoin(g, c, limits);
    } else {
      assert Closed(AddChunk(g, c, limits)) == Closed(g) + [c];
      StableApart(g, c, limits);
    }
  }

  lemma {:induction false} GroupStable(cs: seq<Chunk>, limits: Limits)
    requires NonNegative(cs)
    ensures Stable(Group(cs, limits), limits)
  {
    if cs == [] {
    } else {
      GroupStable(cs[..|cs| - 1], limits);
      StableStep(Group(cs[..|cs| - 1], limits), cs[|cs| - 1], limits);
    }
  }

  /******* The scan groups by size alone *******/

  function ChunkOf(e: Event): seq<Chunk> {
    if HasData(e) then [Data(e.stream.newData.value.size, NumRecords(e.stream.newData.value))]
    else if IsMetadata(e) then [Marker]
    else []
  }

  /** Chunks in the order of the scan, newest first, for events listed oldest first. */
  function ChunksOf(es: seq<Event>): seq<Chunk> {
    if es == [] then [] else ChunksOf(es[1..]) + ChunkOf(es[0])
  }

  lemma {:induction false} ChunksCons(e: Event, es: seq<Event>)
    ensures ChunksOf([e] + es) == ChunksOf(es) + ChunkOf(e)
  {
    assert ([e] + es)[1..] == es;
  }

  /** A merged file takes the space of its parts. */
  ghost predicate SizesAdd(encode: Encoder) {
    forall fs :: encode(fs).size == SumSizes(fs)
  }

  function OpenChunk(info: BatchInfo): Option<Chunk> {
    if info.slices == [] then None
    else Some(Data(SumSizes(info.slices), info.upper.endOffset - info.lower.startOffset + 1))
  }

  ghost predicate Simulates(g: Groups, st: ScanState, encode: Encoder)
    requires AllWellFormed(st.batches)
  {
    && g.size == st.size && g.records == st.records
    && g.open == OpenChunk(st.info)
    && g.done == ChunksOf(BatchEvents(st.batches, encode))
    && |g.done| == |st.batches|
  }

  lemma FlushedChunk(c: Hash, i: nat, st: ScanState, encode: Encoder)
    requires Intact(c) && i <= |c| && PendingOk(c, i, st) && SizesAdd(encode)
    requires |st.info.slices| == 1
    ensures ChunkOf(BatchEvent(PendingBatch(st), encode)) == [OpenChunk(st.info).value]
  {
    var hash := st.currentHash.value;
    var k := |hash| - 1;
    assert hash[k] == c[k] && HasData(c[k].event);
    assert SliceIntact(c[k].event.stream.newData.value);
    assert st.info.slices == [st.info.slices[0]];
    OneFile(st.info.slices[0]);
  }

  lemma CompactedChunk(info: BatchInfo, encode: Encoder)
    requires SizesAdd(encode) && info.slices != []
    ensures ChunkOf(BatchEvent(CompactedBatch(info), encode)) == [OpenChunk(info).value]
  {
  }

  lemma FlushSimulated(c: Hash, i: nat, st: ScanState, g: Groups, encode: Encoder)
    requires Intact(c) && i <= |c| && PendingOk(c, i, st) && BatchesOk(c, st.batches) && SizesAdd(encode)
    requires Simulates(g, st, encode)
    ensures AllWellFormed(Flushed(st))
    ensures Closed(g) == ChunksOf(BatchEvents(Flushed(st), encode)) && |Closed(g)| == |Flushed(st)|
  {
    if st.info.slices != [] {
      var b := PendingBatch(st);
      BatchEventsSnoc(st.batches, b, encode);
      ChunksCons(BatchEvent(b, encode), BatchEvents(st.batches, encode));
      if |st.info.slices| == 1 {
        FlushedChunk(c, i, st, encode);
      } else {
        CompactedChunk(st.info, encode);
      }
    }
  }

  lemma MarkerChunks(c: Hash, i: nat, bs: seq<Batch>, encode: Encoder)
    requires i < |c| && AllWellFormed(bs) && IsMetadata(c[i].event)
    ensures var next := bs + [SingleBlock(c[..i + 1])];
      AllWellFormed(next) && ChunksOf(BatchEvents(next, encode)) == ChunksOf(BatchEvents(bs, encode)) + [Marker]
  {
    var b := SingleBlock(c[..i + 1]);
    BatchEventsSnoc(bs, b, encode);
    assert BatchEvent(b, encode) == c[i].event;
    ChunksCons(c[i].event, BatchEvents(bs, encode));
  }

  lemma MarkerSimulated(c: Hash, i: nat, st: ScanState, g: Groups, limits: Limits, encode: Encoder)
    requires Intact(c) && i < |c| && PendingOk(c, i + 1, st) && BatchesOk(c, st.batches) && SizesAdd(encode)
    requires Simulates(g, st, encode) && IsMetadata(c[i].event)
    ensures var next := Visit(st, c[..i + 1], limits, false);
      AllWellFormed(next.batches) && Simulates(AddChunk(g, Marker, limits), next, encode)
  {
    var next := Visit(st, c[..i + 1], limits, false);
    assert next == st.(batches := Flushed(st) + [SingleBlock(c[..i + 1])], info := Reset(st.info));
    FlushSimulated(c, i + 1, st, g, encode);
    MarkerChunks(c, i, Flushed(st), encode);
  }

  lemma SliceJoins(c: Hash, i: nat, st: ScanState, limits: Limits)
    requires Valid(c) && Intact(c) && i < |c| && PendingOk(c, i + 1, st)
    requires c[i].event.AddData? && HasData(c[i].event)
    ensures var next := Visit(st, c[..i + 1], limits, false);
      var d := c[i].event.stream.newData.value;
      if Overflows(st, d, limits) then
        next.batches == Flushed(st) && next.size == d.size && next.records == NumRecords(d) &&
        OpenChunk(next.info) == Some(Data(d.size, NumRecords(d)))
      else
        next.batches == st.batches && next.size == st.size + d.size && next.records == st.records + NumRecords(d) &&
        OpenChunk(next.info) == Some(Joined(OpenChunk(st.info), Data(d.size, NumRecords(d))))
  {
    var d := c[i].event.stream.newData.value;
    StreamLinked(c, i);
    StreamStep(c, i);
    assert SliceIntact(d);
    RowsSnoc(st.info.slices, d.physicalHash);
    OneFile(d.physicalHash);
    if st.info.slices == [] {
      assert st.info.slices + [d.physicalHash] == [d.physicalHash];
    }
  }

  lemma SliceSimulated(c: Hash, i: nat, st: ScanState, g: Groups, limits: Limits, encode: Encoder)
    requires Valid(c) && Intact(c) && i < |c| && PendingOk(c, i + 1, st) && BatchesOk(c, st.batches) && SizesAdd(encode)
    requires Simulates(g, st, encode) && c[i].event.AddData? && HasData(c[i].event)
    ensures var next := Visit(st, c[..i + 1], limits, false);
      AllWellFormed(next.batches) && Simulates(AddChunk(g, ChunkOf(c[i].event)[0], limits), next, encode)
  {
    var e := c[i].event;
    assert ChunkOf(e)[0] == Data(e.stream.newData.value.size, NumRecords(e.stream.newData.value));
    SliceJoins(c, i, st, limits);
    if Overflows(st, e.stream.newData.value, limits) {
      FlushSimulated(c, i + 1, st, g, encode);
    }
  }

  ghost predicate SimulatedFrom(c: Hash, i: nat, limits: Limits, encode: Encoder)
    requires i <= |c|
  {
    var st := ScanFrom(c, i, limits, false);
    AllWellFormed(st.batches) && Simulates(Group(ChunksOf(Events(c[i..])), limits), st, encode)
  }

  lemma ChunkSimulated(c: Hash, i: nat, limits: Limits, encode: Encoder)
    requires Valid(c) && Intact(c) && IsRoot(c) && 0 < i < |c| && SizesAdd(encode)
    requires SimulatedFrom(c, i + 1, limits, encode) && ChunkOf(c[i].event) != []
    ensures SimulatedFrom(c, i, limits, encode)
  {
    var e, cs := c[i].event, ChunksOf(Events(c[i + 1..]));
    var st, g := ScanFrom(c, i + 1, limits, false), Group(cs, limits);
    ScanOk(c, i + 1, limits);
    EventsCons(c, i);
    ChunksCons(e, Events(c[i + 1..]));
    assert ChunkOf(e) == [ChunkOf(e)[0]];
    GroupSnoc(cs, ChunkOf(e)[0], limits);
    if HasData(e) {
      assert !e.ExecuteTransform?;
      SliceSimulated(c, i, st, g, limits, encode);
    } else {
      MarkerSimulated(c, i, st, g, limits, encode);
    }
  }

  lemma {:induction false} QuietSimulated(c: Hash, i: nat, limits: Limits, encode: Encoder)
    requires i < |c| && ChunkOf(c[i].event) == [] && !c[i].event.ExecuteTransform?
    requires SimulatedFrom(c, i + 1, limits, encode)
    ensures SimulatedFrom(c, i, limits, encode)
  {
    EventsCons(c, i);
    ChunksCons(c[i].event, Events(c[i + 1..]));
    assert ChunksOf(Events(c[i..])) == ChunksOf(Events(c[i + 1..]));
  }

  lemma {:induction false} ScanSimulated(c: Hash, i: nat, limits: Limits, encode: Encoder)
    requires Valid(c) && Intact(c) && IsRoot(c) && 0 < i <= |c| && SizesAdd(encode)
    ensures SimulatedFrom(c, i, limits, encode)
    decreases |c| - i
  {
    if i == |c| {
    } else {
      ScanSimulated(c, i + 1, limits, encode);
      SeedIsFirst(c, i);
      if ChunkOf(c[i].event) != [] {
        ChunkSimulated(c, i, limits, encode);
      } else {
        QuietSimulated(c, i, limits, encode);
      }
    }
  }

  lemma {:induction false} ChunksNonNegative(c: Hash, i: nat)
    requires Valid(c) && i <= |c|
    ensures NonNegative(ChunksOf(Events(c[i..])))
    decreases |c| - i
  {
    if i == |c| {
    } else {
      ChunksNonNegative(c, i + 1);
      EventsCons(c, i);
      ChunksCons(c[i].event, Events(c[i + 1..]));
      if HasData(c[i].event) {
        StreamLinked(c, i);
      }
    }
  }

  /** A second scan of a chain rebuilt from the batches closes exactly as many batches. */
  lemma SecondScanFindsNothing(c: Hash, d: Hash, limits: Limits, encode: Encoder)
    requires Valid(c) && Intact(c) && IsRoot(c) && c != [] && SizesAdd(encode)
    requires Valid(d) && Intact(d) && IsRoot(d) && d != []
    requires AllWellFormed(Scan(c, limits, false))
    requires Events(d[1..]) == BatchEvents(Scan(c, limits, false), encode)
    ensures |Scan(d, limits, false)| + 1 == |d|
  {
    var st, st' := ScanFrom(c, 1, limits, false), ScanFrom(d, 1, limits, false);
    SeedSkipped(c, limits, false);
    SeedSkipped(d, limits, false);
    NothingPendingAtSeed(c, limits);
    ScanSimulated(c, 1, limits, encode);
    ScanSimulated(d, 1, limits, encode);
    ChunksNonNegative(c, 1);
    GroupStable(ChunksOf(Events(c[1..])), limits);
  }
}
