/**
 The compaction service: scan, length test, recommit.  The methods are proved
 against the scan of CompactionModel, whose properties the other Compaction
 modules establish; CompactDataset states what a caller gets.
 */
module Compaction {
  import opened Wrappers
  import opened Odf
  import opened CompactionModel
  import opened CompactionMeaning
  import opened CompactionLength
  import opened CompactionCommit
  import opened CompactionHead
  import opened CompactionNumbers
  import opened CompactionCheckpoints

  const DEFAULT_MAX_SLICE_SIZE := 300_000_000
  const DEFAULT_MAX_SLICE_RECORDS := 10_000

  datatype CompactionResult =
    | NothingToDo
    | Success(oldHead: Hash, newHead: Hash, oldNumBlocks: nat, newNumBlocks: nat)

  datatype CompactionError = InvalidDatasetKind | Internal(cause: AppendError)

  datatype CompactionOptions = CompactionOptions(maxSize: Option<nat>, maxRecords: Option<nat>, keepMetadataOnly: bool)

  function LimitsOf(options: CompactionOptions): Limits {
    Limits(
      options.maxSize.OrElse(Some(DEFAULT_MAX_SLICE_SIZE)).value,
      options.maxRecords.OrElse(Some(DEFAULT_MAX_SLICE_RECORDS)).value)
  }

  /******* Metadata only *******/

  function MetadataEvents(es: seq<Event>): seq<Event> {
    if es == [] then []
    else if IsMetadata(es[0]) then [es[0]] + MetadataEvents(es[1..])
    else MetadataEvents(es[1..])
  }

  /** Part by part and in order, everything is kept but the seed, data and queries. */
  lemma {:induction false} MetadataEventsParts(a: seq<Event>, e: Event, b: seq<Event>)
    ensures MetadataEvents(a + [e] + b) ==
      MetadataEvents(a) + (if e.Seed? || e.AddData? || e.ExecuteTransform? then [] else [e]) + MetadataEvents(b)
    decreases |a|
  {
    if a == [] {
      assert a + [e] + b == [e] + b && ([e] + b)[1..] == b;
      assert MetadataEvents([]) == [];
    } else {
      assert (a + [e] + b)[0] == a[0] && (a + [e] + b)[1..] == a[1..] + [e] + b;
      MetadataEventsParts(a[1..], e, b);
    }
  }

  /** The closed batches stand for the metadata among the given events, and nothing is pending. */
  ghost predicate OnlyMetadata(st: ScanState, es: seq<Event>, encode: Encoder) {
    AllWellFormed(st.batches) && st.info.slices == [] && BatchEvents(st.batches, encode) == MetadataEvents(es)
  }

  lemma {:induction false} VisitMetadataOnly(c: Hash, i: nat, st: ScanState, limits: Limits, encode: Encoder)
    requires i < |c| && HashKnown(st) && OnlyMetadata(st, Events(c[i + 1..]), encode)
    ensures OnlyMetadata(Visit(st, c[..i + 1], limits, true), Events(c[i..]), encode)
  {
    var b := SingleBlock(c[..i + 1]);
    assert c[..i + 1][i] == c[i];
    EventsCons(c, i);
    if IsMetadata(c[i].event) {
      BatchEventsSnoc(st.batches, b, encode);
      assert Visit(st, c[..i + 1], limits, true).batches == st.batches + [b];
    } else {
      assert Visit(st, c[..i + 1], limits, true).batches == st.batches;
    }
  }

  lemma {:induction false} ScanMetadataOnly(c: Hash, i: nat, limits: Limits, encode: Encoder)
    requires i <= |c|
    ensures OnlyMetadata(ScanFrom(c, i, limits, true), Events(c[i..]), encode)
    decreases |c| - i
  {
    if i == |c| {
    } else {
      ScanMetadataOnly(c, i + 1, limits, encode);
      VisitMetadataOnly(c, i, ScanFrom(c, i + 1, limits, true), limits, encode);
    }
  }

  lemma {:induction false} MetadataEventsFacts(c: Hash, i: nat)
    requires Valid(c) && i <= |c|
    ensures var es := MetadataEvents(Events(c[i..]));
      && LinkedFrom(None, es)
      && |es| <= |c| - i
      && forall k | 0 <= k < |es| :: IsMetadata(es[k]) && Committable(es[k], c)
    decreases |c| - i
  {
    if i == |c| {
    } else {
      MetadataEventsFacts(c, i + 1);
      EventsCons(c, i);
      if IsMetadata(c[i].event) {
        MetadataCommittable(c, i);
        LinkedCons(c[i].event, MetadataEvents(Events(c[i + 1..])));
      }
    }
  }

  lemma {:induction false} NoCheckpointsInMetadata(p: Option<nat>, es: seq<Event>)
    requires forall k | 0 <= k < |es| :: IsMetadata(es[k])
    ensures CheckpointsLinked(p, es)
    decreases |es|
  {
    if es == [] {
    } else {
      NoCheckpointsInMetadata(p, es[1..]);
    }
  }

  /** Keeping the metadata only leaves the seed and the metadata events, in order, and is rejected
      only if the clock goes back. */
  lemma MetadataOnlyRecommit(c: Hash, limits: Limits, encode: Encoder, clock: Clock)
    requires Valid(c) && c != []
    ensures var bs := Scan(c, limits, true);
      && AllWellFormed(bs)
      && |bs| + 1 <= |c|
      && var r := CommitAll([c[0]], BatchEvents(bs, encode), clock);
         && (r.Ok? <==> InTime(c[0].systemTime, 1, |bs|, clock))
         && (r.Ok? ==> r.value == [c[0]] + Blocks(MetadataEvents(Events(c)), 1, clock))
  {
    SeedFirst(c);
    ScanMetadataOnly(c, 0, limits, encode);
    assert c[0..] == c;
    MetadataEventsFacts(c, 1);
    EventsFromSeed(c);
    var es := MetadataEvents(Events(c));
    assert SchemaLeads(es);
    SingleBlockChain(c[0], AddDataKind);
    AllAcceptedIff(c, [c[0]], es, clock);
    NoCheckpointsInMetadata(None, es);
    CommitAllAppends([c[0]], es, clock);
  }

  /** The equal-length answer is given exactly when the chain holds no data and no query at all. */
  lemma {:induction false} MetadataOnlyLength(es: seq<Event>)
    ensures |MetadataEvents(es)| <= |es|
    ensures |MetadataEvents(es)| == |es| <==> forall k | 0 <= k < |es| :: IsMetadata(es[k])
  {
    if es == [] {
    } else {
      MetadataOnlyLength(es[1..]);
      if IsMetadata(es[0]) && (forall k | 0 <= k < |es| - 1 :: IsMetadata(es[1..][k])) {
        forall k | 0 <= k < |es| ensures IsMetadata(es[k]) {
          if k > 0 {
            assert IsMetadata(es[1..][k - 1]);
          }
        }
      }
    }
  }

  /******* The rebuilt chain *******/

  lemma BatchIntact(c: Hash, b: Batch, encode: Encoder)
    requires Intact(c) && IsRoot(c) && BatchOk(c, b)
    ensures var e := BatchEvent(b, encode);
      !e.ExecuteTransform? && (HasData(e) ==> SliceIntact(e.stream.newData.value))
  {
    match b {
      case SingleBlock(hash) =>
        assert hash[|hash| - 1] == c[|hash| - 1];
      case CompactedBatch(info) =>
        MergeRestoresOrder(info.slices, info.lower.startOffset, encode);
    }
  }

  lemma {:induction false} BatchesIntact(c: Hash, bs: seq<Batch>, encode: Encoder)
    requires Intact(c) && IsRoot(c) && AllWellFormed(bs) && BatchesOk(c, bs)
    ensures forall k | 0 <= k < |bs| ::
      var e := BatchEvents(bs, encode)[k]; !e.ExecuteTransform? && (HasData(e) ==> SliceIntact(e.stream.newData.value))
  {
    if bs == [] {
    } else {
      BatchesIntact(c, bs[..|bs| - 1], encode);
      BatchIntact(c, bs[|bs| - 1], encode);
    }
  }

  lemma Rebuilt(
    c: Hash, limits: Limits, keepMetadataOnly: bool, d: Hash, encode: Encoder, clock: Clock)
    requires Valid(c) && c != [] && AllWellFormed(Scan(c, limits, keepMetadataOnly))
    requires CommitAll([c[0]], BatchEvents(Scan(c, limits, keepMetadataOnly), encode), clock) == Ok(d)
    ensures Valid(d) && d != [] && d[0] == c[0]
    ensures Events(d[1..]) == BatchEvents(Scan(c, limits, keepMetadataOnly), encode)
    ensures Events(d) == [c[0].event] + BatchEvents(Scan(c, limits, keepMetadataOnly), encode)
  {
    var es := BatchEvents(Scan(c, limits, keepMetadataOnly), encode);
    ValidPrefix(c, 1);
    assert c[..1] == [c[0]];
    CommitAllAppends([c[0]], es, clock);
    EventsOfBlocks(es, 1, clock);
    assert d[1..] == Blocks(es, 1, clock);
    EventsFromSeed(d);
  }

  lemma RebuiltIntact(c: Hash, limits: Limits, d: Hash, encode: Encoder)
    requires Valid(c) && Intact(c) && IsRoot(c) && c != [] && AllWellFormed(Scan(c, limits, false))
    requires Events(d) == [c[0].event] + BatchEvents(Scan(c, limits, false), encode)
    ensures Intact(d) && IsRoot(d)
  {
    var es := BatchEvents(Scan(c, limits, false), encode);
    SeedFirst(c);
    ScanOk(c, 0, limits);
    BatchesIntact(c, Scan(c, limits, false), encode);
    forall k | 0 <= k < |d|
      ensures !d[k].event.ExecuteTransform? && (HasData(d[k].event) ==> SliceIntact(d[k].event.stream.newData.value))
    {
      assert d[k].event == Events(d)[k] == if k == 0 then c[0].event else es[k - 1];
    }
  }

  /** A rebuilt chain is again a valid root chain with intact slices that means the same,
      and compacting it again with the same limits finds nothing to do. */
  lemma RebuiltChain(c: Hash, d: Hash, limits: Limits, encode: Encoder, clock: Clock)
    requires Valid(c) && Intact(c) && IsRoot(c) && c != []
    requires AllWellFormed(Scan(c, limits, false))
    requires CommitAll([c[0]], BatchEvents(Scan(c, limits, false), encode), clock) == Ok(d)
    ensures Valid(d) && Intact(d) && IsRoot(d) && d != []
    ensures Meaning(Events(d)) == Meaning(Events(c))
    ensures SizesAdd(encode) ==> |Scan(d, limits, false)| + 1 == |d|
  {
    Rebuilt(c, limits, false, d, encode, clock);
    RebuiltIntact(c, limits, d, encode);
    CompactionPreservesMeaning(c, limits, encode);
    if SizesAdd(encode) {
      SecondScanFindsNothing(c, d, limits, encode);
    }
  }

  /******* The service *******/

  method AppendBatch(batches: seq<Batch>, hash: Option<Hash>, info: BatchInfo)
    returns (appended: bool, newBatches: seq<Batch>)
    requires info.slices != [] ==> hash.Some? && hash.value != []
    ensures appended <==> info.slices != []
    ensures newBatches == Flushed(ScanState(batches, info, 0, 0, hash))
  {
    if |info.slices| == 1 {
      newBatches := batches + [SingleBlock(hash.value)];
    } else if |info.slices| > 1 {
      newBatches := batches + [CompactedBatch(info)];
    } else {
      return false, batches;
    }
    appended := true;
  }

  /** Puts one slice into the pending batch, closing that batch first if the slice does not fit. */
  method AddSlice(batches: seq<Batch>, info: BatchInfo, size: int, records: int, currentHash: Option<Hash>,
                  blockHash: Hash, limits: Limits)
    returns (newBatches: seq<Batch>, newInfo: BatchInfo, newSize: int, newRecords: int)
    requires HashKnown(ScanState(batches, info, size, records, currentHash))
    requires blockHash != [] && HasData(blockHash[|blockHash| - 1].event)
    ensures ScanState(newBatches, newInfo, newSize, newRecords, Some(blockHash)) ==
      VisitSlice(ScanState(batches, info, size, records, currentHash), blockHash, limits)
  {
    var stream := blockHash[|blockHash| - 1].event.stream;
    var slice := stream.newData.value;
    newBatches, newInfo := batches, info;
    if newInfo.slices == [] {
      newInfo := newInfo.(upper := newInfo.upper.(endOffset := slice.end));
    }
    if size + slice.size > limits.maxSize || records + NumRecords(slice) > limits.maxRecords {
      var appended;
      appended, newBatches := AppendBatch(batches, currentHash, newInfo);
      if appended {
        newInfo := EMPTY_INFO.(upper := EMPTY_INFO.upper.(endOffset := slice.end));
      }
      newInfo := newInfo.(slices := [slice.physicalHash]);
      newSize, newRecords := slice.size, NumRecords(slice);
    } else {
      newInfo := newInfo.(slices := newInfo.slices + [slice.physicalHash]);
      newSize, newRecords := size + slice.size, records + NumRecords(slice);
    }
    newInfo := newInfo.(lower := LowerBound(stream.prevOffset, stream.prevCheckpoint, slice.start));
  }

  /** One backward pass over the chain that groups the data slices into batches. */
  method GatherChainInfo(chain: Hash, limits: Limits, keepMetadataOnly: bool)
    returns (oldHead: Hash, oldNumBlocks: nat, batches: seq<Batch>)
    requires Valid(chain) && chain != []
    ensures oldHead == [chain[0]]
    ensures oldNumBlocks == |chain|
    ensures batches == Scan(chain, limits, keepMetadataOnly)
  {
    SeedFirst(chain);
    oldNumBlocks, oldHead, batches := 0, [], [];
    var currentHash: Option<Hash> := None;
    var info := EMPTY_INFO;
    var batchSize, batchRecords := 0, 0;
    var i := |chain|;
    while i > 0
      invariant 0 <= i <= |chain|
      invariant oldNumBlocks == |chain| - i
      invariant i == 0 ==> oldHead == [chain[0]]
      invariant ScanState(batches, info, batchSize, batchRecords, currentHash) ==
        ScanFrom(chain, i, limits, keepMetadataOnly)
    {
      i := i - 1;
      var blockHash := chain[..i + 1];
      var event := chain[i].event;
      oldNumBlocks := oldNumBlocks + 1;
      if event.AddData? {
        if !keepMetadataOnly && event.stream.newData.Some? {
          batches, info, batchSize, batchRecords :=
            AddSlice(batches, info, batchSize, batchRecords, currentHash, blockHash, limits);
          currentHash := Some(blockHash);
        }
        info := info.(upper := info.upper.(
          newCheckpoint := info.upper.newCheckpoint.OrElse(event.stream.newCheckpoint),
          newSourceState := info.upper.newSourceState.OrElse(event.sourceState),
          newWatermark := info.upper.newWatermark.OrElse(event.stream.newWatermark)));
      } else if event.Seed? {
        oldHead := blockHash;
      } else if !event.ExecuteTransform? {
        var appended;
        appended, batches := AppendBatch(batches, currentHash, info);
        batches := batches + [SingleBlock(blockHash)];
        if appended {
          info := EMPTY_INFO;
        }
      }
    }
  }

  lemma NextBatchEvent(batches: seq<Batch>, i: nat, encode: Encoder)
    requires AllWellFormed(batches) && i < |batches|
    ensures BatchEvents(batches[..i + 1], encode) ==
      [BatchEvent(batches[i], encode)] + BatchEvents(batches[..i], encode)
    ensures BatchEvents(batches[..i + 1], encode)[1..] == BatchEvents(batches[..i], encode)
  {
    assert batches[..i + 1][..i] == batches[..i];
  }

  /** Commits the batches, oldest first, on top of the seed. */
  method CommitNewBlocks(oldHead: Hash, batches: seq<Batch>, encode: Encoder, clock: Clock)
    returns (r: Result<Hash, AppendError>, newNumBlocks: nat)
    requires AllWellFormed(batches)
    ensures r == CommitAll(oldHead, BatchEvents(batches, encode), clock)
    ensures r.Ok? ==> newNumBlocks == |batches| + 1
  {
    var head := oldHead;
    newNumBlocks := 1;
    var i := |batches|;
    assert batches[..i] == batches;
    while i > 0
      invariant 0 <= i <= |batches|
      invariant newNumBlocks == 1 + |batches| - i
      invariant CommitAll(head, BatchEvents(batches[..i], encode), clock) ==
        CommitAll(oldHead, BatchEvents(batches, encode), clock)
    {
      i := i - 1;
      NextBatchEvent(batches, i, encode);
      var committed := Append(head, Block(clock(|head|), BatchEvent(batches[i], encode)));
      if committed.Err? {
        return committed, newNumBlocks;
      }
      head := committed.value;
      newNumBlocks := newNumBlocks + 1;
    }
    r := Ok(head);
  }

  lemma {:induction false} KeptEverything(es: seq<Event>)
    requires |MetadataEvents(es)| == |es|
    ensures MetadataEvents(es) == es
  {
    MetadataOnlyLength(es);
    if es != [] {
      MetadataOnlyLength(es[1..]);
      KeptEverything(es[1..]);
    }
  }

  /** Everything the metadata-only mode promises about the scan. */
  lemma MetadataOnlyScan(c: Hash, limits: Limits, encode: Encoder, clock: Clock)
    requires Valid(c) && c != []
    ensures var bs := Scan(c, limits, true);
      && AllWellFormed(bs) && |bs| + 1 <= |c|
      && (CommitAll([c[0]], BatchEvents(bs, encode), clock).Ok? <==> InTime(c[0].systemTime, 1, |bs|, clock))
      && BatchEvents(bs, encode) == MetadataEvents(Events(c))
      && (|bs| + 1 == |c| ==> Events(c) == [c[0].event] + MetadataEvents(Events(c)))
  {
    SeedFirst(c);
    MetadataOnlyRecommit(c, limits, encode, clock);
    ScanMetadataOnly(c, 0, limits, encode);
    assert c[0..] == c;
    var rest := Events(c[1..]);
    EventsFromSeed(c);
    if |MetadataEvents(rest)| == |rest| {
      KeptEverything(rest);
    }
  }

  predicate IsKind(c: Hash, kind: DatasetKind) {
    c != [] && c[0].event.Seed? && c[0].event.kind == kind
  }

  /** The batches can be committed, and none of them is a query. */
  lemma BatchesWellFormed(c: Hash, limits: Limits, encode: Encoder)
    requires Valid(c) && c != []
    ensures var bs := Scan(c, limits, false);
      AllWellFormed(bs) && forall k | 0 <= k < |bs| :: !BatchEvents(bs, encode)[k].ExecuteTransform?
  {
    var bs := Scan(c, limits, false);
    ScanCommittable(c, 0, limits, encode);
    EventsCommittable(c, bs, encode);
    forall k | 0 <= k < |bs|
      ensures !BatchEvents(bs, encode)[k].ExecuteTransform?
    {
      assert Committable(BatchEvents(bs, encode)[k], c);
    }
  }

  lemma RewrittenIsRoot(c: Hash, d: Hash, limits: Limits, encode: Encoder)
    requires Valid(c) && c != [] && Rewritten(c, d, limits, encode)
    ensures IsRoot(d)
  {
    SeedFirst(c);
    BatchesWellFormed(c, limits, encode);
    forall k | 0 <= k < |d|
      ensures !d[k].event.ExecuteTransform?
    {
      assert d[k].event == Events(d)[k];
    }
  }

  lemma {:induction false} RootIffNoQuery(c: Hash)
    ensures IsRoot(c) <==> LastOf(c, ExecuteTransformKind).None?
  {
    if IsRoot(c) {
      if LastOf(c, ExecuteTransformKind).Some? {
        var j := LastOfWitness(c, ExecuteTransformKind);
      }
    } else {
      var k :| 0 <= k < |c| && c[k].event.ExecuteTransform?;
      LastOfMember(c, ExecuteTransformKind, k);
    }
  }

  /** A rewritten chain holds no query, so that it means the same only if there was none. */
  lemma QueriesDropped(c: Hash, d: Hash, limits: Limits, encode: Encoder)
    requires Valid(c) && c != [] && Rewritten(c, d, limits, encode)
    ensures IsRoot(d)
    ensures Meaning(Events(d)) == Meaning(Events(c)) ==> IsRoot(c)
  {
    RewrittenIsRoot(c, d, limits, encode);
    if Meaning(Events(d)) == Meaning(Events(c)) {
      MetadataKept(c, d, ExecuteTransformKind);
      RootIffNoQuery(c);
      RootIffNoQuery(d);
    }
  }

  lemma NothingToDoFits(c: Hash, limits: Limits, encode: Encoder)
    requires Valid(c) && Intact(c) && IsRoot(c) && c != [] && Rewritten(c, c, limits, encode)
    ensures CheckpointsFit(c, limits)
  {
    var es := BatchEvents(Scan(c, limits, false), encode);
    SeedFirst(c);
    EventsFromSeed(c);
    assert ([c[0].event] + es)[1..] == es && ([c[0].event] + Events(c[1..]))[1..] == Events(c[1..]);
    UnchangedFits(c, limits, encode);
  }

  /** Everything the other mode promises about the scan. */
  lemma FullScan(c: Hash, limits: Limits, encode: Encoder, clock: Clock)
    requires Valid(c) && Intact(c) && c != []
    ensures var bs := Scan(c, limits, false);
      && AllWellFormed(bs) && |bs| + 1 <= |c|
      && (|bs| + 1 == |c| ==> IsRoot(c) && Rewritten(c, c, limits, encode) && CheckpointsFit(c, limits))
      && (IsRoot(c) ==> (|bs| + 1 == |c| <==> NothingToMerge(c, limits)))
      && (IsRoot(c) ==>
            (CommitAll([c[0]], BatchEvents(bs, encode), clock).Ok? <==>
               CheckpointsFit(c, limits) && InTime(c[0].systemTime, 1, |bs|, clock)))
  {
    NeverLonger(c, limits);
    BatchesWellFormed(c, limits, encode);
    if IsRoot(c) {
      LengthTestExact(c, limits, encode);
      NothingToMergeIff(c, limits, encode);
      RecommitAcceptedIff(c, limits, encode, clock);
      if |Scan(c, limits, false)| + 1 == |c| {
        NothingToDoFits(c, limits, encode);
      }
    }
  }

  /** The limits are the numbers that the caller gives, and else 300 MB and 10000 records. */
  predicate Given(options: CompactionOptions, limits: Limits) {
    && limits.maxSize == (if options.maxSize.Some? then options.maxSize.value else 300_000_000)
    && limits.maxRecords == (if options.maxRecords.Some? then options.maxRecords.value else 10_000)
  }

  lemma GivenLimits(options: CompactionOptions)
    ensures forall limits | Given(options, limits) :: limits == LimitsOf(options)
  {
  }

  /** Every slice of the new chain is an old one, or within both limits. */
  ghost predicate SlicesWithin(c: Hash, d: Hash, limits: Limits, encode: Encoder) {
    forall k | 0 < k < |d| && HasData(d[k].event) :: OldOrWithin(c, d[k].event, limits, encode)
  }

  lemma RebuiltWithin(c: Hash, d: Hash, limits: Limits, encode: Encoder)
    requires Valid(c) && Intact(c) && IsRoot(c) && c != [] && Rewritten(c, d, limits, encode)
    ensures SlicesWithin(c, d, limits, encode)
    ensures |d| == 1 + OpenCount(c, 1, limits)
  {
    var es := BatchEvents(Scan(c, limits, false), encode);
    ScanWithin(c, limits, encode);
    CountAtSeed(c, limits, encode);
    forall k | 0 < k < |d| && HasData(d[k].event)
      ensures OldOrWithin(c, d[k].event, limits, encode)
    {
      assert d[k].event == Events(d)[k] == es[k - 1];
    }
  }

  /** And about what was committed. */
  lemma FullResult(c: Hash, d: Hash, limits: Limits, encode: Encoder, clock: Clock)
    requires Valid(c) && Intact(c) && c != [] && AllWellFormed(Scan(c, limits, false))
    requires CommitAll([c[0]], BatchEvents(Scan(c, limits, false), encode), clock) == Ok(d)
    ensures IsRoot(d) && (Meaning(Events(d)) == Meaning(Events(c)) <==> IsRoot(c))
    ensures IsRoot(c) ==>
      && Intact(d) && HeadNotes(d) == NotesAfter(c, limits)
      && (SizesAdd(encode) ==> |Scan(d, limits, false)| + 1 == |d|)
      && SlicesWithin(c, d, limits, encode)
      && |d| == 1 + OpenCount(c, 1, limits)
  {
    Rebuilt(c, limits, false, d, encode, clock);
    QueriesDropped(c, d, limits, encode);
    if IsRoot(c) {
      RebuiltWithin(c, d, limits, encode);
      RebuiltChain(c, d, limits, encode, clock);
      HeadAfter(c, d, limits, encode);
    }
  }

  /** The batches are to be committed, and the clock goes back meanwhile. */
  predicate Late(chain: Hash, options: CompactionOptions, clock: Clock)
    requires chain != []
  {
    var n := |Scan(chain, LimitsOf(options), options.keepMetadataOnly)|;
    n + 1 < |chain| && !InTime(chain[0].systemTime, 1, n, clock)
  }

  /** Compacts one dataset: returns the outcome and the chain the dataset has afterwards. */
  method CompactDataset(chain: Hash, options: CompactionOptions, encode: Encoder, clock: Clock)
    returns (r: Result<CompactionResult, CompactionError>, head: Hash)
    requires Valid(chain) && chain != [] && (!options.keepMetadataOnly ==> Intact(chain))
    // Only root datasets can be compacted, unless just the metadata is kept.
    ensures r == Err(InvalidDatasetKind) <==> !options.keepMetadataOnly && IsKind(chain, Derivative)
    // The seed stays; unless the run succeeds, so does everything else.
    ensures head != [] && head[0] == chain[0]
    ensures !(r.Ok? && r.value.Success?) ==> head == chain
    // The rewritten chain is valid, shorter, and reported as such.
    ensures r.Ok? && r.value.Success? ==>
      && Valid(head) && |head| < |chain|
      && r.value == Success([chain[0]], head, |chain|, |head|)
    // It means the same, unless it held a query: those are dropped.
    ensures r.Ok? && !options.keepMetadataOnly ==>
      && IsRoot(head)
      && (Meaning(Events(head)) == Meaning(Events(chain)) <==> IsRoot(chain))
    // Compacting it again finds nothing to do.
    ensures r.Ok? && !options.keepMetadataOnly && IsRoot(chain) ==>
      && Intact(head)
      && (SizesAdd(encode) && r.value.Success? ==> |Scan(head, LimitsOf(options), false)| + 1 == |head|)
    // Nothing to do means that rewriting would reproduce the chain.
    ensures r == Ok(NothingToDo) && !options.keepMetadataOnly ==>
      IsRoot(chain) && Rewritten(chain, chain, LimitsOf(options), encode)
    // With the limits given, there is nothing to do exactly if no event is empty and no two
    // neighbouring slices fit; otherwise every group leaves one block, and merged slices fit.
    ensures !options.keepMetadataOnly && !IsKind(chain, Derivative) && IsRoot(chain) ==>
      forall limits | Given(options, limits) :: r == Ok(NothingToDo) <==> NothingToMerge(chain, limits)
    ensures r.Ok? && r.value.Success? && !options.keepMetadataOnly && IsRoot(chain) ==>
      forall limits | Given(options, limits) ::
        |head| == 1 + OpenCount(chain, 1, limits) && SlicesWithin(chain, head, limits, encode)
    // At its head the chain shows what the group of the newest slice was committed with.
    ensures r.Ok? && !options.keepMetadataOnly && r.value.Success? && IsRoot(chain) ==>
      HeadNotes(head) == NotesAfter(chain, LimitsOf(options))
    // Compaction is rejected half-way exactly if a group would not continue the checkpoint below,
    // or the clock goes back.
    ensures !options.keepMetadataOnly && IsRoot(chain) ==>
      (r.Err? && r.error.Internal? <==>
         !IsKind(chain, Derivative) && (!CheckpointsFit(chain, LimitsOf(options)) || Late(chain, options, clock)))
    ensures options.keepMetadataOnly ==> (r.Err? <==> Late(chain, options, clock))
    ensures r.Ok? && options.keepMetadataOnly ==>
      Events(head) == [chain[0].event] + MetadataEvents(Events(chain))
  {
    SeedFirst(chain);
    var limits := LimitsOf(options);
    GivenLimits(options);
    head := chain;
    if !options.keepMetadataOnly && chain[0].event.kind != Root {
      return Err(InvalidDatasetKind), head;
    }
    var oldHead, oldNumBlocks, batches := GatherChainInfo(chain, limits, options.keepMetadataOnly);
    if options.keepMetadataOnly {
      MetadataOnlyScan(chain, limits, encode, clock);
    } else {
      FullScan(chain, limits, encode, clock);
    }
    if |batches| + 1 == oldNumBlocks {
      return Ok(NothingToDo), head;
    }
    var committed, newNumBlocks := CommitNewBlocks(oldHead, batches, encode, clock);
    if committed.Err? {
      return Err(Internal(committed.error)), head;
    }
    head := committed.value;
    Rebuilt(chain, limits, options.keepMetadataOnly, head, encode, clock);
    if !options.keepMetadataOnly {
      FullResult(chain, head, limits, encode, clock);
    }
    r := Ok(Success(oldHead, head, oldNumBlocks, newNumBlocks));
  }
}
