/** Concrete chains on which compaction changes what the head shows, and on which it is rejected. */
module CompactionExamples {
  import opened Wrappers
  import opened Odf
  import opened CompactionModel
  import opened Compaction
  import opened CompactionHead
  import opened CompactionGroups
  import opened CompactionCheckpoints

  const SEED := Block(0, Seed("d", Root))
  const SCHEMA := Block(0, SetDataSchema([]))
  const SLICE := PrepareSlice(0, 0, File([Row(0, 1, "x")], 0, 1))

  function DataBlock(prevCheckpoint: Option<nat>): Block {
    Block(0, AddData(DataStream(prevCheckpoint, None, Some(SLICE), None, Some(1)), None))
  }

  /** An event without data that follows a chain whose last offset is the given one. */
  function EmptyBlock(
      prevOffset: Option<nat>, watermark: Time, checkpoint: Option<Checkpoint>, state: Option<SourceState>): Block {
    Block(0, AddData(DataStream(None, prevOffset, None, checkpoint, Some(watermark)), state))
  }

  /** A root chain that has a schema and no data yet. */
  const START: Hash := [SEED] + [SCHEMA]

  lemma StartIsValid()
    ensures Valid(START) && LastOf(START, SchemaKind).Some?
    ensures LastOf(START, AddDataKind) == None && LastStream(START) == None
  {
    SingleBlockChain(SEED, AddDataKind);
    SingleBlockChain(SEED, SchemaKind);
    ValidIffAppended([], SEED);
    assert [] + [SEED] == [SEED];
    ValidIffAppended([SEED], SCHEMA);
    LastAppended([SEED], SCHEMA, AddDataKind);
    LastAppended([SEED], SCHEMA, SchemaKind);
  }

  /** An event without data after the only slice, with the given watermark and source state. */
  function Noted(watermark: Time, state: Option<SourceState>): Hash {
    START + [DataBlock(None)] + [EmptyBlock(Some(0), watermark, None, state)]
  }

  lemma NotedIsValid(watermark: Time, state: Option<SourceState>)
    requires watermark > 1 || (watermark == 1 && state.Some?)
    ensures Valid(Noted(watermark, state)) && HeadNotes(Noted(watermark, state)) == Notes(state, Some(watermark), None)
  {
    StartIsValid();
    var c, b := START + [DataBlock(None)], EmptyBlock(Some(0), watermark, None, state);
    ValidIffAppended(START, DataBlock(None));
    LastAppended(START, DataBlock(None), AddDataKind);
    LastAppended(START, DataBlock(None), SchemaKind);
    ValidIffAppended(c, b);
    LastAppended(c, b, AddDataKind);
  }

  lemma NotedBlocks(watermark: Time, state: Option<SourceState>)
    ensures var c := Noted(watermark, state);
      && Intact(c) && IsRoot(c) && |c| == 4
      && c[0] == SEED && c[1] == SCHEMA && c[2] == DataBlock(None)
      && NewestData(c, |c|) == Some(2) && QuietSince(c, 2) == 2
  {
    var c := Noted(watermark, state);
    assert c[3] == EmptyBlock(Some(0), watermark, None, state);
    assert NewestData(c, 3) == Some(2);
  }

  /** Compacting it loses the watermark and the source state, whatever the limits. */
  lemma NotesLost(
      watermark: Time, state: Option<SourceState>, limits: Limits, encode: Encoder, d: Hash)
    requires watermark > 1 || (watermark == 1 && state.Some?)
    requires Rewritten(Noted(watermark, state), d, limits, encode)
    ensures Valid(Noted(watermark, state)) && HeadNotes(Noted(watermark, state)) == Notes(state, Some(watermark), None)
    ensures HeadNotes(d) == Notes(None, Some(1), None)
  {
    NotedIsValid(watermark, state);
    NotedBlocks(watermark, state);
    HeadAfter(Noted(watermark, state), d, limits, encode);
  }

  const STATEFUL_SLICE := Block(0, AddData(SliceBlock(0, None, None).event.stream, Some("s")))
  const STATELESS_SLICE := SliceBlock(1, None, None)

  /** The second of two slices drops the source state. */
  const DROPPED_STATE: Hash := START + [STATEFUL_SLICE] + [STATELESS_SLICE]

  lemma DroppedIsValid()
    ensures Valid(DROPPED_STATE) && HeadNotes(DROPPED_STATE).sourceState == None
  {
    StartIsValid();
    var c := START + [STATEFUL_SLICE];
    ValidIffAppended(START, STATEFUL_SLICE);
    LastAppended(START, STATEFUL_SLICE, AddDataKind);
    LastAppended(START, STATEFUL_SLICE, SchemaKind);
    ValidIffAppended(c, STATELESS_SLICE);
    LastAppended(c, STATELESS_SLICE, AddDataKind);
  }

  lemma DroppedBlocks()
    ensures |DROPPED_STATE| == 4 && DROPPED_STATE[0] == SEED && DROPPED_STATE[1] == SCHEMA
    ensures DROPPED_STATE[2] == STATEFUL_SLICE && DROPPED_STATE[3] == STATELESS_SLICE
    ensures Intact(DROPPED_STATE) && IsRoot(DROPPED_STATE)
  {
  }

  lemma DroppedGroup(limits: Limits)
    requires limits.maxSize >= 2 && limits.maxRecords >= 2
    ensures NotesAfter(DROPPED_STATE, limits).sourceState == Some("s")
  {
    var c := DROPPED_STATE;
    DroppedBlocks();
    assert NewestData(c, 4) == Some(3) && QuietSince(c, 3) == 3 && QuietSince(c, 2) == 2;
    assert Counters(c, 4, limits) == (0, 0) && Counters(c, 3, limits) == (1, 1);
    assert MergesDown(c, 3, limits) && !MergesDown(c, 2, limits) && GroupBottom(c, 3, limits) == 2;
    assert NewestNotes(c, 2, 3).sourceState == Some("s");
    assert NewestNotes(c, 2, 4).sourceState == Some("s");
  }

  /** Compacting it brings the source state back that was dropped. */
  lemma StateRevived(limits: Limits, encode: Encoder, d: Hash)
    requires limits.maxSize >= 2 && limits.maxRecords >= 2 && Rewritten(DROPPED_STATE, d, limits, encode)
    ensures Valid(DROPPED_STATE) && HeadNotes(DROPPED_STATE).sourceState == None
    ensures HeadNotes(d).sourceState == Some("s")
  {
    DroppedIsValid();
    DroppedBlocks();
    DroppedGroup(limits);
    HeadAfter(DROPPED_STATE, d, limits, encode);
  }

  /******* A query on a chain of root kind *******/

  const DEFINED := Block(0, SetTransform("t", [TransformInput("i", "i")]))
  const QUERY := Block(0, ExecuteTransform([QueryInput("i", None, None, None, None)],
    DataStream(None, None, None, None, Some(1))))

  /** Append validation does not ask for the kind of the dataset. */
  const QUERIED: Hash := START + [DEFINED] + [QUERY]

  lemma QueriedIsValid()
    ensures Valid(QUERIED)
  {
    StartIsValid();
    ValidIffAppended(START, DEFINED);
    SingleBlockChain(SEED, ExecuteTransformKind);
    LastAppended([SEED], SCHEMA, ExecuteTransformKind);
    LastAppended(START, DEFINED, ExecuteTransformKind);
    assert VisibleTransform(START + [DEFINED], false, false) == Some(DEFINED.event);
    ValidIffAppended(START + [DEFINED], QUERY);
  }

  /** Compacting it drops the query. */
  lemma QueryDropped(limits: Limits, encode: Encoder, d: Hash)
    requires Rewritten(QUERIED, d, limits, encode)
    ensures Valid(QUERIED) && IsKind(QUERIED, Root) && IsRoot(d)
    ensures Meaning(Events(d)) != Meaning(Events(QUERIED))
  {
    QueriedIsValid();
    assert QUERIED[3].event.ExecuteTransform?;
    QueriesDropped(QUERIED, d, limits, encode);
  }

  /******* Rejections *******/

  /** A checkpoint that was written without data, before the only slice. */
  const CHECKPOINTED: Hash := START + [EmptyBlock(None, 0, Some(Checkpoint(7, 1)), None)] + [DataBlock(Some(7))]

  lemma CheckpointedIsValid()
    ensures Valid(CHECKPOINTED)
  {
    StartIsValid();
    var b := EmptyBlock(None, 0, Some(Checkpoint(7, 1)), None);
    ValidIffAppended(START, b);
    LastAppended(START, b, AddDataKind);
    LastAppended(START, b, SchemaKind);
    ValidIffAppended(START + [b], DataBlock(Some(7)));
  }

  lemma CheckpointedIsIntact()
    ensures Intact(CHECKPOINTED) && IsRoot(CHECKPOINTED) && |CHECKPOINTED| == 4
    ensures CHECKPOINTED[0] == SEED && CHECKPOINTED[1] == SCHEMA && CHECKPOINTED[3] == DataBlock(Some(7))
    ensures CHECKPOINTED[2] == EmptyBlock(None, 0, Some(Checkpoint(7, 1)), None)
  {
  }

  /** Compacting it is rejected, whatever the limits: the event that held the checkpoint is
      dropped, and the slice after it no longer links to it. */
  lemma CheckpointRejected(limits: Limits, encode: Encoder, clock: Clock)
    ensures var bs := Scan(CHECKPOINTED, limits, false);
      AllWellFormed(bs) && CommitAll([SEED], BatchEvents(bs, encode), clock).Err?
  {
    var c := CHECKPOINTED;
    CheckpointedIsValid();
    CheckpointedIsIntact();
    RecommitAcceptedIff(c, limits, encode, clock);
    assert NewestData(c, 3) == None && !LinkedAt(c, 3, limits);
  }

  /** A slice with one record at the given offset. */
  function Slice(offset: nat): DataSlice {
    PrepareSlice(offset, offset, File([Row(offset, 1, "x")], 0, 1))
  }

  function SliceBlock(offset: nat, prevCheckpoint: Option<nat>, checkpoint: Option<Checkpoint>): Block {
    var prevOffset := if offset == 0 then None else Some(offset - 1);
    Block(0, AddData(DataStream(prevCheckpoint, prevOffset, Some(Slice(offset)), checkpoint, Some(1)), None))
  }

  const FIRST := SliceBlock(0, None, Some(Checkpoint(7, 1)))
  const SECOND := SliceBlock(1, Some(7), None)
  const INFO := Block(0, SetInfo("i"))
  const THIRD := SliceBlock(2, None, None)

  /** A checkpoint that the second of three slices clears; all events have data. */
  const CLEARED: Hash := START + [FIRST] + [SECOND] + [INFO] + [THIRD]

  lemma ClearedFront()
    ensures var c := START + [FIRST] + [SECOND];
      && Valid(c) && LastOf(c, AddDataKind) == Some(SECOND.event) && LastOf(c, SchemaKind).Some?
      && LastStream(c) == Some(SECOND.event.stream)
  {
    StartIsValid();
    ValidIffAppended(START, FIRST);
    LastAppended(START, FIRST, AddDataKind);
    LastAppended(START, FIRST, SchemaKind);
    ValidIffAppended(START + [FIRST], SECOND);
    LastAppended(START + [FIRST], SECOND, AddDataKind);
    LastAppended(START + [FIRST], SECOND, SchemaKind);
  }

  lemma ClearedIsValid()
    ensures Valid(CLEARED)
  {
    var c := START + [FIRST] + [SECOND];
    ClearedFront();
    ValidIffAppended(c, INFO);
    LastAppended(c, INFO, AddDataKind);
    LastAppended(c, INFO, SchemaKind);
    ValidIffAppended(c + [INFO], THIRD);
  }

  lemma ClearedBlocks()
    ensures |CLEARED| == 6 && CLEARED[0] == SEED && CLEARED[1] == SCHEMA && CLEARED[2] == FIRST
    ensures CLEARED[3] == SECOND && CLEARED[4] == INFO && CLEARED[5] == THIRD
    ensures Intact(CLEARED) && IsRoot(CLEARED)
    ensures forall k | 0 <= k < |CLEARED| && CLEARED[k].event.AddData? :: HasData(CLEARED[k].event)
  {
  }

  /** The first two slices are merged, and committed with the checkpoint that the second cleared. */
  lemma ClearedGroup(limits: Limits)
    requires limits.maxSize >= 3 && limits.maxRecords >= 3
    ensures |CLEARED| == 6 && HasData(CLEARED[3].event)
    ensures GroupCheckpoint(CLEARED, 3, limits) == Some(7)
  {
    var c := CLEARED;
    ClearedBlocks();
    assert Counters(c, 6, limits) == (0, 0);
    assert Counters(c, 5, limits) == (1, 1);
    assert Counters(c, 4, limits) == (1, 1);
    assert Counters(c, 3, limits) == (2, 2);
    assert QuietSince(c, 3) == 3 && MergesDown(c, 3, limits);
    assert QuietSince(c, 2) == 2 && !MergesDown(c, 2, limits) && GroupBottom(c, 3, limits) == 2;
    assert NextData(c, 4) == NextData(c, 5) == Some(5) && QuietSince(c, 5) == 5;
    assert NewestNotes(c, 2, 3).checkpoint == Some(Checkpoint(7, 1));
    assert NewestNotes(c, 2, 4).checkpoint == Some(Checkpoint(7, 1));
    assert NewestNotes(c, 2, 5).checkpoint == Some(Checkpoint(7, 1));
  }

  lemma ClearedThird(limits: Limits)
    ensures |CLEARED| == 6 && NewestData(CLEARED, 5) == Some(3) && !MergesDown(CLEARED, 5, limits)
  {
    var c := CLEARED;
    ClearedBlocks();
    assert NewestData(c, 5) == NewestData(c, 4);
    assert QuietSince(c, 5) == 5;
  }

  lemma ClearedBreaks(limits: Limits)
    requires limits.maxSize >= 3 && limits.maxRecords >= 3
    ensures !CheckpointsFit(CLEARED, limits)
  {
    ClearedGroup(limits);
    ClearedThird(limits);
    assert CLEARED[5] == THIRD;
    assert !LinkedAt(CLEARED, 5, limits);
  }

  /** Compacting it is rejected although no event is dropped: the third slice continues from no
      checkpoint, and the merged slice below it has taken one over. */
  lemma ClearedCheckpointRejected(limits: Limits, encode: Encoder, clock: Clock)
    requires limits.maxSize >= 3 && limits.maxRecords >= 3
    ensures var bs := Scan(CLEARED, limits, false);
      AllWellFormed(bs) && CommitAll([SEED], BatchEvents(bs, encode), clock).Err?
  {
    ClearedIsValid();
    ClearedBlocks();
    ClearedBreaks(limits);
    RecommitAcceptedIff(CLEARED, limits, encode, clock);
  }
}
