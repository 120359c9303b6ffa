/**
 The data writer of root datasets: it keeps a projection of the metadata chain
 between writes, so that it need not scan the chain again, and commits every
 event with a compare-and-swap on the head of the dataset.
 */
module WriterModel {
  import opened Wrappers
  import opened Odf
  import opened CompactionModel
  import opened TransformModel

  type RawData = string

  /** The projection of the chain that a writer works from. */
  datatype Meta = Meta(
    head: Hash,
    schema: Option<Schema>,
    vocab: Vocab,
    dataSlices: seq<File>,
    prevOffset: Option<nat>,
    prevCheckpoint: Option<nat>,
    prevWatermark: Option<Time>,
    prevSourceState: Option<SourceState>)

  /** A row that came out of the merge step, before system columns are added. */
  datatype NewRow = NewRow(eventTime: Option<Time>, payload: string)

  datatype Merged = Merged(rows: seq<NewRow>, schema: Schema)

  datatype StageError = BadInputSchema | MergeFailed | IncompatibleSchema | EmptyCommit

  datatype CommitError = InvalidBlock(error: AppendError) | RefCasFailed(expected: Hash, actual: Hash)

  datatype WriteError = StageFailed(stage: StageError) | CommitFailed(commit: CommitError)

  /** Validation, normalization and merge of new data against the files written before. */
  type MergeStep = (seq<File>, RawData) -> Result<Merged, StageError>

  /** How the file writer lays out the rows. */
  type RowEncoder = seq<Row> -> Encoding

  datatype Env = Env(merge: MergeStep, encode: RowEncoder)

  datatype WriteOpts = WriteOpts(
    systemTime: Time,
    sourceEventTime: Time,
    newWatermark: Option<Time>,
    newSourceState: Option<SourceState>)

  datatype AddDataParams = AddDataParams(
    prevCheckpoint: Option<nat>,
    prevOffset: Option<nat>,
    newOffsetInterval: Option<OffsetInterval>,
    newWatermark: Option<Time>,
    newSourceState: Option<SourceState>)

  datatype Staged = Staged(
    systemTime: Time,
    addData: Option<AddDataParams>,
    newSchema: Option<Schema>,
    dataFile: Option<File>)

  datatype WriteResult = WriteResult(oldHead: Hash, newHead: Hash, addDataBlock: Option<Block>)

  /** A writer's state, the head of the dataset and the outcome after one operation. */
  datatype Attempt = Attempt(meta: Meta, head: Hash, result: Result<WriteResult, WriteError>)

  /******* Scanning *******/

  /** Files of all AddData events, newest first. */
  function NewestSlices(c: Hash): seq<File> {
    if c == [] then []
    else
      var e := c[|c| - 1].event;
      var older := NewestSlices(c[..|c| - 1]);
      if e.AddData? && e.stream.newData.Some? then [e.stream.newData.value.physicalHash] + older else older
  }

  /** What a scan of the whole chain yields. */
  function ScanMeta(head: Hash): Meta {
    var prev := LastOf(head, AddDataKind);
    Meta(
      head,
      SchemaOf(head),
      VocabOf(head),
      NewestSlices(head),
      if prev.Some? then LastOffset(prev.value.stream) else None,
      if prev.Some? then CheckpointHash(prev.value.stream.newCheckpoint) else None,
      if prev.Some? then prev.value.stream.newWatermark else None,
      if prev.Some? then prev.value.sourceState else None)
  }

  /** The state kept agrees with a fresh scan; the order of the files may differ. */
  ghost predicate Coherent(m: Meta) {
    && m == ScanMeta(m.head).(dataSlices := m.dataSlices)
    && multiset(m.dataSlices) == multiset(NewestSlices(m.head))
  }

  /******* Staging *******/

  /** Row numbers become offsets, and missing event times the fallback. */
  function WithSystemColumns(rows: seq<NewRow>, fallback: Time, start: nat): (r: seq<Row>)
    ensures |r| == |rows| && Consecutive(r, start)
    ensures forall i | 0 <= i < |r| ::
      r[i].payload == rows[i].payload && Some(r[i].eventTime) == rows[i].eventTime.OrElse(Some(fallback))
  {
    seq(|rows|, i requires 0 <= i < |rows| =>
      Row(start + i, if rows[i].eventTime.Some? then rows[i].eventTime.value else fallback, rows[i].payload))
  }

  function MinOffset(rows: seq<Row>): nat
    requires rows != []
  {
    var last := rows[|rows| - 1].offset;
    if |rows| == 1 then last
    else
      var rest := MinOffset(rows[..|rows| - 1]);
      if rest < last then rest else last
  }

  function MaxOffset(rows: seq<Row>): nat
    requires rows != []
  {
    var last := rows[|rows| - 1].offset;
    if |rows| == 1 then last
    else
      var rest := MaxOffset(rows[..|rows| - 1]);
      if rest < last then last else rest
  }

  function MaxEventTime(rows: seq<Row>): Time
    requires rows != []
  {
    var last := rows[|rows| - 1].eventTime;
    if |rows| == 1 then last
    else
      var rest := MaxEventTime(rows[..|rows| - 1]);
      if rest < last then last else rest
  }

  /** The watermark after the rows, kept from decreasing. */
  function OutputWatermark(rows: seq<Row>, prev: Option<Time>): Option<Time>
    requires rows != []
  {
    var newest := MaxEventTime(rows);
    if prev.None? || prev.value < newest then Some(newest) else prev
  }

  function Reversed(files: seq<File>): seq<File> {
    if files == [] then [] else Reversed(files[1..]) + [files[0]]
  }

  datatype Output = Output(addData: AddDataParams, schema: Option<Schema>, dataFile: Option<File>)

  /** The event parameters and the file for the merged rows. */
  function OutputOf(m: Meta, merged: Merged, opts: WriteOpts, encode: RowEncoder): Output {
    var rows := WithSystemColumns(merged.rows, opts.sourceEventTime, NextOffset(m.prevOffset));
    if rows == [] then
      Output(
        AddDataParams(m.prevCheckpoint, m.prevOffset, None, opts.newWatermark.OrElse(m.prevWatermark),
          opts.newSourceState),
        Some(merged.schema), None)
    else
      Output(
        AddDataParams(
          m.prevCheckpoint, m.prevOffset, Some(OffsetInterval(MinOffset(rows), MaxOffset(rows))),
          opts.newWatermark.OrElse(OutputWatermark(rows, m.prevWatermark)), opts.newSourceState),
        Some(merged.schema), Some(File(rows, encode(rows).tag, encode(rows).size)))
  }

  function StageOutput(m: Meta, data: Option<RawData>, opts: WriteOpts, env: Env): Result<Output, StageError> {
    if data.None? then
      Ok(Output(AddDataParams(m.prevCheckpoint, m.prevOffset, None, m.prevWatermark, opts.newSourceState), None, None))
    else
      var merged := env.merge(Reversed(m.dataSlices), data.value);
      if merged.Err? then Err(merged.error)
      else if m.schema.Some? && !SchemaEquivalent(m.schema.value, merged.value.schema) then Err(IncompatibleSchema)
      else Ok(OutputOf(m, merged.value, opts, env.encode))
  }

  predicate Advances(m: Meta, p: AddDataParams) {
    p.newOffsetInterval.Some? || p.newWatermark != m.prevWatermark || p.newSourceState != m.prevSourceState
  }

  function Stage(m: Meta, data: Option<RawData>, opts: WriteOpts, env: Env): Result<Staged, StageError> {
    var output := StageOutput(m, data, opts, env);
    if output.Err? then Err(output.error)
    else
      var newSchema := if m.schema.None? then output.value.schema else None;
      var addData := if Advances(m, output.value.addData) then Some(output.value.addData) else None;
      if newSchema.Some? || addData.Some? then Ok(Staged(opts.systemTime, addData, newSchema, output.value.dataFile))
      else Err(EmptyCommit)
  }

  /** A watermark without data. */
  function StageWatermark(m: Meta, watermark: Time, opts: WriteOpts): Result<Staged, StageError> {
    if Some(watermark) == m.prevWatermark && opts.newSourceState == m.prevSourceState then Err(EmptyCommit)
    else
      Ok(Staged(
        opts.systemTime,
        Some(AddDataParams(m.prevCheckpoint, m.prevOffset, None, Some(watermark), opts.newSourceState)),
        None, None))
  }

  /******* Committing *******/

  /** A file accompanies exactly the parameters that name an offset interval. */
  predicate WellFormedStaged(s: Staged) {
    && (s.newSchema.Some? || s.addData.Some?)
    && (s.dataFile.Some? <==> s.addData.Some? && s.addData.value.newOffsetInterval.Some?)
  }

  /** Append to the dataset, provided that its head is still the expected one. */
  function CommitEvent(head: Hash, expected: Hash, b: Block): Result<Hash, CommitError> {
    var r := Append(expected, b);
    if r.Err? then Err(InvalidBlock(r.error))
    else if head != expected then Err(RefCasFailed(expected, head))
    else Ok(r.value)
  }

  function PrepareAddData(p: AddDataParams, file: Option<File>): Event
    requires file.Some? <==> p.newOffsetInterval.Some?
  {
    var data := if p.newOffsetInterval.None? then None
      else Some(PrepareSlice(p.newOffsetInterval.value.start, p.newOffsetInterval.value.end, file.value));
    AddData(DataStream(p.prevCheckpoint, p.prevOffset, data, None, p.newWatermark), p.newSourceState)
  }

  /** The state for the next write after an AddData event was committed. */
  function NoteAddData(m: Meta, head: Hash, e: Event): Meta
    requires e.AddData?
  {
    var d := e.stream.newData;
    m.(
      head := head,
      prevOffset := if d.Some? then Some(d.value.end) else m.prevOffset,
      dataSlices := if d.Some? then m.dataSlices + [d.value.physicalHash] else m.dataSlices,
      prevCheckpoint := CheckpointHash(e.stream.newCheckpoint),
      prevWatermark := e.stream.newWatermark,
      prevSourceState := e.sourceState)
  }

  function CommitData(oldHead: Hash, m: Meta, head: Hash, s: Staged): Attempt
    requires WellFormedStaged(s)
  {
    if s.addData.None? then Attempt(m, head, Ok(WriteResult(oldHead, m.head, None)))
    else
      var block := Block(s.systemTime, PrepareAddData(s.addData.value, s.dataFile));
      var r := CommitEvent(head, m.head, block);
      if r.Err? then Attempt(m, head, Err(CommitFailed(r.error)))
      else Attempt(NoteAddData(m, r.value, block.event), r.value, Ok(WriteResult(oldHead, r.value, Some(block))))
  }

  /** Schema first, then data; the two are not atomic. */
  function CommitStaged(m: Meta, head: Hash, s: Staged): Attempt
    requires WellFormedStaged(s)
  {
    if s.newSchema.None? then CommitData(m.head, m, head, s)
    else
      var r := CommitEvent(head, m.head, Block(s.systemTime, SetDataSchema(s.newSchema.value)));
      if r.Err? then Attempt(m, head, Err(CommitFailed(r.error)))
      else CommitData(m.head, m.(head := r.value, schema := s.newSchema), r.value, s)
  }

  lemma StageWellFormed(m: Meta, data: Option<RawData>, opts: WriteOpts, env: Env)
    ensures var s := Stage(m, data, opts, env); s.Ok? ==> WellFormedStaged(s.value)
  {
  }

  /** Writing is staging followed by committing. */
  function Write(m: Meta, head: Hash, data: Option<RawData>, opts: WriteOpts, env: Env): Attempt {
    StageWellFormed(m, data, opts, env);
    var s := Stage(m, data, opts, env);
    if s.Err? then Attempt(m, head, Err(StageFailed(s.error))) else CommitStaged(m, head, s.value)
  }

  function WriteWatermark(m: Meta, head: Hash, watermark: Time, opts: WriteOpts): Attempt {
    var s := StageWatermark(m, watermark, opts);
    if s.Err? then Attempt(m, head, Err(StageFailed(s.error))) else CommitStaged(m, head, s.value)
  }
}
