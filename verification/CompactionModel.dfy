/**
 Compaction of a dataset: the state of the backward scan that groups data slices
 into batches, one step of that scan, and the events that the batches stand for.
 */
module CompactionModel {
  import opened Wrappers
  import opened Odf
  import Sorting

  datatype UpperBound = UpperBound(
    newSourceState: Option<SourceState>,
    newWatermark: Option<Time>,
    newCheckpoint: Option<Checkpoint>,
    endOffset: nat)

  datatype LowerBound = LowerBound(prevOffset: Option<nat>, prevCheckpoint: Option<nat>, startOffset: nat)

  /** Slices are listed as met by the scan: newest first. */
  datatype BatchInfo = BatchInfo(slices: seq<File>, upper: UpperBound, lower: LowerBound)

  datatype Batch = CompactedBatch(info: BatchInfo) | SingleBlock(hash: Hash)

  datatype Limits = Limits(maxSize: nat, maxRecords: nat)

  /** Everything the scan updates as it goes.  Batches are listed newest first. */
  datatype ScanState = ScanState(
    batches: seq<Batch>,
    info: BatchInfo,
    size: int,
    records: int,
    currentHash: Option<Hash>)

  const EMPTY_INFO := BatchInfo([], UpperBound(None, None, None, 0), LowerBound(None, None, 0))
  const INITIAL_STATE := ScanState([], EMPTY_INFO, 0, 0, None)

  /** A pending slice always comes with the hash of the block it was read from. */
  predicate HashKnown(st: ScanState) {
    st.info.slices != [] ==> st.currentHash.Some? && st.currentHash.value != []
  }

  /** The batch that the pending slices are closed off as. */
  function PendingBatch(st: ScanState): (r: Batch)
    requires HashKnown(st) && st.info.slices != []
    ensures WellFormed(r)
  {
    if |st.info.slices| == 1 then SingleBlock(st.currentHash.value) else CompactedBatch(st.info)
  }

  /** The batches once the pending slices are closed off; with nothing pending, no batch is added. */
  function Flushed(st: ScanState): seq<Batch>
    requires HashKnown(st)
  {
    if st.info.slices == [] then st.batches else st.batches + [PendingBatch(st)]
  }

  predicate Overflows(st: ScanState, d: DataSlice, limits: Limits) {
    st.size + d.size > limits.maxSize || st.records + NumRecords(d) > limits.maxRecords
  }

  /** The pending batch is given up, unless it holds no slice: then its bounds stay. */
  function Reset(info: BatchInfo): BatchInfo {
    if info.slices == [] then info else EMPTY_INFO
  }

  function VisitSlice(st: ScanState, hash: Hash, limits: Limits): (r: ScanState)
    requires HashKnown(st)
    requires hash != [] && HasData(hash[|hash| - 1].event)
    ensures HashKnown(r) && r.info.slices != []
  {
    var s := hash[|hash| - 1].event.stream;
    var d := s.newData.value;
    var lower := LowerBound(s.prevOffset, s.prevCheckpoint, d.start);
    if Overflows(st, d, limits) then
      var kept := Reset(st.info);
      var info := BatchInfo([d.physicalHash], kept.upper.(endOffset := d.end), lower);
      ScanState(Flushed(st), info, d.size, NumRecords(d), Some(hash))
    else
      var endOffset := if st.info.slices == [] then d.end else st.info.upper.endOffset;
      var info := BatchInfo(st.info.slices + [d.physicalHash], st.info.upper.(endOffset := endOffset), lower);
      ScanState(st.batches, info, st.size + d.size, st.records + NumRecords(d), Some(hash))
  }

  /** Source state, watermark and checkpoint are taken from the newest event that has one. */
  function NoteUpper(info: BatchInfo, e: Event): BatchInfo
    requires e.AddData?
  {
    info.(upper := UpperBound(
      info.upper.newSourceState.OrElse(e.sourceState),
      info.upper.newWatermark.OrElse(e.stream.newWatermark),
      info.upper.newCheckpoint.OrElse(e.stream.newCheckpoint),
      info.upper.endOffset))
  }

  /** The events that the scan keeps as they are. */
  predicate IsMetadata(e: Event) {
    !e.AddData? && !e.ExecuteTransform? && !e.Seed?
  }

  /** One block of the backward scan. */
  function Visit(st: ScanState, hash: Hash, limits: Limits, keepMetadataOnly: bool): (r: ScanState)
    requires HashKnown(st) && hash != []
    ensures HashKnown(r)
  {
    var e := hash[|hash| - 1].event;
    if e.AddData? then
      var seen := if !keepMetadataOnly && e.stream.newData.Some? then VisitSlice(st, hash, limits) else st;
      seen.(info := NoteUpper(seen.info, e))
    else if IsMetadata(e) then
      st.(batches := Flushed(st) + [SingleBlock(hash)], info := Reset(st.info))
    else st
  }

  /** The scan from the head down to and including block i. */
  function ScanFrom(c: Hash, i: nat, limits: Limits, keepMetadataOnly: bool): (r: ScanState)
    requires i <= |c|
    ensures HashKnown(r)
    decreases |c| - i
  {
    if i == |c| then INITIAL_STATE
    else Visit(ScanFrom(c, i + 1, limits, keepMetadataOnly), c[..i + 1], limits, keepMetadataOnly)
  }

  function Scan(c: Hash, limits: Limits, keepMetadataOnly: bool): seq<Batch> {
    ScanFrom(c, 0, limits, keepMetadataOnly).batches
  }

  /******* What a batch is committed as *******/

  datatype Encoding = Encoding(tag: nat, size: nat)

  /** How the file writer lays out the merge of some files. */
  type Encoder = seq<File> -> Encoding

  function AllRows(files: seq<File>): seq<Row> {
    if files == [] then [] else files[0].rows + AllRows(files[1..])
  }

  /** Rows in chain order of files that are listed newest first. */
  function RowsOldestFirst(files: seq<File>): seq<Row> {
    if files == [] then [] else RowsOldestFirst(files[1..]) + files[0].rows
  }

  function SumSizes(files: seq<File>): nat {
    if files == [] then 0 else files[0].size + SumSizes(files[1..])
  }

  predicate OffsetLe(a: Row, b: Row) {
    a.offset <= b.offset
  }

  /** The files are read in the listed order and sorted by offset. */
  function MergeFiles(files: seq<File>, encode: Encoder): File {
    File(Sorting.Sort(AllRows(files), OffsetLe), encode(files).tag, encode(files).size)
  }

  predicate WellFormed(b: Batch) {
    b.SingleBlock? ==> b.hash != []
  }

  function BatchEvent(b: Batch, encode: Encoder): Event
    requires WellFormed(b)
  {
    match b
    case SingleBlock(hash) => hash[|hash| - 1].event
    case CompactedBatch(info) =>
      var data := PrepareSlice(info.lower.startOffset, info.upper.endOffset, MergeFiles(info.slices, encode));
      AddData(
        DataStream(info.lower.prevCheckpoint, info.lower.prevOffset, Some(data), info.upper.newCheckpoint,
          info.upper.newWatermark),
        info.upper.newSourceState)
  }

  ghost predicate AllWellFormed(bs: seq<Batch>) {
    forall i | 0 <= i < |bs| :: WellFormed(bs[i])
  }

  /** Events to commit, oldest first, for batches listed newest first. */
  function BatchEvents(bs: seq<Batch>, encode: Encoder): (r: seq<Event>)
    requires AllWellFormed(bs)
    ensures |r| == |bs|
  {
    if bs == [] then [] else [BatchEvent(bs[|bs| - 1], encode)] + BatchEvents(bs[..|bs| - 1], encode)
  }

  /** What the clock shows when the block with the given sequence number is committed. */
  type Clock = nat -> Time

  function CommitAll(head: Hash, es: seq<Event>, clock: Clock): Result<Hash, AppendError>
    decreases |es|
  {
    if es == [] then Ok(head)
    else
      var r := Append(head, Block(clock(|head|), es[0]));
      if r.Err? then r else CommitAll(r.value, es[1..], clock)
  }

  /** Newest event of a kind, for events listed oldest first. */
  function NewestOf(es: seq<Event>, k: EventKind): (r: Option<Event>)
    ensures r.Some? ==> KindOf(r.value) == k
  {
    if es == [] then None else NewestOf(es[1..], k).OrElse(if KindOf(es[0]) == k then Some(es[0]) else None)
  }

  /******* What a chain means *******/

  datatype Item = Record(row: Row) | Metadata(event: Event)

  function Events(c: Hash): (r: seq<Event>)
    ensures |r| == |c|
    ensures forall i | 0 <= i < |c| :: r[i] == c[i].event
  {
    seq(|c|, i requires 0 <= i < |c| => c[i].event)
  }

  function Records(rows: seq<Row>): (r: seq<Item>)
    ensures |r| == |rows|
    ensures forall i | 0 <= i < |r| :: r[i] == Record(rows[i])
  {
    seq(|rows|, i requires 0 <= i < |rows| => Record(rows[i]))
  }

  function EventMeaning(e: Event): seq<Item> {
    if !e.AddData? then [Metadata(e)]
    else if e.stream.newData.Some? then Records(e.stream.newData.value.physicalHash.rows)
    else []
  }

  /** The records and the other events, in chain order: how records are cut into
      slices does not show, where they stand among the other events does. */
  function Meaning(es: seq<Event>): seq<Item> {
    if es == [] then [] else EventMeaning(es[0]) + Meaning(es[1..])
  }

  ghost predicate Consecutive(rows: seq<Row>, start: int) {
    forall k | 0 <= k < |rows| :: rows[k].offset == start + k
  }

  /** The slice describes its file: size, rows, and one row per offset of the interval. */
  ghost predicate SliceIntact(d: DataSlice) {
    && d.logicalHash == d.physicalHash.rows
    && d.size == d.physicalHash.size
    && |d.physicalHash.rows| == NumRecords(d)
    && Consecutive(d.physicalHash.rows, d.start)
  }

  ghost predicate Intact(c: Hash) {
    forall i | 0 <= i < |c| && HasData(c[i].event) :: SliceIntact(c[i].event.stream.newData.value)
  }

  /** Chains of root datasets: no query results among the events. */
  ghost predicate IsRoot(c: Hash) {
    forall i | 0 <= i < |c| :: !c[i].event.ExecuteTransform?
  }
}
