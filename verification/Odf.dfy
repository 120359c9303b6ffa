/**
 The metadata chain of the Open Data Fabric format, and the validation every
 appended block goes through.

 A block hash is modelled as the history that it seals: the sequence of blocks
 from the seed up to and including the hashed block.  This is the collision-free
 reading of the hash links, so a block's predecessor hash is the history without
 its last block, its sequence number is the position in the history, and a chain
 is named by the hash of its head.
 */
module Odf {
  import opened Wrappers

  type DatasetId = string
  type Time = int
  type Schema = seq<Field>
  type Vocab = string
  type SourceState = string

  datatype Field = Field(name: string, dataType: string, nullable: bool, metadata: string)

  datatype DatasetKind = Root | Derivative

  datatype Row = Row(offset: nat, eventTime: Time, payload: string)

  /** A stored data file.  Files with the same rows may differ in encoding: the
      logical hash names the rows, the physical hash names the file. */
  datatype File = File(rows: seq<Row>, encoding: nat, size: nat)

  datatype DataSlice = DataSlice(logicalHash: seq<Row>, physicalHash: File, start: nat, end: nat, size: nat)

  datatype Checkpoint = Checkpoint(physicalHash: nat, size: nat)

  /** The part that AddData and ExecuteTransform have in common. */
  datatype DataStream = DataStream(
    prevCheckpoint: Option<nat>,
    prevOffset: Option<nat>,
    newData: Option<DataSlice>,
    newCheckpoint: Option<Checkpoint>,
    newWatermark: Option<Time>)

  datatype TransformInput = TransformInput(id: DatasetId, alias: string)

  datatype QueryInput = QueryInput(
    id: DatasetId,
    prevBlock: Option<seq<Block>>,
    newBlock: Option<seq<Block>>,
    prevOffset: Option<nat>,
    newOffset: Option<nat>)

  datatype Event =
    | Seed(id: DatasetId, kind: DatasetKind)
    | AddData(stream: DataStream, sourceState: Option<SourceState>)
    | ExecuteTransform(queryInputs: seq<QueryInput>, stream: DataStream)
    | SetDataSchema(schema: Schema)
    | SetTransform(transform: string, inputs: seq<TransformInput>)
    | SetVocab(vocab: Vocab)
    | SetPollingSource(source: string)
    | AddPushSource(source: string)
    | SetInfo(info: string)
    | SetLicense(license: string)
    | SetAttachments(attachments: string)

  datatype Block = Block(systemTime: Time, event: Event)

  type Hash = seq<Block>

  datatype EventKind =
    SeedKind | AddDataKind | ExecuteTransformKind | SchemaKind | TransformKind | VocabKind |
    PollingSourceKind | PushSourceKind | AnnotationKind

  function KindOf(e: Event): EventKind {
    match e
    case Seed(_, _) => SeedKind
    case AddData(_, _) => AddDataKind
    case ExecuteTransform(_, _) => ExecuteTransformKind
    case SetDataSchema(_) => SchemaKind
    case SetTransform(_, _) => TransformKind
    case SetVocab(_) => VocabKind
    case SetPollingSource(_) => PollingSourceKind
    case AddPushSource(_) => PushSourceKind
    case SetInfo(_) | SetLicense(_) | SetAttachments(_) => AnnotationKind
  }

  function AsStream(e: Event): Option<DataStream> {
    if e.AddData? || e.ExecuteTransform? then Some(e.stream) else None
  }

  predicate HasData(e: Event) {
    AsStream(e).Some? && e.stream.newData.Some?
  }

  /** Number of records of a slice; meaningful on a non-empty offset interval. */
  function NumRecords(d: DataSlice): int {
    d.end - d.start + 1
  }

  /** Last record offset after the event: end of the new data, or else the carried one. */
  function LastOffset(s: DataStream): Option<nat> {
    if s.newData.Some? then Some(s.newData.value.end) else s.prevOffset
  }

  function NextOffset(o: Option<nat>): nat {
    if o.Some? then o.value + 1 else 0
  }

  function CheckpointHash(c: Option<Checkpoint>): Option<nat> {
    if c.Some? then Some(c.value.physicalHash) else None
  }

  function LastBlockHash(i: QueryInput): Option<Hash> {
    i.newBlock.OrElse(i.prevBlock)
  }

  function LastInputOffset(i: QueryInput): Option<nat> {
    i.newOffset.OrElse(i.prevOffset)
  }

  /** Number of input records that one query input covers. */
  function InputRecords(i: QueryInput): int {
    if i.newOffset.None? then 0
    else if i.prevOffset.Some? then i.newOffset.value - i.prevOffset.value
    else i.newOffset.value + 1
  }

  /** Equality of schemas that ignores nullability. */
  predicate SchemaEquivalent(a: Schema, b: Schema) {
    |a| == |b| && forall i | 0 <= i < |a| ::
      a[i].name == b[i].name && a[i].dataType == b[i].dataType && a[i].metadata == b[i].metadata
  }

  /** Equivalent schemas are equal once their fields are made nullable alike. */
  lemma SchemaEquivalentMeans(a: Schema, b: Schema)
    ensures SchemaEquivalent(a, b) <==>
      |a| == |b| && forall i | 0 <= i < |a| :: a[i].(nullable := b[i].nullable) == b[i]
  {
  }

  /** Description of a file that is about to be committed. */
  function PrepareSlice(start: nat, end: nat, file: File): DataSlice {
    DataSlice(file.rows, file, start, end, file.size)
  }

  /******* Searches from the head of a chain *******/

  /** Newest event of the given kind. */
  function LastOf(c: Hash, k: EventKind): (r: Option<Event>)
    ensures r.Some? ==> KindOf(r.value) == k
  {
    if c == [] then None
    else if KindOf(c[|c| - 1].event) == k then Some(c[|c| - 1].event)
    else LastOf(c[..|c| - 1], k)
  }

  /** Newest data-stream event. */
  function LastStream(c: Hash): Option<DataStream> {
    if c == [] then None
    else
      var s := AsStream(c[|c| - 1].event);
      if s.Some? then s else LastStream(c[..|c| - 1])
  }

  /** Offset of the last record recorded by the chain, if any. */
  function ChainOffset(c: Hash): Option<nat> {
    var s := LastStream(c);
    if s.Some? then LastOffset(s.value) else None
  }

  /** Watermark carried by the newest data-stream event. */
  function ChainWatermark(c: Hash): Option<Time> {
    var s := LastStream(c);
    if s.Some? then s.value.newWatermark else None
  }

  datatype IterError = InvalidInterval(head: Hash, tail: Hash)

  /** Blocks after the tail up to and including the head, oldest first. */
  function Interval(head: Hash, tail: Option<Hash>): (r: Result<seq<Block>, IterError>)
    ensures r.Ok? <==> tail.None? || tail.value <= head
    ensures r.Ok? && tail.Some? ==> tail.value + r.value == head
  {
    if tail.None? then Ok(head)
    else if tail.value <= head then Ok(head[|tail.value|..])
    else Err(InvalidInterval(head, tail.value))
  }

  /******* Append validation *******/

  datatype AppendError =
    SeedOnNonEmptyChain | FirstBlockMustBeSeed | NoOpEvent | OffsetsNotSequential | InvalidEvent |
    SystemTimeNotMonotonic | WatermarkNotMonotonic

  datatype Verdict = Accepted | Rejected(error: AppendError)

  /** The order on optional watermarks: once set, a watermark stays set and never decreases. */
  predicate WatermarkLe(a: Option<Time>, b: Option<Time>) {
    a.Some? ==> b.Some? && a.value <= b.value
  }

  predicate IsEmpty(e: Event) {
    AsStream(e).Some? && e.stream.newData.None? && e.stream.newCheckpoint.None? && e.stream.newWatermark.None? &&
    (e.AddData? ==> e.sourceState.None?)
  }

  /** A slice starts at the offset after the carried one. */
  predicate StartsAtNextOffset(s: DataStream) {
    s.newData.Some? ==> s.newData.value.start == NextOffset(s.prevOffset)
  }

  predicate HasValidInterval(s: DataStream) {
    s.newData.Some? ==> s.newData.value.start <= s.newData.value.end
  }

  /** The SetTransform that validation of an ExecuteTransform gets to see: the backward
      scan stops looking for one once it has met both a schema and a query. */
  function VisibleTransform(c: Hash, seenSchema: bool, seenQuery: bool): (r: Option<Event>)
    ensures r.Some? ==> r.value.SetTransform?
  {
    if c == [] || (seenSchema && seenQuery) then None
    else
      var e := c[|c| - 1].event;
      if e.SetTransform? then Some(e)
      else VisibleTransform(c[..|c| - 1], seenSchema || e.SetDataSchema?, seenQuery || e.ExecuteTransform?)
  }

  function InputIds(inputs: seq<QueryInput>): (r: seq<DatasetId>)
    ensures |r| == |inputs|
    ensures forall i | 0 <= i < |r| :: r[i] == inputs[i].id
  {
    seq(|inputs|, i requires 0 <= i < |inputs| => inputs[i].id)
  }

  function DeclaredIds(inputs: seq<TransformInput>): (r: seq<DatasetId>)
    ensures |r| == |inputs|
    ensures forall i | 0 <= i < |r| :: r[i] == inputs[i].id
  {
    seq(|inputs|, i requires 0 <= i < |inputs| => inputs[i].id)
  }

  /** A query input continues where the previous query on the same input stopped. */
  predicate ContinuesInput(prev: QueryInput, next: QueryInput) {
    && (next.newBlock.Some? ==> next.newBlock != next.prevBlock)
    && (next.newOffset.Some? ==> next.newOffset != next.prevOffset)
    && next.prevBlock == LastBlockHash(prev)
    && next.prevOffset == LastInputOffset(prev)
    && (next.newOffset.Some? ==> next.newBlock.Some?)
  }

  function ValidateAddData(c: Hash, e: Event): Verdict
    requires e.AddData?
  {
    var prev := LastOf(c, AddDataKind);
    var prevCheckpoint := if prev.Some? then CheckpointHash(prev.value.stream.newCheckpoint) else None;
    var prevWatermark := if prev.Some? then prev.value.stream.newWatermark else None;
    var prevSourceState := if prev.Some? then prev.value.sourceState else None;
    if LastOf(c, SchemaKind).None? && e.stream.newData.Some? then Rejected(InvalidEvent)
    else if e.stream.prevCheckpoint != prevCheckpoint then Rejected(InvalidEvent)
    else if
      && e.stream.newData.None?
      && CheckpointHash(e.stream.newCheckpoint) == e.stream.prevCheckpoint
      && e.stream.newWatermark == prevWatermark
      && e.sourceState == prevSourceState
    then Rejected(NoOpEvent)
    else Accepted
  }

  function ValidateExecuteTransform(c: Hash, e: Event): Verdict
    requires e.ExecuteTransform?
  {
    var prev := LastOf(c, ExecuteTransformKind);
    var declared := VisibleTransform(c, false, false);
    var prevCheckpoint := if prev.Some? then CheckpointHash(prev.value.stream.newCheckpoint) else None;
    var prevWatermark := if prev.Some? then prev.value.stream.newWatermark else None;
    if LastOf(c, SchemaKind).None? && e.stream.newData.Some? then Rejected(InvalidEvent)
    else if declared.Some? && InputIds(e.queryInputs) != DeclaredIds(declared.value.inputs) then Rejected(InvalidEvent)
    else if declared.None? && prev.None? then Rejected(InvalidEvent)
    else if declared.None? && InputIds(e.queryInputs) != InputIds(prev.value.queryInputs) then Rejected(InvalidEvent)
    else if prev.Some? && !(forall i | 0 <= i < |e.queryInputs| && i < |prev.value.queryInputs| ::
        ContinuesInput(prev.value.queryInputs[i], e.queryInputs[i])) then Rejected(InvalidEvent)
    else if e.stream.prevCheckpoint != prevCheckpoint then Rejected(InvalidEvent)
    else if
      && e.stream.newData.None?
      && CheckpointHash(e.stream.newCheckpoint) == e.stream.prevCheckpoint
      && e.stream.newWatermark == prevWatermark
      && (forall i | 0 <= i < |e.queryInputs| :: e.queryInputs[i].newBlock.None?)
    then Rejected(NoOpEvent)
    else Accepted
  }

  /** The verdict on appending block b to the chain with head c, in the order in which
      the validators report: checks of the event alone, then the walk, then the final checks. */
  function Validate(c: Hash, b: Block): Verdict {
    var e := b.event;
    var s := AsStream(e);
    var p := LastStream(c);
    if e.Seed? && c != [] then Rejected(SeedOnNonEmptyChain)
    else if !e.Seed? && c == [] then Rejected(FirstBlockMustBeSeed)
    else if IsEmpty(e) then Rejected(NoOpEvent)
    else if s.Some? && !StartsAtNextOffset(s.value) then Rejected(OffsetsNotSequential)
    else if s.Some? && !HasValidInterval(s.value) then Rejected(InvalidEvent)
    else if e.SetTransform? && e.inputs == [] then Rejected(InvalidEvent)
    else if c != [] && b.systemTime < c[|c| - 1].systemTime then Rejected(SystemTimeNotMonotonic)
    else if s.Some? && p.Some? && !WatermarkLe(p.value.newWatermark, s.value.newWatermark) then
      Rejected(WatermarkNotMonotonic)
    else if s.Some? && p.Some? && s.value.prevOffset != LastOffset(p.value) then Rejected(InvalidEvent)
    else if e.AddPushSource? && LastOf(c, PollingSourceKind).Some? then Rejected(InvalidEvent)
    else if e.SetPollingSource? && LastOf(c, PushSourceKind).Some? then Rejected(InvalidEvent)
    else if e.AddData? then ValidateAddData(c, e)
    else if e.ExecuteTransform? then ValidateExecuteTransform(c, e)
    else Accepted
  }

  /** The time is not before that of the head. */
  predicate NotOlder(c: Hash, t: Time)
    requires c != []
  {
    c[|c| - 1].systemTime <= t
  }

  function Append(c: Hash, b: Block): Result<Hash, AppendError> {
    match Validate(c, b)
    case Accepted => Ok(c + [b])
    case Rejected(error) => Err(error)
  }

  predicate AcceptedAt(c: Hash, i: nat)
    requires i < |c|
  {
    Validate(c[..i], c[i]).Accepted?
  }

  /** A chain all of whose blocks were accepted when they were appended. */
  ghost predicate Valid(c: Hash) {
    forall i | 0 <= i < |c| :: AcceptedAt(c, i)
  }

  /******* What validation guarantees *******/

  lemma Snoc<T>(c: seq<T>, i: nat)
    requires i < |c|
    ensures c[..i + 1] == c[..i] + [c[i]]
    ensures c[..i + 1][..i] == c[..i]
  {
  }

  lemma ValidPrefix(c: Hash, n: nat)
    requires Valid(c) && n <= |c|
    ensures Valid(c[..n])
  {
    forall i | 0 <= i < n
      ensures AcceptedAt(c[..n], i)
    {
      assert AcceptedAt(c, i) && c[..n][..i] == c[..i];
    }
  }

  lemma ValidAppend(c: Hash, b: Block)
    requires Valid(c) && Validate(c, b).Accepted?
    ensures Valid(c + [b])
  {
    var d := c + [b];
    forall i | 0 <= i < |d|
      ensures AcceptedAt(d, i)
    {
      if i == |c| {
        assert d[..i] == c;
      } else {
        assert AcceptedAt(c, i) && d[..i] == c[..i];
      }
    }
  }

  /** Every chain grown from nothing by accepted appends is valid, and nothing else is. */
  lemma ValidIffAppended(c: Hash, b: Block)
    ensures Valid(c + [b]) <==> Valid(c) && Append(c, b) == Ok(c + [b])
  {
    var d := c + [b];
    if Valid(d) {
      ValidPrefix(d, |c|);
      assert AcceptedAt(d, |c|) && d[..|c|] == c && d[|c|] == b;
    }
    if Valid(c) && Append(c, b) == Ok(d) {
      ValidAppend(c, b);
    }
  }

  lemma StreamStep(c: Hash, i: nat)
    requires i < |c|
    ensures LastStream(c[..i + 1]) == AsStream(c[i].event).OrElse(LastStream(c[..i]))
  {
    Snoc(c, i);
  }

  lemma {:induction false} KindStep(c: Hash, i: nat, k: EventKind)
    requires i < |c|
    ensures LastOf(c[..i + 1], k) == if KindOf(c[i].event) == k then Some(c[i].event) else LastOf(c[..i], k)
  {
    Snoc(c, i);
  }

  lemma {:induction false} LastAppended(c: Hash, b: Block, k: EventKind)
    ensures LastOf(c + [b], k) == if KindOf(b.event) == k then Some(b.event) else LastOf(c, k)
    ensures LastStream(c + [b]) == AsStream(b.event).OrElse(LastStream(c))
  {
    assert (c + [b])[..|c|] == c;
  }

  lemma {:induction false} SingleBlockChain(b: Block, k: EventKind)
    ensures LastStream([b]) == AsStream(b.event)
    ensures LastOf([b], k) == if KindOf(b.event) == k then Some(b.event) else None
  {
    assert [b][..0] == [];
    assert LastOf([], k) == None && LastStream([]) == None;
  }

  lemma {:induction false} LastOfMember(c: Hash, k: EventKind, i: nat)
    requires i < |c| && KindOf(c[i].event) == k
    ensures LastOf(c, k).Some?
  {
    if i < |c| - 1 && KindOf(c[|c| - 1].event) != k {
      LastOfMember(c[..|c| - 1], k, i);
    }
  }

  lemma {:induction false} LastOfWitness(c: Hash, k: EventKind) returns (i: nat)
    requires LastOf(c, k).Some?
    ensures i < |c| && Some(c[i].event) == LastOf(c, k)
  {
    if KindOf(c[|c| - 1].event) == k {
      i := |c| - 1;
    } else {
      i := LastOfWitness(c[..|c| - 1], k);
    }
  }

  /** The seed is the first block and no other. */
  lemma SeedIsFirst(c: Hash, i: nat)
    requires Valid(c) && i < |c|
    ensures c[i].event.Seed? <==> i == 0
  {
    assert AcceptedAt(c, i);
  }

  /** On a valid chain a data-stream event is linked to the one before it. */
  lemma StreamLinked(c: Hash, i: nat)
    requires Valid(c) && i < |c| && AsStream(c[i].event).Some?
    ensures var s := c[i].event.stream;
      && StartsAtNextOffset(s) && HasValidInterval(s)
      && (LastStream(c[..i]).Some? ==> s.prevOffset == ChainOffset(c[..i]))
      && WatermarkLe(ChainWatermark(c[..i]), s.newWatermark)
  {
    assert AcceptedAt(c, i);
  }

  /** On a valid chain data comes only after a schema. */
  lemma SchemaBeforeData(c: Hash, i: nat)
    requires Valid(c) && i < |c| && HasData(c[i].event)
    ensures LastOf(c[..i], SchemaKind).Some?
  {
    assert AcceptedAt(c, i);
  }

  /** On a valid chain a data event without data says something new: another checkpoint, watermark or
      source state than the data event before it. */
  lemma DataEventsDiffer(c: Hash, i: nat)
    requires Valid(c) && i < |c| && c[i].event.AddData? && c[i].event.stream.newData.None?
    ensures var prev, e := LastOf(c[..i], AddDataKind), c[i].event;
      if prev.None? then
        e.stream.newCheckpoint.Some? || e.stream.newWatermark.Some? || e.sourceState.Some?
      else
        || CheckpointHash(e.stream.newCheckpoint) != CheckpointHash(prev.value.stream.newCheckpoint)
        || e.stream.newWatermark != prev.value.stream.newWatermark
        || e.sourceState != prev.value.sourceState
  {
    assert AcceptedAt(c, i);
  }

  /** On a valid chain a query continues every input where the query before it stopped, on the same
      datasets in the same order unless the transform was defined anew. */
  lemma QueriesContinue(c: Hash, i: nat)
    requires Valid(c) && i < |c| && c[i].event.ExecuteTransform? && LastOf(c[..i], ExecuteTransformKind).Some?
    ensures var prev, qs := LastOf(c[..i], ExecuteTransformKind).value, c[i].event.queryInputs;
      && (forall k | 0 <= k < |qs| && k < |prev.queryInputs| ::
            && qs[k].prevBlock == LastBlockHash(prev.queryInputs[k])
            && qs[k].prevOffset == LastInputOffset(prev.queryInputs[k])
            && (qs[k].newBlock.Some? ==> qs[k].newBlock != qs[k].prevBlock)
            && (qs[k].newOffset.Some? ==> qs[k].newBlock.Some? && qs[k].newOffset != qs[k].prevOffset))
      && c[i].event.stream.prevCheckpoint == CheckpointHash(prev.stream.newCheckpoint)
      && (VisibleTransform(c[..i], false, false).None? ==> InputIds(qs) == InputIds(prev.queryInputs))
  {
    assert AcceptedAt(c, i);
  }

  /** The watermark never decreases along a valid chain, and once set is never unset. */
  lemma {:induction false} WatermarkMonotone(c: Hash, i: nat, j: nat)
    requires Valid(c) && i <= j <= |c|
    ensures WatermarkLe(ChainWatermark(c[..i]), ChainWatermark(c[..j]))
    decreases j
  {
    if i == j {
    } else {
      WatermarkMonotone(c, i, j - 1);
      StreamStep(c, j - 1);
      if AsStream(c[j - 1].event).Some? {
        StreamLinked(c, j - 1);
      }
    }
  }

  /** No valid chain holds both a polling source and a push source. */
  lemma {:induction false} OneSourceKind(c: Hash)
    requires Valid(c)
    ensures LastOf(c, PollingSourceKind).None? || LastOf(c, PushSourceKind).None?
  {
    if c == [] {
    } else {
      var n := |c| - 1;
      ValidPrefix(c, n);
      OneSourceKind(c[..n]);
      assert AcceptedAt(c, n);
    }
  }
}
