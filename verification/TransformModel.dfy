/**
 Derivative datasets: which input blocks the next operation covers, what is
 committed for it, and how the operation is rebuilt from the chain to be replayed.
 */
module TransformModel {
  import opened Wrappers
  import opened Odf

  type Repo = map<DatasetId, Hash>

  const DEFAULT_VOCAB: Vocab := "offset,op,system_time,event_time"

  datatype Watermark = Watermark(systemTime: Time, eventTime: Time)

  datatype RequestInput = RequestInput(
    id: DatasetId,
    alias: string,
    vocab: Vocab,
    prevBlock: Option<Hash>,
    newBlock: Option<Hash>,
    prevOffset: Option<nat>,
    newOffset: Option<nat>,
    schema: Schema,
    slices: seq<File>,
    watermarks: seq<Watermark>)

  datatype Request = Request(
    head: Hash,
    transform: string,
    systemTime: Time,
    schema: Option<Schema>,
    prevOffset: Option<nat>,
    inputs: seq<RequestInput>,
    vocab: Vocab,
    prevCheckpoint: Option<nat>)

  datatype OffsetInterval = OffsetInterval(start: nat, end: nat)

  datatype Response = Response(
    interval: Option<OffsetInterval>,
    watermark: Option<Time>,
    schema: Option<Schema>,
    checkpoint: Option<Checkpoint>,
    data: Option<File>)

  datatype TransformError =
    | TransformNotDefined
    | DatasetNotFound(id: DatasetId)
    | InputSchemaNotDefined(id: DatasetId)
    | Diverged(head: Hash, tail: Hash)
    | SchemaIncompatible
    | CommitRejected(cause: AppendError)
    | Panicked

  /******* What the engine gets to see *******/

  datatype EngineInput = EngineInput(
    id: DatasetId,
    alias: string,
    vocab: Vocab,
    interval: Option<OffsetInterval>,
    slices: seq<File>,
    schema: Schema,
    watermarks: seq<Watermark>)

  datatype EngineRequest = EngineRequest(
    systemTime: Time,
    nextOffset: nat,
    vocab: Vocab,
    transform: string,
    inputs: seq<EngineInput>,
    prevCheckpoint: Option<nat>)

  /** An engine, given a request and the number of the run: runs may differ. */
  type Engine = (EngineRequest, nat) -> Response

  function EngineInputOf(i: RequestInput): EngineInput {
    var interval :=
      if i.newOffset.Some? then Some(OffsetInterval(NextOffset(i.prevOffset), i.newOffset.value)) else None;
    EngineInput(i.id, i.alias, i.vocab, interval, i.slices, i.schema, i.watermarks)
  }

  function EngineView(r: Request): EngineRequest {
    var inputs := seq(|r.inputs|, i requires 0 <= i < |r.inputs| => EngineInputOf(r.inputs[i]));
    EngineRequest(r.systemTime, NextOffset(r.prevOffset), r.vocab, r.transform, inputs, r.prevCheckpoint)
  }

  /******* Inputs *******/

  function SchemaOf(c: Hash): Option<Schema> {
    var e := LastOf(c, SchemaKind);
    if e.Some? then Some(e.value.schema) else None
  }

  function VocabOf(c: Hash): Vocab {
    var e := LastOf(c, VocabKind);
    if e.Some? then e.value.vocab else DEFAULT_VOCAB
  }

  function BlockSlices(b: Block): seq<File> {
    if HasData(b.event) then [b.event.stream.newData.value.physicalHash] else []
  }

  function BlockWatermarks(b: Block): seq<Watermark> {
    var s := AsStream(b.event);
    if s.Some? && s.value.newWatermark.Some? then [Watermark(b.systemTime, s.value.newWatermark.value)] else []
  }

  function SlicesOf(blocks: seq<Block>): seq<File> {
    if blocks == [] then [] else SlicesOf(blocks[..|blocks| - 1]) + BlockSlices(blocks[|blocks| - 1])
  }

  function WatermarksOf(blocks: seq<Block>): seq<Watermark> {
    if blocks == [] then [] else WatermarksOf(blocks[..|blocks| - 1]) + BlockWatermarks(blocks[|blocks| - 1])
  }

  /** The blocks that a query input covers, oldest first. */
  function InputBlocks(q: QueryInput): Result<seq<Block>, IterError> {
    if q.newBlock.Some? then Interval(q.newBlock.value, q.prevBlock) else Ok([])
  }

  function ToQueryInput(i: RequestInput): QueryInput {
    QueryInput(i.id, i.prevBlock, i.newBlock, i.prevOffset, i.newOffset)
  }

  /** The slices and watermarks of an input are those of the blocks it covers. */
  ghost predicate Consistent(i: RequestInput) {
    var blocks := InputBlocks(ToQueryInput(i));
    blocks.Ok? && i.slices == SlicesOf(blocks.value) && i.watermarks == WatermarksOf(blocks.value)
  }

  function InputFromQuery(
      repo: Repo, q: QueryInput, alias: string, vocabHint: Option<Vocab>): (r: Result<RequestInput, TransformError>)
    ensures r.Ok? ==>
      && q.id in repo && SchemaOf(repo[q.id]) == Some(r.value.schema)
      && ToQueryInput(r.value) == q && r.value.alias == alias && Consistent(r.value)
      && r.value.vocab == vocabHint.OrElse(Some(VocabOf(repo[q.id]))).value
    ensures q.id in repo && SchemaOf(repo[q.id]).Some? && InputBlocks(q).Ok? ==> r.Ok?
    ensures r.Err? && r.error.Diverged? ==> q.prevBlock.Some?
  {
    if q.id !in repo then Err(DatasetNotFound(q.id))
    else
      var schema := SchemaOf(repo[q.id]);
      if schema.None? then Err(InputSchemaNotDefined(q.id))
      else
        var blocks := InputBlocks(q);
        if blocks.Err? then Err(Diverged(blocks.error.head, blocks.error.tail))
        else
          var vocab := vocabHint.OrElse(Some(VocabOf(repo[q.id]))).value;
          Ok(RequestInput(q.id, alias, vocab, q.prevBlock, q.newBlock, q.prevOffset, q.newOffset,
                          schema.value, SlicesOf(blocks.value), WatermarksOf(blocks.value)))
  }

  /** The unprocessed part of an input: from where the last query stopped to the head. */
  function NextQueryInput(head: Hash, id: DatasetId, state: Option<QueryInput>): QueryInput {
    var lastBlock := if state.Some? then LastBlockHash(state.value) else None;
    var lastOffset := if state.Some? then LastInputOffset(state.value) else None;
    var headOffset := ChainOffset(head).OrElse(lastOffset);
    QueryInput(
      id,
      lastBlock, if Some(head) != lastBlock then Some(head) else None,
      lastOffset, if headOffset != lastOffset then headOffset else None)
  }

  function GetTransformInput(
      repo: Repo, decl: TransformInput, state: Option<QueryInput>): Result<RequestInput, TransformError> {
    if state.Some? && state.value.id != decl.id then Err(Panicked)
    else if decl.id !in repo then Err(DatasetNotFound(decl.id))
    else InputFromQuery(repo, NextQueryInput(repo[decl.id], decl.id, state), decl.alias, None)
  }

  function InputState(prev: Option<Event>, i: nat): Option<QueryInput>
    requires prev.Some? ==> prev.value.ExecuteTransform? && i < |prev.value.queryInputs|
  {
    if prev.Some? then Some(prev.value.queryInputs[i]) else None
  }

  function InputResults(repo: Repo, decls: seq<TransformInput>, prev: Option<Event>):
    (r: seq<Result<RequestInput, TransformError>>)
    requires prev.Some? ==> prev.value.ExecuteTransform? && |prev.value.queryInputs| == |decls|
    ensures |r| == |decls|
  {
    seq(|decls|, k requires 0 <= k < |decls| => GetTransformInput(repo, decls[k], InputState(prev, k)))
  }

  /** The inputs in order of declaration; the first failure is reported. */
  function GetInputs(repo: Repo, decls: seq<TransformInput>, prev: Option<Event>):
    (r: Result<seq<RequestInput>, TransformError>)
    requires prev.Some? ==> prev.value.ExecuteTransform? && |prev.value.queryInputs| == |decls|
    ensures r.Ok? ==> |r.value| == |decls|
  {
    GatherOk(InputResults(repo, decls, prev));
    Gather(InputResults(repo, decls, prev))
  }

  /** Input k was computed for its declaration and its own previous state. */
  ghost predicate ObtainedAt(
    repo: Repo, decls: seq<TransformInput>, prev: Option<Event>, inputs: seq<RequestInput>, k: nat)
    requires k < |decls| && k < |inputs|
    requires prev.Some? ==> prev.value.ExecuteTransform? && |prev.value.queryInputs| == |decls|
  {
    GetTransformInput(repo, decls[k], InputState(prev, k)) == Ok(inputs[k])
  }

  ghost predicate Obtained(repo: Repo, decls: seq<TransformInput>, prev: Option<Event>, inputs: seq<RequestInput>)
    requires prev.Some? ==> prev.value.ExecuteTransform? && |prev.value.queryInputs| == |decls|
  {
    && |inputs| == |decls|
    && forall k {:trigger ObtainedAt(repo, decls, prev, inputs, k)} | 0 <= k < |decls| ::
         ObtainedAt(repo, decls, prev, inputs, k)
  }

  /** Each input that planning obtains is the one computed for its declaration. */
  lemma AllObtained(
    repo: Repo, decls: seq<TransformInput>, prev: Option<Event>, inputs: seq<RequestInput>)
    requires prev.Some? ==> prev.value.ExecuteTransform? && |prev.value.queryInputs| == |decls|
    requires GetInputs(repo, decls, prev) == Ok(inputs)
    ensures Obtained(repo, decls, prev, inputs)
  {
    var rs := InputResults(repo, decls, prev);
    GatherOk(rs);
    forall k | 0 <= k < |decls|
      ensures ObtainedAt(repo, decls, prev, inputs, k)
    {
      assert rs[k] == Ok(inputs[k]);
    }
  }

  lemma InputObtained(
    repo: Repo, decls: seq<TransformInput>, prev: Option<Event>, inputs: seq<RequestInput>, k: nat)
    requires prev.Some? ==> prev.value.ExecuteTransform? && |prev.value.queryInputs| == |decls|
    requires GetInputs(repo, decls, prev) == Ok(inputs) && k < |decls|
    ensures |inputs| == |decls| && GetTransformInput(repo, decls[k], InputState(prev, k)) == Ok(inputs[k])
  {
    AllObtained(repo, decls, prev, inputs);
    assert ObtainedAt(repo, decls, prev, inputs, k);
  }

  predicate NothingNew(inputs: seq<RequestInput>) {
    forall i | 0 <= i < |inputs| :: inputs[i].slices == [] && inputs[i].watermarks == []
  }

  /** The next operation on the output chain, or none if there is nothing to process. */
  function NextOperation(repo: Repo, output: Hash, now: Time): Result<Option<Request>, TransformError> {
    var source := LastOf(output, TransformKind);
    var prev := LastOf(output, ExecuteTransformKind);
    var schema := SchemaOf(output);
    if source.None? then Err(TransformNotDefined)
    else if prev.Some? && |prev.value.queryInputs| != |source.value.inputs| then Err(Panicked)
    else
      var inputs := GetInputs(repo, source.value.inputs, prev);
      if inputs.Err? then Err(inputs.error)
      else if NothingNew(inputs.value) && schema.Some? then Ok(None)
      else Ok(Some(Request(
        output, source.value.transform, now, schema,
        if prev.Some? then LastOffset(prev.value.stream) else None,
        inputs.value, VocabOf(output),
        if prev.Some? then CheckpointHash(prev.value.stream.newCheckpoint) else None)))
  }

  /******* Commit *******/

  function ToQueryInputs(inputs: seq<RequestInput>): (r: seq<QueryInput>)
    ensures |r| == |inputs|
    ensures forall i | 0 <= i < |r| :: r[i] == ToQueryInput(inputs[i])
  {
    seq(|inputs|, i requires 0 <= i < |inputs| => ToQueryInput(inputs[i]))
  }

  predicate WellFormedResponse(r: Response) {
    r.interval.Some? <==> r.data.Some?
  }

  /** The event that records a request and its response. */
  function PrepareEvent(request: Request, response: Response): Event
    requires WellFormedResponse(response)
  {
    var data := if response.interval.Some?
      then Some(PrepareSlice(response.interval.value.start, response.interval.value.end, response.data.value))
      else None;
    ExecuteTransform(
      ToQueryInputs(request.inputs),
      DataStream(request.prevCheckpoint, request.prevOffset, data, response.checkpoint, response.watermark))
  }

  /** Head after the schema is set upon the first transform. */
  function CommitSchema(request: Request, response: Response): Result<Hash, TransformError> {
    if request.schema.Some? then
      if response.schema.Some? && !SchemaEquivalent(request.schema.value, response.schema.value) then
        Err(SchemaIncompatible)
      else Ok(request.head)
    else if response.schema.Some? then
      var r := Append(request.head, Block(request.systemTime, SetDataSchema(response.schema.value)));
      if r.Ok? then Ok(r.value) else Err(CommitRejected(r.error))
    else Ok(request.head)
  }

  /** Outcome of a commit: the head afterwards, whether the query was recorded, and the error if any. */
  datatype Committed = Committed(head: Hash, recorded: bool, error: Option<TransformError>)

  function Commit(request: Request, response: Response): Committed
    requires WellFormedResponse(response)
  {
    var head := CommitSchema(request, response);
    if head.Err? then Committed(request.head, false, Some(head.error))
    else
      var r := Append(head.value, Block(request.systemTime, PrepareEvent(request, response)));
      if r.Ok? then Committed(r.value, true, None)
      else if r.error != NoOpEvent then Committed(head.value, false, Some(CommitRejected(r.error)))
      else if head.value == request.head then Committed(head.value, false, Some(Panicked))
      else Committed(head.value, false, None)
  }

  /******* Verification plan *******/

  datatype VerificationStep = VerificationStep(request: Request, expected: Hash)

  /** Positions of the recorded queries, oldest first. */
  function Queries(c: Hash): (r: seq<nat>)
    ensures forall k | 0 <= k < |r| :: r[k] < |c| && c[r[k]].event.ExecuteTransform?
  {
    if c == [] then []
    else
      var n := |c| - 1;
      Queries(c[..n]) + if c[n].event.ExecuteTransform? then [n] else []
  }

  /** All recorded queries, in order. */
  lemma {:induction false} QueriesExact(c: Hash)
    ensures forall i, j | 0 <= i < j < |Queries(c)| :: Queries(c)[i] < Queries(c)[j]
    ensures forall p: nat :: p in Queries(c) <==> p < |c| && c[p].event.ExecuteTransform?
  {
    if c == [] {
    } else {
      var n := |c| - 1;
      QueriesExact(c[..n]);
      forall i, j | 0 <= i < j < |Queries(c)|
        ensures Queries(c)[i] < Queries(c)[j]
      {
        if j == |Queries(c[..n])| {
          assert Queries(c[..n])[i] in Queries(c[..n]);
        }
      }
    }
  }

  /** Alias by dataset: of several inputs with the same id, the last one counts. */
  function AliasOf(decls: seq<TransformInput>, id: DatasetId): Option<string> {
    if decls == [] then None
    else if decls[|decls| - 1].id == id then Some(decls[|decls| - 1].alias)
    else AliasOf(decls[..|decls| - 1], id)
  }

  /** The i-th declaration is the last one of the dataset. */
  predicate LastDeclared(decls: seq<TransformInput>, id: DatasetId, i: nat) {
    i < |decls| && decls[i].id == id && forall j | i < j < |decls| :: decls[j].id != id
  }

  lemma {:induction false} AliasIsLast(decls: seq<TransformInput>, id: DatasetId)
    ensures AliasOf(decls, id).None? <==> forall i | 0 <= i < |decls| :: decls[i].id != id
    ensures forall i: nat | LastDeclared(decls, id, i) :: AliasOf(decls, id) == Some(decls[i].alias)
  {
    if decls == [] {
    } else if decls[|decls| - 1].id == id {
      assert forall i: nat | LastDeclared(decls, id, i) :: i == |decls| - 1;
    } else {
      var front := decls[..|decls| - 1];
      AliasIsLast(front, id);
      assert forall i | 0 <= i < |front| :: decls[i] == front[i];
      forall i: nat | LastDeclared(decls, id, i)
        ensures AliasOf(decls, id) == Some(decls[i].alias)
      {
        assert LastDeclared(front, id, i);
      }
    }
  }

  function RebuildInput(repo: Repo, decls: seq<TransformInput>, q: QueryInput): Result<RequestInput, TransformError> {
    var alias := AliasOf(decls, q.id);
    if alias.None? then Err(Panicked)
    else if q.id !in repo then Err(DatasetNotFound(q.id))
    else InputFromQuery(repo, q, alias.value, Some(VocabOf(repo[q.id])))
  }

  function RebuildInputs(
      repo: Repo, decls: seq<TransformInput>, qs: seq<QueryInput>): (r: Result<seq<RequestInput>, TransformError>)
    ensures r.Ok? ==> |r.value| == |qs|
    ensures r.Ok? ==> forall i | 0 <= i < |qs| :: RebuildInput(repo, decls, qs[i]) == Ok(r.value[i])
  {
    if qs == [] then Ok([])
    else
      var first := RebuildInput(repo, decls, qs[0]);
      if first.Err? then Err(first.error)
      else
        var rest := RebuildInputs(repo, decls, qs[1..]);
        if rest.Err? then rest else Ok([first.value] + rest.value)
  }

  function RebuildStep(repo: Repo, output: Hash, source: Event, k: nat): Result<VerificationStep, TransformError>
    requires source.SetTransform?
  {
    if k >= |output| || !output[k].event.ExecuteTransform? then Err(Panicked)
    else
      var e := output[k].event;
      var inputs := RebuildInputs(repo, source.inputs, e.queryInputs);
      if inputs.Err? then Err(inputs.error)
      else Ok(VerificationStep(
        Request(output[..k], source.transform, output[k].systemTime, SchemaOf(output),
                e.stream.prevOffset, inputs.value, VocabOf(output), e.stream.prevCheckpoint),
        output[..k + 1]))
  }

  function RebuildSteps(
      repo: Repo, output: Hash, source: Event, ks: seq<nat>): (r: Result<seq<VerificationStep>, TransformError>)
    requires source.SetTransform?
    ensures r.Ok? ==> |r.value| == |ks|
  {
    if ks == [] then Ok([])
    else
      var first := RebuildStep(repo, output, source, ks[0]);
      if first.Err? then Err(first.error)
      else
        var rest := RebuildSteps(repo, output, source, ks[1..]);
        if rest.Err? then rest else Ok([first.value] + rest.value)
  }

  lemma {:induction false} InputsRebuild(repo: Repo, decls: seq<TransformInput>, qs: seq<QueryInput>)
    requires forall i | 0 <= i < |qs| :: RebuildInput(repo, decls, qs[i]).Ok?
    ensures RebuildInputs(repo, decls, qs).Ok?
  {
    if qs == [] {
    } else {
      assert RebuildInput(repo, decls, qs[0]).Ok?;
      forall i | 0 <= i < |qs| - 1 ensures RebuildInput(repo, decls, qs[1..][i]).Ok? {
        assert qs[1..][i] == qs[i + 1];
      }
      InputsRebuild(repo, decls, qs[1..]);
    }
  }

  /** The plan can be rebuilt if every step can, and step by step it is what was rebuilt. */
  lemma {:induction false} StepsRebuild(repo: Repo, output: Hash, source: Event, ks: seq<nat>)
    requires source.SetTransform?
    ensures var r := RebuildSteps(repo, output, source, ks);
      && ((forall j | 0 <= j < |ks| :: RebuildStep(repo, output, source, ks[j]).Ok?) ==> r.Ok?)
      && (r.Ok? ==> forall j | 0 <= j < |ks| :: RebuildStep(repo, output, source, ks[j]) == Ok(r.value[j]))
  {
    if ks == [] {
    } else {
      StepsRebuild(repo, output, source, ks[1..]);
      var r := RebuildSteps(repo, output, source, ks);
      if forall j | 0 <= j < |ks| :: RebuildStep(repo, output, source, ks[j]).Ok? {
        assert RebuildStep(repo, output, source, ks[0]).Ok?;
        forall j | 0 <= j < |ks| - 1 ensures RebuildStep(repo, output, source, ks[1..][j]).Ok? {
          assert ks[1..][j] == ks[j + 1];
        }
      }
      if r.Ok? {
        forall j | 0 <= j < |ks| ensures RebuildStep(repo, output, source, ks[j]) == Ok(r.value[j]) {
          if j > 0 {
            assert RebuildStep(repo, output, source, ks[1..][j - 1]) == Ok(r.value[1..][j - 1]);
          }
        }
      }
    }
  }
}
