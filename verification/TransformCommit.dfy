/**
 What becomes of a planned operation when it is committed: exactly when the query
 is recorded, when it is skipped, and when the commit panics.
 */
module TransformCommit {
  import opened Wrappers
  import opened Odf
  import opened TransformModel
  import opened TransformRuns
  import opened TransformOnce

  /******* Conditions on the request and the response *******/

  /** The response has neither data nor checkpoint nor watermark. */
  predicate EmptyResponse(response: Response) {
    response.data.None? && response.checkpoint.None? && response.watermark.None?
  }

  /** The new data starts at the next offset and is an interval. */
  predicate SliceFits(request: Request, response: Response) {
    response.interval.Some? ==>
      && response.interval.value.start == NextOffset(request.prevOffset)
      && response.interval.value.start <= response.interval.value.end
  }

  function QueryWatermark(output: Hash): Option<Time> {
    var prev := LastOf(output, ExecuteTransformKind);
    if prev.Some? then prev.value.stream.newWatermark else None
  }

  predicate NoNewBlocks(request: Request) {
    forall i | 0 <= i < |request.inputs| :: request.inputs[i].newBlock.None?
  }

  /** Nothing to record beyond the last query: no data, the same checkpoint and watermark, and
      no input with new blocks. */
  predicate Repeats(output: Hash, request: Request, response: Response) {
    && response.interval.None?
    && CheckpointHash(response.checkpoint) == request.prevCheckpoint
    && response.watermark == QueryWatermark(output)
    && NoNewBlocks(request)
  }

  /** The offsets and the watermark follow those of the newest data event. */
  predicate FollowsStream(output: Hash, request: Request, response: Response) {
    var p := LastStream(output);
    p.Some? ==> WatermarkLe(p.value.newWatermark, response.watermark) && request.prevOffset == LastOffset(p.value)
  }

  /** No input continues in offsets without continuing in blocks. */
  predicate OffsetsNeedBlocks(request: Request) {
    forall i | 0 <= i < |request.inputs| :: request.inputs[i].newOffset.Some? ==> request.inputs[i].newBlock.Some?
  }

  predicate InputsContinue(output: Hash, request: Request) {
    LastOf(output, ExecuteTransformKind).Some? ==> OffsetsNeedBlocks(request)
  }

  /** The schema of the response is compatible with that of the output, if both have one. */
  predicate SchemaFits(request: Request, response: Response) {
    request.schema.Some? && response.schema.Some? ==> SchemaEquivalent(request.schema.value, response.schema.value)
  }

  /** The commit sets the schema of the output. */
  predicate SetsSchema(request: Request, response: Response) {
    request.schema.None? && response.schema.Some?
  }

  /******* What planning guarantees to validation *******/

  lemma {:induction false} VisibleIsLast(c: Hash, seenSchema: bool, seenQuery: bool)
    ensures var visible := VisibleTransform(c, seenSchema, seenQuery);
      && (visible.Some? ==> visible == LastOf(c, TransformKind))
      && (!seenQuery && LastOf(c, ExecuteTransformKind).None? ==> visible == LastOf(c, TransformKind))
  {
    if c == [] {
    } else {
      var e := c[|c| - 1].event;
      VisibleIsLast(c[..|c| - 1], seenSchema || e.SetDataSchema?, seenQuery || e.ExecuteTransform?);
    }
  }

  /** A planned input belongs to its declaration and continues the query before it. */
  lemma InputContinues(repo: Repo, decl: TransformInput, state: Option<QueryInput>, i: RequestInput)
    requires GetTransformInput(repo, decl, state) == Ok(i)
    ensures i.id == decl.id
    ensures state.Some? ==>
      && state.value.id == decl.id
      && (ContinuesInput(state.value, ToQueryInput(i)) <==> (i.newOffset.Some? ==> i.newBlock.Some?))
  {
  }

  predicate AllContinued(prev: seq<QueryInput>, next: seq<QueryInput>) {
    forall i | 0 <= i < |next| && i < |prev| :: ContinuesInput(prev[i], next[i])
  }

  ghost predicate QueryFollows(output: Hash, request: Request) {
    var prev, qs := LastOf(output, ExecuteTransformKind), ToQueryInputs(request.inputs);
    && LastOf(output, TransformKind).Some?
    && InputIds(qs) == DeclaredIds(LastOf(output, TransformKind).value.inputs)
    && request.prevCheckpoint == (if prev.Some? then CheckpointHash(prev.value.stream.newCheckpoint) else None)
    && request.prevOffset == (if prev.Some? then LastOffset(prev.value.stream) else None)
    && (prev.Some? ==>
          && InputIds(qs) == InputIds(prev.value.queryInputs)
          && (AllContinued(prev.value.queryInputs, qs) <==> OffsetsNeedBlocks(request)))
  }

  lemma ObtainedContinue(
    repo: Repo, decls: seq<TransformInput>, prev: Option<Event>, inputs: seq<RequestInput>, i: nat)
    requires prev.Some? ==> prev.value.ExecuteTransform? && |prev.value.queryInputs| == |decls|
    requires i < |decls| && i < |inputs| && ObtainedAt(repo, decls, prev, inputs, i)
    ensures inputs[i].id == decls[i].id
    ensures prev.Some? ==>
      && prev.value.queryInputs[i].id == decls[i].id
      && (ContinuesInput(prev.value.queryInputs[i], ToQueryInput(inputs[i])) <==>
            (inputs[i].newOffset.Some? ==> inputs[i].newBlock.Some?))
  {
    InputContinues(repo, decls[i], InputState(prev, i), inputs[i]);
  }

  lemma AllContinue(
    repo: Repo, decls: seq<TransformInput>, prev: Option<Event>, request: Request)
    requires prev.Some? ==> prev.value.ExecuteTransform? && |prev.value.queryInputs| == |decls|
    requires Obtained(repo, decls, prev, request.inputs)
    ensures var qs := ToQueryInputs(request.inputs);
      && InputIds(qs) == DeclaredIds(decls)
      && (prev.Some? ==>
            && InputIds(qs) == InputIds(prev.value.queryInputs)
            && (AllContinued(prev.value.queryInputs, qs) <==> OffsetsNeedBlocks(request)))
  {
    var qs := ToQueryInputs(request.inputs);
    forall i | 0 <= i < |decls|
      ensures qs[i].id == decls[i].id
      ensures prev.Some? ==>
        && prev.value.queryInputs[i].id == decls[i].id
        && (ContinuesInput(prev.value.queryInputs[i], qs[i]) <==>
              (request.inputs[i].newOffset.Some? ==> request.inputs[i].newBlock.Some?))
    {
      assert ObtainedAt(repo, decls, prev, request.inputs, i);
      ObtainedContinue(repo, decls, prev, request.inputs, i);
    }
  }

  lemma PlannedQueryFollows(repo: Repo, output: Hash, now: Time, request: Request)
    requires NextOperation(repo, output, now) == Ok(Some(request))
    ensures QueryFollows(output, request)
  {
    var decls, prev := LastOf(output, TransformKind).value.inputs, LastOf(output, ExecuteTransformKind);
    AllObtained(repo, decls, prev, request.inputs);
    AllContinue(repo, decls, prev, request);
  }

  /******* The verdict on a planned query *******/

  /** The verdict depends on the output chain, and not on a schema set just before. */
  ghost predicate SameButForSchema(output: Hash, head: Hash) {
    && output != [] && head != []
    && LastOf(head, TransformKind) == LastOf(output, TransformKind)
    && LastOf(head, ExecuteTransformKind) == LastOf(output, ExecuteTransformKind)
    && LastStream(head) == LastStream(output)
  }

  lemma SchemaKeepsRest(output: Hash, b: Block)
    requires output != [] && b.event.SetDataSchema?
    ensures SameButForSchema(output, output + [b])
  {
    LastAppended(output, b, TransformKind);
    LastAppended(output, b, ExecuteTransformKind);
  }

  lemma InnerVerdict(output: Hash, head: Hash, request: Request, response: Response)
    requires SameButForSchema(output, head) && QueryFollows(output, request) && WellFormedResponse(response)
    ensures ValidateExecuteTransform(head, PrepareEvent(request, response)) ==
      if response.interval.Some? && SchemaOf(head).None? then Rejected(InvalidEvent)
      else if !InputsContinue(output, request) then Rejected(InvalidEvent)
      else if Repeats(output, request, response) then Rejected(NoOpEvent)
      else Accepted
  {
    VisibleIsLast(head, false, false);
  }

  /** The verdict of validation on a planned query, check by check. */
  lemma QueryVerdict(output: Hash, head: Hash, request: Request, response: Response)
    requires SameButForSchema(output, head) && QueryFollows(output, request) && WellFormedResponse(response)
    ensures var verdict := Validate(head, Block(request.systemTime, PrepareEvent(request, response)));
      && (verdict.Accepted? <==>
            && !EmptyResponse(response) && SliceFits(request, response)
            && NotOlder(head, request.systemTime) && FollowsStream(output, request, response)
            && (response.interval.Some? ==> SchemaOf(head).Some?)
            && InputsContinue(output, request) && !Repeats(output, request, response))
      && (verdict == Rejected(NoOpEvent) <==>
            || EmptyResponse(response)
            || (NotOlder(head, request.systemTime) && FollowsStream(output, request, response)
                && InputsContinue(output, request) && Repeats(output, request, response)))
  {
    InnerVerdict(output, head, request, response);
  }

  /******* Every planned operation *******/

  /** The commit of a planned operation panics exactly if it sets no schema, no schema is
      incompatible, and the query is skipped: because the response is empty, or because it
      repeats the last query while no input has new blocks. */
  lemma PlannedCommitPanicsIff(
      repo: Repo, output: Hash, now: Time, request: Request, response: Response)
    requires NextOperation(repo, output, now) == Ok(Some(request)) && WellFormedResponse(response)
    ensures output != []
    ensures Commit(request, response).error == Some(Panicked) <==>
      && SchemaFits(request, response) && !SetsSchema(request, response)
      && (|| EmptyResponse(response)
          || (NotOlder(output, now) && FollowsStream(output, request, response)
              && InputsContinue(output, request) && Repeats(output, request, response)))
  {
    PlannedOperation(repo, output, now, request);
    PlannedQueryFollows(repo, output, now, request);
    QueryVerdict(output, output, request, response);
  }

  /** On an output with a schema an operation is planned only for new blocks. */
  lemma NoRepeatWithSchema(repo: Repo, output: Hash, now: Time, request: Request, response: Response)
    requires NextOperation(repo, output, now) == Ok(Some(request)) && request.schema.Some?
    ensures !Repeats(output, request, response)
  {
    assert !NothingNew(request.inputs);
    var i :| 0 <= i < |request.inputs| && !(request.inputs[i].slices == [] && request.inputs[i].watermarks == []);
    ObtainedConsistent(
      repo, LastOf(output, TransformKind).value.inputs, LastOf(output, ExecuteTransformKind), request.inputs, i);
    NewContentNeedsBlocks(request.inputs[i]);
  }

  lemma NewContentNeedsBlocks(input: RequestInput)
    requires Consistent(input) && !(input.slices == [] && input.watermarks == [])
    ensures input.newBlock.Some?
  {
  }

  lemma ObtainedConsistent(
    repo: Repo, decls: seq<TransformInput>, prev: Option<Event>, inputs: seq<RequestInput>, i: nat)
    requires prev.Some? ==> prev.value.ExecuteTransform? && |prev.value.queryInputs| == |decls|
    requires GetInputs(repo, decls, prev) == Ok(inputs) && i < |inputs|
    ensures Consistent(inputs[i])
  {
    InputObtained(repo, decls, prev, inputs, i);
  }

  /******* Every operation of a run *******/

  /** A run begins with a valid output chain that holds no data events. */
  ghost predicate Begins(start: World) {
    Fresh(start) && Valid(start.output) && LastStream(start.output).None?
  }

  /** The output chain is valid and only queries carry data. */
  ghost predicate QueriesOnly(output: Hash) {
    var prev := LastOf(output, ExecuteTransformKind);
    && Valid(output)
    && LastStream(output) == if prev.Some? then Some(prev.value.stream) else None
  }

  lemma QueriesOnlyAppend(output: Hash, b: Block)
    requires QueriesOnly(output) && Append(output, b).Ok? && (b.event.SetDataSchema? || b.event.ExecuteTransform?)
    ensures QueriesOnly(output + [b])
  {
    ValidAppend(output, b);
    LastAppended(output, b, ExecuteTransformKind);
  }

  lemma CommitKeepsQueriesOnly(request: Request, response: Response)
    requires QueriesOnly(request.head) && WellFormedResponse(response)
    ensures QueriesOnly(Commit(request, response).head)
  {
    var head := CommitSchema(request, response);
    if head.Ok? {
      if head.value != request.head {
        QueriesOnlyAppend(request.head, Block(request.systemTime, SetDataSchema(response.schema.value)));
      }
      var b := Block(request.systemTime, PrepareEvent(request, response));
      if Append(head.value, b).Ok? {
        QueriesOnlyAppend(head.value, b);
      }
    }
  }

  lemma {:induction false} RunKeepsQueriesOnly(start: World, steps: seq<Step>, engine: Engine)
    requires Begins(start)
    ensures QueriesOnly(Run(start, steps, engine).output)
  {
    if steps == [] {
    } else {
      var n := |steps| - 1;
      RunKeepsQueriesOnly(start, steps[..n], engine);
      var w := Run(start, steps[..n], engine);
      if steps[n].RunTransform? {
        var op := NextOperation(w.inputs, w.output, steps[n].now);
        if op.Ok? && op.value.Some? {
          PlannedOperation(w.inputs, w.output, steps[n].now, op.value.value);
          var response := engine(EngineView(op.value.value), steps[n].run);
          if WellFormedResponse(response) {
            CommitKeepsQueriesOnly(op.value.value, response);
          }
        }
      }
    }
  }

  /******* Planning in a run *******/

  /** The declared dataset exists and has a schema. */
  predicate Available(repo: Repo, decl: TransformInput) {
    decl.id in repo && SchemaOf(repo[decl.id]).Some?
  }

  lemma InputPlannedIff(repo: Repo, decl: TransformInput, state: Option<QueryInput>)
    requires state.Some? ==>
      && state.value.id == decl.id && LastBlockHash(state.value).Some?
      && (decl.id in repo ==> LastBlockHash(state.value).value <= repo[decl.id])
    ensures GetTransformInput(repo, decl, state).Ok? <==> Available(repo, decl)
  {
  }

  predicate CanBePlanned(repo: Repo, decls: seq<TransformInput>, prev: Option<Event>, k: nat)
    requires k < |decls|
    requires prev.Some? ==> prev.value.ExecuteTransform? && |prev.value.queryInputs| == |decls|
  {
    GetTransformInput(repo, decls[k], InputState(prev, k)).Ok?
  }

  lemma InputsPlannedIff(repo: Repo, decls: seq<TransformInput>, prev: Option<Event>)
    requires prev.Some? ==> prev.value.ExecuteTransform? && |prev.value.queryInputs| == |decls|
    ensures GetInputs(repo, decls, prev).Ok? <==> forall k | 0 <= k < |decls| :: CanBePlanned(repo, decls, prev, k)
  {
    var rs := InputResults(repo, decls, prev);
    GatherOk(rs);
    assert forall k | 0 <= k < |decls| :: rs[k].Ok? <==> CanBePlanned(repo, decls, prev, k);
  }

  lemma InputStateKnown(w: World, source: Event, engine: Engine, i: nat)
    requires Inv(w, source, engine) && i < |source.inputs|
    ensures var prev, decl := LastOf(w.output, ExecuteTransformKind), source.inputs[i];
      && (prev.Some? ==> |prev.value.queryInputs| == |source.inputs|)
      && (GetTransformInput(w.inputs, decl, InputState(prev, i)).Ok? <==> Available(w.inputs, decl))
  {
    PreviousState(w, source, engine, i);
    var prev, decl := LastOf(w.output, ExecuteTransformKind), source.inputs[i];
    if prev.Some? {
      var last := |w.log| - 1;
      assert LinkedAt(w.inputs, w.log, source.inputs, last);
      assert InputRecorded(w.inputs, decl, w.log[last].request.inputs[i]);
    }
    InputPlannedIff(w.inputs, decl, InputState(prev, i));
  }

  lemma StateMatches(w: World, source: Event, engine: Engine)
    requires Inv(w, source, engine)
    ensures var prev := LastOf(w.output, ExecuteTransformKind);
      prev.Some? ==> |prev.value.queryInputs| == |source.inputs|
  {
    if w.log != [] {
      var last := |w.log| - 1;
      assert Recorded(w.output, Queries(w.output)[last], w.log[last], source, engine);
      assert LinkedAt(w.inputs, w.log, source.inputs, last);
    }
  }

  ghost predicate AllAvailable(repo: Repo, decls: seq<TransformInput>) {
    forall i | 0 <= i < |decls| :: Available(repo, decls[i])
  }

  lemma WorldPlanning(w: World, source: Event, engine: Engine, now: Time)
    requires Inv(w, source, engine)
    ensures var op := NextOperation(w.inputs, w.output, now);
      && (op.Ok? <==> AllAvailable(w.inputs, source.inputs))
      && (op.Ok? && SchemaOf(w.output).None? ==> op.value.Some?)
  {
    StateMatches(w, source, engine);
    RunInputsPlannedIff(w, source, engine);
    PlannedIfObtained(w.inputs, w.output, now);
  }

  /** In a run, whose inputs only ever grow, planning succeeds exactly if every declared input
      exists and has a schema: none can diverge.  On an output without a schema something is
      planned even if there is nothing new. */
  lemma {:induction false} PlanningSucceedsIff(start: World, steps: seq<Step>, engine: Engine, now: Time)
    requires Fresh(start)
    ensures var w, decls := Run(start, steps, engine), LastOf(start.output, TransformKind).value.inputs;
      var op := NextOperation(w.inputs, w.output, now);
      && (op.Ok? <==> AllAvailable(w.inputs, decls))
      && (op.Ok? && SchemaOf(w.output).None? ==> op.value.Some?)
  {
    InvHolds(start, steps, engine);
    WorldPlanning(Run(start, steps, engine), LastOf(start.output, TransformKind).value, engine, now);
  }

  lemma {:induction false} PlannedIfObtained(repo: Repo, output: Hash, now: Time)
    requires LastOf(output, TransformKind).Some?
    requires var prev := LastOf(output, ExecuteTransformKind);
      prev.Some? ==> |prev.value.queryInputs| == |LastOf(output, TransformKind).value.inputs|
    ensures var op := NextOperation(repo, output, now);
      && (op.Ok? <==>
            GetInputs(repo, LastOf(output, TransformKind).value.inputs, LastOf(output, ExecuteTransformKind)).Ok?)
      && (op.Ok? && SchemaOf(output).None? ==> op.value.Some?)
  {
  }

  lemma RunInputsPlannedIff(w: World, source: Event, engine: Engine)
    requires Inv(w, source, engine)
    requires var prev := LastOf(w.output, ExecuteTransformKind);
      prev.Some? ==> |prev.value.queryInputs| == |source.inputs|
    ensures GetInputs(w.inputs, source.inputs, LastOf(w.output, ExecuteTransformKind)).Ok? <==>
      AllAvailable(w.inputs, source.inputs)
  {
    var prev := LastOf(w.output, ExecuteTransformKind);
    InputsPlannedIff(w.inputs, source.inputs, prev);
    forall i | 0 <= i < |source.inputs|
      ensures CanBePlanned(w.inputs, source.inputs, prev, i) <==> Available(w.inputs, source.inputs[i])
    {
      InputStateKnown(w, source, engine, i);
    }
  }

  /** In a run no input continues in offsets without continuing in blocks. */
  lemma RunInputsContinue(w: World, now: Time, request: Request, source: Event, engine: Engine)
    requires Inv(w, source, engine) && NextOperation(w.inputs, w.output, now) == Ok(Some(request))
    ensures OffsetsNeedBlocks(request)
  {
    PlannedInputs(w, now, request, source, engine);
    var entry := Entry(request, 0);
    var log := w.log + [entry];
    LogLinkedSnoc(w.inputs, w.log, entry, source.inputs);
    forall i | 0 <= i < |request.inputs|
      ensures request.inputs[i].newOffset.Some? ==> request.inputs[i].newBlock.Some?
    {
      OffsetsTracked(w.inputs, log, source.inputs, |w.log|, i);
    }
  }

  /** What remains of the checks for an operation of a run: the clock and the watermark. */
  lemma {:induction false} RunLinks(
      start: World, steps: seq<Step>, engine: Engine, now: Time, request: Request, response: Response)
    requires Begins(start)
    requires var w := Run(start, steps, engine); NextOperation(w.inputs, w.output, now) == Ok(Some(request))
    ensures var output := Run(start, steps, engine).output;
      && InputsContinue(output, request)
      && (FollowsStream(output, request, response) <==> WatermarkLe(QueryWatermark(output), response.watermark))
  {
    var w := Run(start, steps, engine);
    InvHolds(start, steps, engine);
    RunInputsContinue(w, now, request, LastOf(start.output, TransformKind).value, engine);
    RunKeepsQueriesOnly(start, steps, engine);
    PlannedQueryFollows(w.inputs, w.output, now, request);
  }

  /** The commit of an operation, by whether it sets the schema first. */
  lemma CommitCases(output: Hash, request: Request, response: Response)
    requires request.head == output && output != [] && request.schema == SchemaOf(output)
    requires QueryFollows(output, request) && WellFormedResponse(response)
    ensures var c, fits := Commit(request, response), NotOlder(output, request.systemTime);
      var head := if SetsSchema(request, response) && fits
        then output + [Block(request.systemTime, SetDataSchema(response.schema.value))] else output;
      var verdict := Validate(head, Block(request.systemTime, PrepareEvent(request, response)));
      && SameButForSchema(output, head)
      && (SchemaOf(head).Some? <==> request.schema.Some? || (SetsSchema(request, response) && fits))
      && (SetsSchema(request, response) && fits ==> NotOlder(head, request.systemTime))
      && (c.recorded <==>
        SchemaFits(request, response) && (SetsSchema(request, response) ==> fits) && verdict.Accepted?)
      && (c.error == Some(Panicked) <==>
            SchemaFits(request, response) && !SetsSchema(request, response) && verdict == Rejected(NoOpEvent))
      && (!c.recorded && c.error == None <==> SetsSchema(request, response) && fits && verdict == Rejected(NoOpEvent))
  {
    if SetsSchema(request, response) {
      var b := Block(request.systemTime, SetDataSchema(response.schema.value));
      SchemaKeepsRest(output, b);
      LastAppended(output, b, SchemaKind);
      assert (output + [b])[|output|] == b;
    }
  }

  /** What becomes of an operation of a run.  The query is recorded exactly if the schema fits,
      the clock and the watermark do not go back, the new data starts at the next offset and has
      a schema, and there is something to record; the checks on the sequence of inputs never
      refuse what was planned.  The commit panics exactly if no schema is set and there is
      nothing to record, and sets just the schema if that is all there is to do. */
  lemma {:induction false} RunCommitOutcome(
    start: World, steps: seq<Step>, engine: Engine, now: Time, request: Request, response: Response)
    requires Begins(start) && WellFormedResponse(response)
    requires var w := Run(start, steps, engine); NextOperation(w.inputs, w.output, now) == Ok(Some(request))
    ensures var output, c := Run(start, steps, engine).output, Commit(request, response);
      && output != []
      && (c.recorded <==>
            && SchemaFits(request, response) && SliceFits(request, response)
            && NotOlder(output, now) && WatermarkLe(QueryWatermark(output), response.watermark)
            && (response.interval.Some? ==> request.schema.Some? || response.schema.Some?)
            && !EmptyResponse(response) && !Repeats(output, request, response))
      && (c.error == Some(Panicked) <==>
            && SchemaFits(request, response) && !SetsSchema(request, response)
            && (EmptyResponse(response) || (NotOlder(output, now) && Repeats(output, request, response))))
      && (!c.recorded && c.error == None <==>
            && SetsSchema(request, response) && NotOlder(output, now)
            && (EmptyResponse(response) || Repeats(output, request, response)))
  {
    var w := Run(start, steps, engine);
    PlannedOperation(w.inputs, w.output, now, request);
    PlannedQueryFollows(w.inputs, w.output, now, request);
    RunLinks(start, steps, engine, now, request, response);
    CommitCases(w.output, request, response);
    if SetsSchema(request, response) && NotOlder(w.output, now) {
      var head := w.output + [Block(now, SetDataSchema(response.schema.value))];
      QueryVerdict(w.output, head, request, response);
    } else {
      QueryVerdict(w.output, w.output, request, response);
    }
  }
}
