/**
 The verification plan is the history of the run, and replaying it accepts every
 chain that was produced by a deterministic engine.
 */
module TransformReplay {
  import opened Wrappers
  import opened Odf
  import opened TransformModel
  import opened TransformRuns

  /******* Aliases *******/

  /** Inputs that name the same dataset use the same alias. */
  ghost predicate AliasesConsistent(decls: seq<TransformInput>) {
    forall i, j | 0 <= i < |decls| && 0 <= j < |decls| && decls[i].id == decls[j].id :: decls[i].alias == decls[j].alias
  }

  lemma {:induction false} AliasWitness(decls: seq<TransformInput>, i: nat) returns (j: nat)
    requires i < |decls|
    ensures j < |decls| && decls[j].id == decls[i].id && AliasOf(decls, decls[i].id) == Some(decls[j].alias)
  {
    var n := |decls| - 1;
    if decls[n].id == decls[i].id {
      j := n;
    } else {
      j := AliasWitness(decls[..n], i);
    }
  }

  lemma {:induction false} AliasesConsistentIff(decls: seq<TransformInput>)
    ensures AliasesConsistent(decls) <==>
      forall i | 0 <= i < |decls| :: AliasOf(decls, decls[i].id) == Some(decls[i].alias)
  {
    if AliasesConsistent(decls) {
      forall i | 0 <= i < |decls| ensures AliasOf(decls, decls[i].id) == Some(decls[i].alias) {
        var j := AliasWitness(decls, i);
      }
    }
  }

  /******* The plan is the history *******/

  ghost predicate SameInput(a: RequestInput, b: RequestInput) {
    ToQueryInput(a) == ToQueryInput(b) && a.alias == b.alias && a.slices == b.slices && a.watermarks == b.watermarks
  }

  /** Same blocks, offsets, slices and watermarks of every input, same transform, vocabulary,
      time, offset and checkpoint of the output. */
  ghost predicate SameOperation(a: Request, b: Request) {
    && a.transform == b.transform && a.systemTime == b.systemTime && a.vocab == b.vocab
    && a.prevOffset == b.prevOffset && a.prevCheckpoint == b.prevCheckpoint
    && |a.inputs| == |b.inputs|
    && forall i | 0 <= i < |a.inputs| :: SameInput(a.inputs[i], b.inputs[i])
  }

  lemma RebuiltInput(repo: Repo, decls: seq<TransformInput>, i: nat, original: RequestInput)
    requires i < |decls| && InputRecorded(repo, decls[i], original)
    ensures var r := RebuildInput(repo, decls, ToQueryInput(original));
      && r.Ok?
      && RebuiltAs(repo, decls, i, r.value, original)
  {
    var _ := AliasWitness(decls, i);
  }

  /** How one step of the plan relates to the operation it replays. */
  ghost predicate Rebuilds(
      repo: Repo, output: Hash, idx: nat, entry: Entry, decls: seq<TransformInput>, step: VerificationStep)
    requires idx < |output|
  {
    var p, r := step.request, entry.request;
    && step.expected == output[..idx + 1]
    && p.head == output[..idx] && CommittedOn(r, p.head) && p.schema == SchemaOf(output)
    && p.transform == r.transform && p.systemTime == r.systemTime && p.vocab == r.vocab
    && p.prevOffset == r.prevOffset && p.prevCheckpoint == r.prevCheckpoint
    && |p.inputs| == |r.inputs| == |decls|
    && forall i | 0 <= i < |decls| :: RebuiltAs(repo, decls, i, p.inputs[i], r.inputs[i])
  }

  lemma RebuiltStep(w: World, k: nat, source: Event, engine: Engine)
    requires Inv(w, source, engine) && k < |w.log|
    ensures var idx := Queries(w.output)[k];
      var r := RebuildStep(w.inputs, w.output, source, idx);
      r.Ok? && Rebuilds(w.inputs, w.output, idx, w.log[k], source.inputs, r.value)
  {
    var idx, request := Queries(w.output)[k], w.log[k].request;
    assert Recorded(w.output, idx, w.log[k], source, engine);
    assert LinkedAt(w.inputs, w.log, source.inputs, k);
    var qs := ToQueryInputs(request.inputs);
    assert w.output[idx].event.queryInputs == qs;
    forall i | 0 <= i < |qs| ensures RebuildInput(w.inputs, source.inputs, qs[i]).Ok? {
      RebuiltInput(w.inputs, source.inputs, i, request.inputs[i]);
    }
    InputsRebuild(w.inputs, source.inputs, qs);
    RebuiltInputs(w.inputs, source.inputs, request.inputs);
  }

  ghost predicate RebuiltAs(repo: Repo, decls: seq<TransformInput>, i: nat, p: RequestInput, r: RequestInput)
    requires i < |decls|
  {
    && r.id in repo && r.alias == decls[i].alias
    && ToQueryInput(p) == ToQueryInput(r) && p.slices == r.slices && p.watermarks == r.watermarks
    && Some(p.alias) == AliasOf(decls, decls[i].id)
    && p.vocab == VocabOf(repo[r.id]) && Some(p.schema) == SchemaOf(repo[r.id])
  }

  lemma {:induction false} RebuiltInputs(repo: Repo, decls: seq<TransformInput>, inputs: seq<RequestInput>)
    requires InputsRecorded(repo, decls, inputs)
    ensures var r := RebuildInputs(repo, decls, ToQueryInputs(inputs));
      r.Ok? ==> |r.value| == |decls| && forall i | 0 <= i < |decls| :: RebuiltAs(repo, decls, i, r.value[i], inputs[i])
  {
    var qs := ToQueryInputs(inputs);
    var r := RebuildInputs(repo, decls, qs);
    if r.Ok? {
      forall i | 0 <= i < |decls| ensures RebuiltAs(repo, decls, i, r.value[i], inputs[i]) {
        RebuiltInput(repo, decls, i, inputs[i]);
        assert RebuildInput(repo, decls, qs[i]) == Ok(r.value[i]);
      }
    }
  }

  /** The plan has one step per recorded query, in order. */
  ghost predicate PlanMatches(w: World, source: Event, plan: seq<VerificationStep>)
    requires source.SetTransform?
  {
    && |plan| == |w.log| == |Queries(w.output)|
    && forall k | 0 <= k < |plan| ::
         Rebuilds(w.inputs, w.output, Queries(w.output)[k], w.log[k], source.inputs, plan[k])
  }

  lemma {:induction false} PlanRebuilds(w: World, source: Event, engine: Engine)
    requires Inv(w, source, engine)
    ensures var plan := RebuildSteps(w.inputs, w.output, source, Queries(w.output));
      plan.Ok? && PlanMatches(w, source, plan.value)
  {
    var ks := Queries(w.output);
    forall k | 0 <= k < |ks|
      ensures var r := RebuildStep(w.inputs, w.output, source, ks[k]);
        r.Ok? && Rebuilds(w.inputs, w.output, ks[k], w.log[k], source.inputs, r.value)
    {
      RebuiltStep(w, k, source, engine);
    }
    StepsRebuild(w.inputs, w.output, source, ks);
    var plan := RebuildSteps(w.inputs, w.output, source, ks);
    forall k | 0 <= k < |ks|
      ensures Rebuilds(w.inputs, w.output, ks[k], w.log[k], source.inputs, plan.value[k])
    {
      assert RebuildStep(w.inputs, w.output, source, ks[k]) == Ok(plan.value[k]);
    }
  }

  /** In every reachable state the plan can be rebuilt, has one step per recorded query in
      order, and its steps are the operations of the run if and only if no dataset is used
      as an input under two aliases. */
  lemma {:induction false} PlanIsHistory(start: World, steps: seq<Step>, engine: Engine)
    requires Fresh(start)
    ensures var w, source := Run(start, steps, engine), LastOf(start.output, TransformKind).value;
      var plan := RebuildSteps(w.inputs, w.output, source, Queries(w.output));
      && plan.Ok? && PlanMatches(w, source, plan.value)
      && (w.log != [] ==>
            ((forall k | 0 <= k < |w.log| :: SameOperation(plan.value[k].request, w.log[k].request)) <==>
             AliasesConsistent(source.inputs)))
  {
    var w, source := Run(start, steps, engine), LastOf(start.output, TransformKind).value;
    InvHolds(start, steps, engine);
    PlanRebuilds(w, source, engine);
    PlanFollowsAliases(w, source, RebuildSteps(w.inputs, w.output, source, Queries(w.output)).value);
  }

  lemma PlanFollowsAliases(w: World, source: Event, plan: seq<VerificationStep>)
    requires source.SetTransform? && PlanMatches(w, source, plan)
    ensures w.log != [] ==>
      ((forall k | 0 <= k < |w.log| :: SameOperation(plan[k].request, w.log[k].request)) <==>
        AliasesConsistent(source.inputs))
  {
    var decls := source.inputs;
    AliasesConsistentIff(decls);
    forall k | 0 <= k < |plan|
      ensures SameOperation(plan[k].request, w.log[k].request) <==>
        forall i | 0 <= i < |decls| :: AliasOf(decls, decls[i].id) == Some(decls[i].alias)
    {
      SameOperationByAliases(w.inputs, w.output, Queries(w.output)[k], w.log[k], decls, plan[k]);
    }
    if w.log != [] {
      assert SameOperation(plan[0].request, w.log[0].request) <==>
        forall i | 0 <= i < |decls| :: AliasOf(decls, decls[i].id) == Some(decls[i].alias);
    }
  }

  lemma {:induction false} SameOperationByAliases(
      repo: Repo, output: Hash, idx: nat, entry: Entry, decls: seq<TransformInput>, step: VerificationStep)
    requires idx < |output| && Rebuilds(repo, output, idx, entry, decls, step)
    ensures SameOperation(step.request, entry.request) <==>
      forall i | 0 <= i < |decls| :: AliasOf(decls, decls[i].id) == Some(decls[i].alias)
  {
    var p, r := step.request, entry.request;
    if SameOperation(p, r) {
      forall i | 0 <= i < |decls| ensures AliasOf(decls, decls[i].id) == Some(decls[i].alias) {
        assert SameInput(p.inputs[i], r.inputs[i]) && RebuiltAs(repo, decls, i, p.inputs[i], r.inputs[i]);
      }
    }
    if forall i | 0 <= i < |decls| :: AliasOf(decls, decls[i].id) == Some(decls[i].alias) {
      forall i | 0 <= i < |decls| ensures SameInput(p.inputs[i], r.inputs[i]) {
        assert RebuiltAs(repo, decls, i, p.inputs[i], r.inputs[i]);
      }
    }
  }

  /******* Input vocabularies and schemas *******/

  ghost predicate InputViewed(repo: Repo, i: RequestInput) {
    i.id in repo && i.vocab == VocabOf(repo[i.id]) && Some(i.schema) == SchemaOf(repo[i.id])
  }

  ghost predicate Viewed(repo: Repo, request: Request) {
    forall i | 0 <= i < |request.inputs| :: InputViewed(repo, request.inputs[i])
  }

  ghost predicate LogViewed(repo: Repo, log: seq<Entry>) {
    forall k | 0 <= k < |log| :: Viewed(repo, log[k].request)
  }

  /******* Runs in which inputs keep what operations have seen *******/

  /** Some operation has seen the dataset. */
  ghost predicate Seen(log: seq<Entry>, id: DatasetId) {
    exists k, i | 0 <= k < |log| && 0 <= i < |log[k].request.inputs| :: log[k].request.inputs[i].id == id
  }

  /** The step does not change the vocabulary or the schema of a dataset that some operation of
      the run has seen already. */
  ghost predicate StepKeepsViews(w: World, s: Step, engine: Engine) {
    s.AppendInput? && s.id in w.inputs && Seen(w.log, s.id) ==>
      var after := Advance(w, s, engine).inputs[s.id];
      VocabOf(after) == VocabOf(w.inputs[s.id]) && SchemaOf(after) == SchemaOf(w.inputs[s.id])
  }

  ghost predicate RunKeepsViews(w: World, steps: seq<Step>, engine: Engine) {
    forall n | 0 <= n < |steps| :: StepKeepsViews(Run(w, steps[..n], engine), steps[n], engine)
  }

  lemma PlannedView(repo: Repo, decl: TransformInput, state: Option<QueryInput>, i: RequestInput)
    requires GetTransformInput(repo, decl, state) == Ok(i)
    ensures InputViewed(repo, i)
  {
  }

  lemma ObtainedViews(
      repo: Repo, decls: seq<TransformInput>, prev: Option<Event>, inputs: seq<RequestInput>)
    requires prev.Some? ==> prev.value.ExecuteTransform? && |prev.value.queryInputs| == |decls|
    requires GetInputs(repo, decls, prev) == Ok(inputs)
    ensures forall i | 0 <= i < |inputs| :: InputViewed(repo, inputs[i])
  {
    forall i | 0 <= i < |inputs| ensures InputViewed(repo, inputs[i]) {
      InputObtained(repo, decls, prev, inputs, i);
      PlannedView(repo, decls[i], InputState(prev, i), inputs[i]);
    }
  }

  lemma PlannedViews(repo: Repo, output: Hash, now: Time, request: Request)
    requires NextOperation(repo, output, now) == Ok(Some(request))
    ensures Viewed(repo, request)
  {
    ObtainedViews(repo, LastOf(output, TransformKind).value.inputs, LastOf(output, ExecuteTransformKind),
      request.inputs);
  }

  lemma StepViews(w: World, s: Step, engine: Engine)
    requires LogViewed(w.inputs, w.log) && StepKeepsViews(w, s, engine)
    ensures LogViewed(Advance(w, s, engine).inputs, Advance(w, s, engine).log)
  {
    match s {
      case AppendInput(id, b) =>
        var inputs := Advance(w, s, engine).inputs;
        forall k, i | 0 <= k < |w.log| && 0 <= i < |w.log[k].request.inputs|
          ensures InputViewed(inputs, w.log[k].request.inputs[i])
        {
          assert Viewed(w.inputs, w.log[k].request) && InputViewed(w.inputs, w.log[k].request.inputs[i]);
          assert w.log[k].request.inputs[i].id == id ==> Seen(w.log, id);
        }
      case RunTransform(now, run) =>
        var op := NextOperation(w.inputs, w.output, now);
        if op.Ok? && op.value.Some? {
          PlannedViews(w.inputs, w.output, now, op.value.value);
        }
    }
  }

  /** In such a run the inputs show at the end what every operation has seen of them. */
  lemma {:induction false} ViewsHold(start: World, steps: seq<Step>, engine: Engine)
    requires start.log == [] && RunKeepsViews(start, steps, engine)
    ensures LogViewed(Run(start, steps, engine).inputs, Run(start, steps, engine).log)
  {
    if steps == [] {
    } else {
      var n := |steps| - 1;
      forall m | 0 <= m < n ensures StepKeepsViews(Run(start, steps[..n][..m], engine), steps[..n][m], engine) {
        assert steps[..n][..m] == steps[..m];
      }
      ViewsHold(start, steps[..n], engine);
      StepViews(Run(start, steps[..n], engine), steps[n], engine);
    }
  }

  lemma SameEngineView(
      repo: Repo, output: Hash, idx: nat, entry: Entry, decls: seq<TransformInput>, step: VerificationStep)
    requires idx < |output| && Rebuilds(repo, output, idx, entry, decls, step)
    requires SameOperation(step.request, entry.request) && Viewed(repo, entry.request)
    ensures EngineView(step.request) == EngineView(entry.request)
    ensures ToQueryInputs(step.request.inputs) == ToQueryInputs(entry.request.inputs)
  {
    var p, r := step.request, entry.request;
    forall i | 0 <= i < |p.inputs| ensures p.inputs[i] == r.inputs[i] {
      assert SameInput(p.inputs[i], r.inputs[i]) && InputViewed(repo, r.inputs[i]);
      assert RebuiltAs(repo, decls, i, p.inputs[i], r.inputs[i]);
    }
    assert p.inputs == r.inputs;
  }

  lemma {:induction false} SameEngineInputIff(
      repo: Repo, decls: seq<TransformInput>, i: nat, p: RequestInput, r: RequestInput)
    requires i < |decls| && RebuiltAs(repo, decls, i, p, r)
    ensures EngineInputOf(p) == EngineInputOf(r) <==>
      Some(r.alias) == AliasOf(decls, decls[i].id) && InputViewed(repo, r)
  {
  }

  /** A step is replayed with the same engine request exactly if the alias of every input is the
      one that its dataset resolves to, and every input still shows the vocabulary and the schema
      that it showed then. */
  lemma {:induction false} EngineViewReplayedIff(
    repo: Repo, output: Hash, idx: nat, entry: Entry, decls: seq<TransformInput>, step: VerificationStep)
    requires idx < |output| && Rebuilds(repo, output, idx, entry, decls, step)
    ensures EngineView(step.request) == EngineView(entry.request) <==>
      forall i | 0 <= i < |decls| ::
        Some(entry.request.inputs[i].alias) == AliasOf(decls, decls[i].id) && InputViewed(repo, entry.request.inputs[i])
  {
    var p, r := step.request, entry.request;
    var a, b := EngineView(p).inputs, EngineView(r).inputs;
    forall i | 0 <= i < |decls|
      ensures a[i] == b[i] <==> Some(r.inputs[i].alias) == AliasOf(decls, decls[i].id) && InputViewed(repo, r.inputs[i])
    {
      assert RebuiltAs(repo, decls, i, p.inputs[i], r.inputs[i]);
      SameEngineInputIff(repo, decls, i, p.inputs[i], r.inputs[i]);
    }
    assert a == b <==> forall i | 0 <= i < |decls| :: a[i] == b[i];
  }

  /******* Replaying the plan *******/

  /** The replayed event with what is not reproducible taken from the recorded one: physical
      hash and size of the data, and the checkpoint. */
  function Masked(actual: Event, expected: Event): Event
    requires actual.ExecuteTransform? && expected.ExecuteTransform?
  {
    var a, e := actual.stream, expected.stream;
    var data := if a.newData.Some? && e.newData.Some?
      then Some(a.newData.value.(physicalHash := e.newData.value.physicalHash, size := e.newData.value.size))
      else a.newData;
    actual.(stream := a.(newData := data, newCheckpoint := e.newCheckpoint))
  }

  /** Replaying the request gives the recorded event, up to what is not reproducible. */
  predicate Reproduces(step: VerificationStep, engine: Engine, run: nat)
    requires step.expected != [] && step.expected[|step.expected| - 1].event.ExecuteTransform?
  {
    var response := engine(EngineView(step.request), run);
    var expected := step.expected[|step.expected| - 1].event;
    WellFormedResponse(response) && Masked(PrepareEvent(step.request, response), expected) == expected
  }

  /** What reproduction means: the recorded and the replayed event agree on the inputs, the
      offsets, the watermark, and the rows. */
  lemma ReproducesMeans(step: VerificationStep, engine: Engine, run: nat)
    requires step.expected != [] && step.expected[|step.expected| - 1].event.ExecuteTransform?
    requires WellFormedResponse(engine(EngineView(step.request), run))
    ensures Reproduces(step, engine, run) <==>
      var actual := PrepareEvent(step.request, engine(EngineView(step.request), run));
      var expected := step.expected[|step.expected| - 1].event;
      var a, e := actual.stream, expected.stream;
      && actual.queryInputs == expected.queryInputs
      && a.prevOffset == e.prevOffset && a.prevCheckpoint == e.prevCheckpoint && a.newWatermark == e.newWatermark
      && (a.newData.Some? <==> e.newData.Some?)
      && (a.newData.Some? ==>
            && a.newData.value.logicalHash == e.newData.value.logicalHash
            && a.newData.value.start == e.newData.value.start && a.newData.value.end == e.newData.value.end)
  {
  }

  datatype Logical = Logical(interval: Option<OffsetInterval>, watermark: Option<Time>, rows: Option<seq<Row>>)

  function LogicalOf(r: Response): Logical {
    Logical(r.interval, r.watermark, if r.data.Some? then Some(r.data.value.rows) else None)
  }

  /** Runs of the engine on the same request agree on the offsets, the watermark and the rows. */
  ghost predicate Deterministic(engine: Engine) {
    forall r, m, n :: LogicalOf(engine(r, m)) == LogicalOf(engine(r, n))
  }

  lemma StepReproduces(
      repo: Repo, output: Hash, idx: nat, entry: Entry, source: Event, step: VerificationStep, engine: Engine, run: nat)
    requires Deterministic(engine)
    requires idx < |output| && source.SetTransform? && Recorded(output, idx, entry, source, engine)
    requires Rebuilds(repo, output, idx, entry, source.inputs, step)
    requires SameOperation(step.request, entry.request) && Viewed(repo, entry.request)
    ensures Reproduces(step, engine, run)
  {
    SameEngineView(repo, output, idx, entry, source.inputs, step);
    var view := EngineView(step.request);
    assert LogicalOf(engine(view, run)) == LogicalOf(engine(view, entry.run));
    assert step.expected[|step.expected| - 1] == output[idx];
  }

  ghost predicate PlanReproduced(w: World, plan: seq<VerificationStep>, engine: Engine, run: nat) {
    && |plan| == |w.log| == |Queries(w.output)|
    && forall k | 0 <= k < |plan| ::
         && plan[k].expected == w.output[..Queries(w.output)[k] + 1]
         && Reproduces(plan[k], engine, run)
  }

  lemma PlanReproduces(
      w: World, source: Event, plan: seq<VerificationStep>, engine: Engine, run: nat)
    requires Deterministic(engine) && source.SetTransform?
    requires LogRecorded(w.output, w.log, source, engine) && LogViewed(w.inputs, w.log) && PlanMatches(w, source, plan)
    requires forall k | 0 <= k < |plan| :: SameOperation(plan[k].request, w.log[k].request)
    ensures PlanReproduced(w, plan, engine, run)
  {
    forall k | 0 <= k < |plan|
      ensures plan[k].expected == w.output[..Queries(w.output)[k] + 1] && Reproduces(plan[k], engine, run)
    {
      assert Rebuilds(w.inputs, w.output, Queries(w.output)[k], w.log[k], source.inputs, plan[k]);
      assert Recorded(w.output, Queries(w.output)[k], w.log[k], source, engine);
      assert Viewed(w.inputs, w.log[k].request);
      StepReproduces(w.inputs, w.output, Queries(w.output)[k], w.log[k], source, plan[k], engine, run);
    }
  }

  /** Every chain produced by transform runs of a deterministic engine verifies, as long as the
      inputs show the vocabularies and schemas that the operations have seen. */
  lemma {:induction false} EveryRunVerifies(start: World, steps: seq<Step>, engine: Engine, run: nat)
    requires Fresh(start) && Deterministic(engine)
    requires var w := Run(start, steps, engine); LogViewed(w.inputs, w.log)
    requires Run(start, steps, engine).log != [] ==> AliasesConsistent(LastOf(start.output, TransformKind).value.inputs)
    ensures var w, source := Run(start, steps, engine), LastOf(start.output, TransformKind).value;
      var plan := RebuildSteps(w.inputs, w.output, source, Queries(w.output));
      plan.Ok? && PlanReproduced(w, plan.value, engine, run)
  {
    var w, source := Run(start, steps, engine), LastOf(start.output, TransformKind).value;
    InvHolds(start, steps, engine);
    PlanRebuilds(w, source, engine);
    var plan := RebuildSteps(w.inputs, w.output, source, Queries(w.output)).value;
    PlanFollowsAliases(w, source, plan);
    PlanReproduces(w, source, plan, engine, run);
  }
}
