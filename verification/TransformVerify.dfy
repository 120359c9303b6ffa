/**
 Verification of derivative datasets: the plan is rebuilt from the chain, from a tail
 on, and replayed step by step.
 */
module TransformVerify {
  import opened Wrappers
  import opened Odf
  import opened TransformModel
  import opened TransformRuns
  import opened TransformReplay

  /******* Planning the verification *******/

  datatype VerificationError =
    | InvalidInterval(tail: Hash)
    | SourceNotFound
    | PlanFailed(cause: TransformError)
    | DataNotReproducible(block: Hash)

  /** Positions of the recorded queries at or after sequence number t, oldest first. */
  function QueriesFrom(c: Hash, t: nat): seq<nat> {
    if c == [] then []
    else
      var n := |c| - 1;
      QueriesFrom(c[..n], t) + if t <= n && c[n].event.ExecuteTransform? then [n] else []
  }

  lemma {:induction false} QueriesFromExact(c: Hash, t: nat)
    ensures QueryPlaces(c, t, QueriesFrom(c, t))
  {
    if c == [] {
    } else {
      var n := |c| - 1;
      QueriesFromExact(c[..n], t);
      forall i, j | 0 <= i < j < |QueriesFrom(c, t)|
        ensures QueriesFrom(c, t)[i] < QueriesFrom(c, t)[j]
      {
        if j == |QueriesFrom(c[..n], t)| {
          assert QueriesFrom(c[..n], t)[i] in QueriesFrom(c[..n], t);
        }
      }
    }
  }

  lemma {:induction false} QueriesFromStart(c: Hash)
    ensures QueriesFrom(c, 0) == Queries(c)
  {
    if c == [] {
    } else {
      QueriesFromStart(c[..|c| - 1]);
    }
  }

  lemma {:induction false} NoQueriesBefore(c: Hash, i: nat, t: nat)
    requires i <= |c| && i <= t
    ensures QueriesFrom(c[..i], t) == []
  {
    if i == 0 {
    } else {
      NoQueriesBefore(c, i - 1, t);
      assert c[..i][..i - 1] == c[..i - 1];
    }
  }

  lemma {:induction false} QueriesFromStep(c: Hash, i: nat, t: nat, later: seq<nat>)
    requires i < |c|
    ensures QueriesFrom(c[..i + 1], t) + later ==
      QueriesFrom(c[..i], t) + if t <= i && c[i].event.ExecuteTransform? then [i] + later else later
  {
    assert c[..i + 1][..i] == c[..i];
    assert QueriesFrom(c[..i], t) + [i] + later == QueriesFrom(c[..i], t) + ([i] + later);
  }

  /** Number of queries recorded before sequence number t. */
  function Earlier(c: Hash, t: nat): nat {
    if c == [] then 0
    else
      var n := |c| - 1;
      Earlier(c[..n], t) + if n < t && c[n].event.ExecuteTransform? then 1 else 0
  }

  /** The queries at or after a sequence number are the later part of all queries. */
  lemma {:induction false} QueriesFromSuffix(c: Hash, t: nat)
    ensures Earlier(c, t) <= |Queries(c)| && QueriesFrom(c, t) == Queries(c)[Earlier(c, t)..]
    ensures |c| <= t ==> Earlier(c, t) == |Queries(c)|
  {
    if c == [] {
    } else {
      QueriesFromSuffix(c[..|c| - 1], t);
    }
  }

  /** Sequence number of the tail block, or of the first block if there is none. */
  function TailNumber(tail: Option<Hash>): nat
    requires tail.Some? ==> tail.value != []
  {
    if tail.Some? then |tail.value| - 1 else 0
  }

  /** A query is recorded at the tail or before it. */
  ghost predicate TailReached(output: Hash, tail: Option<Hash>)
    requires tail.Some? ==> tail.value != []
  {
    tail.Some? ==> exists k :: 0 <= k < |output| && k <= TailNumber(tail) && output[k].event.ExecuteTransform?
  }

  /** Walks from the head and collects the queries until the tail is reached; they are returned
      oldest first. */
  method CollectQueries(output: Hash, tail: Option<Hash>) returns (queries: seq<nat>, finished: bool)
    requires tail.Some? ==> tail.value != []
    ensures queries == QueriesFrom(output, TailNumber(tail))
    ensures tail.Some? ==> (finished <==> TailReached(output, tail))
  {
    ghost var t := TailNumber(tail);
    queries, finished := [], false;
    var i := |output|;
    assert output[..i] == output;
    while i > 0 && !finished
      invariant 0 <= i <= |output|
      invariant QueriesFrom(output[..i], t) + queries == QueriesFrom(output, t)
      invariant finished ==> QueriesFrom(output[..i], t) == [] && TailReached(output, tail)
      invariant tail.Some? && !finished ==> forall k | i <= k < |output| && k <= t :: !output[k].event.ExecuteTransform?
    {
      i := i - 1;
      QueriesFromStep(output, i, t, queries);
      if output[i].event.ExecuteTransform? {
        if tail.Some? && i < |tail.value| - 1 {
          NoQueriesBefore(output, i + 1, t);
          NoQueriesBefore(output, i, t);
          finished := true;
        } else {
          queries := [i] + queries;
          if tail.Some? && i == |tail.value| - 1 {
            NoQueriesBefore(output, i, t);
            finished := true;
          }
        }
      }
    }
  }

  /** Every declared input is known, or the first unknown one. */
  function MissingInput(repo: Repo, decls: seq<TransformInput>): Option<DatasetId> {
    if decls == [] then None
    else if decls[0].id !in repo then Some(decls[0].id)
    else MissingInput(repo, decls[1..])
  }

  type Steps = Result<seq<VerificationStep>, TransformError>

  function After(plan: seq<VerificationStep>, rest: Steps): Steps {
    if rest.Err? then rest else Ok(plan + rest.value)
  }

  lemma {:induction false} RebuildNext(
      repo: Repo, output: Hash, source: Event, queries: seq<nat>, i: nat, plan: seq<VerificationStep>)
    requires source.SetTransform? && i < |queries|
    ensures var step := RebuildStep(repo, output, source, queries[i]);
      After(plan, RebuildSteps(repo, output, source, queries[i..])) ==
        if step.Err? then Err(step.error)
        else After(plan + [step.value], RebuildSteps(repo, output, source, queries[i + 1..]))
  {
    var step, next := RebuildStep(repo, output, source, queries[i]),
      RebuildSteps(repo, output, source, queries[i + 1..]);
    assert queries[i..][0] == queries[i] && queries[i..][1..] == queries[i + 1..];
    if step.Ok? && next.Ok? {
      assert plan + ([step.value] + next.value) == plan + [step.value] + next.value;
    }
  }

  /** Rebuilds the operations in order; the first failure is reported. */
  method RebuildPlan(repo: Repo, output: Hash, source: Event, queries: seq<nat>) returns (r: Steps)
    requires source.SetTransform?
    ensures r == RebuildSteps(repo, output, source, queries)
  {
    ghost var all := RebuildSteps(repo, output, source, queries);
    var plan: seq<VerificationStep> := [];
    var i := 0;
    assert queries[0..] == queries;
    assert all.Ok? ==> plan + all.value == all.value;
    while i < |queries|
      invariant 0 <= i <= |queries|
      invariant all == After(plan, RebuildSteps(repo, output, source, queries[i..]))
    {
      RebuildNext(repo, output, source, queries, i, plan);
      var step := RebuildStep(repo, output, source, queries[i]);
      if step.Err? {
        return Err(step.error);
      }
      plan := plan + [step.value];
      i := i + 1;
    }
    assert queries[i..] == [] && plan + [] == plan;
    r := Ok(plan);
  }

  /** The operations to replay, oldest first, from the tail (inclusive) to the head.  A tail is
      refused exactly when no query is recorded at it or before it. */
  ghost function PlanOf(repo: Repo, output: Hash, tail: Option<Hash>): Result<seq<VerificationStep>, VerificationError>
    requires tail.Some? ==> tail.value != []
  {
    if !TailReached(output, tail) then Err(VerificationError.InvalidInterval(tail.value))
    else
      var source := LastOf(output, TransformKind);
      if source.None? then Err(SourceNotFound)
      else
        var missing := MissingInput(repo, source.value.inputs);
        if missing.Some? then Err(PlanFailed(DatasetNotFound(missing.value)))
        else
          var steps := RebuildSteps(repo, output, source.value, QueriesFrom(output, TailNumber(tail)));
          if steps.Err? then Err(PlanFailed(steps.error)) else Ok(steps.value)
  }

  predicate ExpectedAt(output: Hash, k: nat, step: VerificationStep) {
    k < |output| && step.expected == output[..k + 1]
  }

  /** Step by step the plan expects the blocks at the given places. */
  ghost predicate ExpectsAt(output: Hash, ks: seq<nat>, plan: seq<VerificationStep>) {
    |plan| == |ks| && forall j | 0 <= j < |ks| :: ExpectedAt(output, ks[j], plan[j])
  }

  /** The places of the queries recorded at the tail or later, in ascending order. */
  ghost predicate QueryPlaces(output: Hash, t: nat, ks: seq<nat>) {
    && (forall i, j | 0 <= i < j < |ks| :: ks[i] < ks[j])
    && (forall p: nat :: p in ks <==> t <= p < |output| && output[p].event.ExecuteTransform?)
  }

  /** The plan expects, in order, exactly the queries recorded at the tail or later. */
  ghost predicate ExpectsQueries(output: Hash, t: nat, plan: seq<VerificationStep>) {
    exists ks :: QueryPlaces(output, t, ks) && ExpectsAt(output, ks, plan)
  }

  lemma PlanExpectsAt(repo: Repo, output: Hash, source: Event, ks: seq<nat>)
    requires source.SetTransform?
    ensures var plan := RebuildSteps(repo, output, source, ks); plan.Ok? ==> ExpectsAt(output, ks, plan.value)
  {
    var plan := RebuildSteps(repo, output, source, ks);
    StepsRebuild(repo, output, source, ks);
    if plan.Ok? {
      forall j | 0 <= j < |ks|
        ensures ExpectedAt(output, ks[j], plan.value[j])
      {
        assert RebuildStep(repo, output, source, ks[j]) == Ok(plan.value[j]);
      }
    }
  }

  lemma PlanExpects(repo: Repo, output: Hash, source: Event, t: nat)
    requires source.SetTransform?
    ensures var plan := RebuildSteps(repo, output, source, QueriesFrom(output, t));
      plan.Ok? ==> ExpectsQueries(output, t, plan.value)
  {
    QueriesFromExact(output, t);
    PlanExpectsAt(repo, output, source, QueriesFrom(output, t));
  }

  lemma AllKnown(repo: Repo, output: Hash, tail: Option<Hash>)
    requires tail.Some? ==> tail.value != []
    ensures var plan, source := PlanOf(repo, output, tail), LastOf(output, TransformKind);
      plan.Ok? ==>
        && source.Some? && (forall i | 0 <= i < |source.value.inputs| :: source.value.inputs[i].id in repo)
        && ExpectsQueries(output, TailNumber(tail), plan.value)
  {
    if PlanOf(repo, output, tail).Ok? {
      var source := LastOf(output, TransformKind).value;
      MissingIsFirst(repo, source.inputs);
      PlanExpects(repo, output, source, TailNumber(tail));
    }
  }

  lemma {:induction false} MissingIsFirst(repo: Repo, decls: seq<TransformInput>)
    ensures MissingInput(repo, decls).None? <==> forall i | 0 <= i < |decls| :: decls[i].id in repo
    ensures MissingInput(repo, decls).Some? ==>
      exists i | 0 <= i < |decls| ::
        && decls[i].id !in repo && MissingInput(repo, decls) == Some(decls[i].id)
        && forall j | 0 <= j < i :: decls[j].id in repo
  {
    if decls == [] {
    } else if decls[0].id in repo {
      MissingIsFirst(repo, decls[1..]);
      if MissingInput(repo, decls).Some? {
        var i :| 0 <= i < |decls| - 1 && decls[1..][i].id !in repo &&
          MissingInput(repo, decls[1..]) == Some(decls[1..][i].id) && forall j | 0 <= j < i :: decls[1..][j].id in repo;
        forall j | 0 <= j < i + 1
          ensures decls[j].id in repo
        {
          assert j > 0 ==> decls[j] == decls[1..][j - 1];
        }
        assert decls[i + 1].id !in repo;
      } else {
        forall i | 0 <= i < |decls|
          ensures decls[i].id in repo
        {
          assert i > 0 ==> decls[i] == decls[1..][i - 1];
        }
      }
    }
  }

  method GetVerificationPlan(repo: Repo, output: Hash, tail: Option<Hash>)
    returns (r: Result<seq<VerificationStep>, VerificationError>)
    requires tail.Some? ==> tail.value != []
    ensures r == PlanOf(repo, output, tail)
    ensures r.Err? && r.error.InvalidInterval? <==>
      tail.Some? && forall k | 0 <= k < |output| && k < |tail.value| :: !output[k].event.ExecuteTransform?
    ensures r.Ok? ==>
      var source := LastOf(output, TransformKind);
      && source.Some? && (forall i | 0 <= i < |source.value.inputs| :: source.value.inputs[i].id in repo)
      && ExpectsQueries(output, TailNumber(tail), r.value)
  {
    var queries, finished := CollectQueries(output, tail);
    if tail.Some? && !finished {
      return Err(VerificationError.InvalidInterval(tail.value));
    }
    var source := LastOf(output, TransformKind);
    if source.None? {
      return Err(SourceNotFound);
    }
    var missing := MissingInput(repo, source.value.inputs);
    if missing.Some? {
      return Err(PlanFailed(DatasetNotFound(missing.value)));
    }
    var plan := RebuildPlan(repo, output, source.value, queries);
    AllKnown(repo, output, tail);
    r := if plan.Err? then Err(PlanFailed(plan.error)) else Ok(plan.value);
  }

  /******* Verifying *******/

  ghost predicate AllReproduce(plan: seq<VerificationStep>, n: nat, engine: Engine, run: nat)
    requires n <= |plan|
  {
    forall k | 0 <= k < n ::
      && plan[k].expected != [] && plan[k].expected[|plan[k].expected| - 1].event.ExecuteTransform?
      && Reproduces(plan[k], engine, run)
  }

  /** Replays the plan in order and stops at the first block that is not reproduced. */
  method ReplayPlan(plan: seq<VerificationStep>, engine: Engine, run: nat) returns (r: Result<(), VerificationError>)
    requires PlanNamesQueries(plan)
    ensures r.Ok? <==> AllReproduce(plan, |plan|, engine, run)
    ensures r.Err? ==> exists k | 0 <= k < |plan| ::
      && !Reproduces(plan[k], engine, run) && AllReproduce(plan, k, engine, run)
      && (r.error == DataNotReproducible(plan[k].expected) || r.error == PlanFailed(Panicked))
  {
    var i := 0;
    while i < |plan|
      invariant 0 <= i <= |plan|
      invariant AllReproduce(plan, i, engine, run)
    {
      var expected := plan[i].expected[|plan[i].expected| - 1].event;
      var response := engine(EngineView(plan[i].request), run);
      if !WellFormedResponse(response) {
        return Err(PlanFailed(Panicked));
      }
      var actual := Masked(PrepareEvent(plan[i].request, response), expected);
      if expected != actual {
        return Err(DataNotReproducible(plan[i].expected));
      }
      i := i + 1;
    }
    r := Ok(());
  }

  ghost predicate PlanNamesQueries(plan: seq<VerificationStep>) {
    forall k | 0 <= k < |plan| ::
      plan[k].expected != [] && plan[k].expected[|plan[k].expected| - 1].event.ExecuteTransform?
  }

  lemma {:induction false} RebuiltNamesQueries(repo: Repo, output: Hash, source: Event, ks: seq<nat>)
    requires source.SetTransform?
    ensures var plan := RebuildSteps(repo, output, source, ks); plan.Ok? ==> PlanNamesQueries(plan.value)
  {
    StepsRebuild(repo, output, source, ks);
    var plan := RebuildSteps(repo, output, source, ks);
    if plan.Ok? {
      forall k | 0 <= k < |ks|
        ensures plan.value[k].expected != []
        ensures plan.value[k].expected[|plan.value[k].expected| - 1].event.ExecuteTransform?
      {
        assert RebuildStep(repo, output, source, ks[k]) == Ok(plan.value[k]);
      }
    }
  }

  /** The plan can be rebuilt and every step of it is reproduced. */
  ghost predicate Verifies(repo: Repo, output: Hash, tail: Option<Hash>, engine: Engine, run: nat)
    requires tail.Some? ==> tail.value != []
  {
    var plan := PlanOf(repo, output, tail);
    plan.Ok? && AllReproduce(plan.value, |plan.value|, engine, run)
  }

  /** Verification of a dataset succeeds exactly when every recorded query is reproduced. */
  method VerifyTransform(repo: Repo, output: Hash, tail: Option<Hash>, engine: Engine, run: nat)
    returns (r: Result<(), VerificationError>)
    requires tail.Some? ==> tail.value != []
    ensures r.Ok? <==> Verifies(repo, output, tail, engine, run)
  {
    var plan := GetVerificationPlan(repo, output, tail);
    if plan.Err? {
      return Err(plan.error);
    }
    RebuiltNamesQueries(repo, output, LastOf(output, TransformKind).value, QueriesFrom(output, TailNumber(tail)));
    r := ReplayPlan(plan.value, engine, run);
  }

  lemma {:induction false} WholePlan(repo: Repo, output: Hash, source: Event)
    requires LastOf(output, TransformKind) == Some(source) && MissingInput(repo, source.inputs).None?
    requires RebuildSteps(repo, output, source, Queries(output)).Ok?
    ensures PlanOf(repo, output, None) == Ok(RebuildSteps(repo, output, source, Queries(output)).value)
    ensures PlanNamesQueries(RebuildSteps(repo, output, source, Queries(output)).value)
  {
    QueriesFromStart(output);
    RebuiltNamesQueries(repo, output, source, Queries(output));
  }

  lemma {:induction false} NoInputMissing(repo: Repo, decls: seq<TransformInput>)
    requires forall i | 0 <= i < |decls| :: decls[i].id in repo
    ensures MissingInput(repo, decls).None?
  {
    if decls == [] {
    } else {
      NoInputMissing(repo, decls[1..]);
    }
  }

  lemma RecordedInputsExist(w: World, source: Event, engine: Engine)
    requires Inv(w, source, engine) && w.log != []
    ensures MissingInput(w.inputs, source.inputs).None?
  {
    assert LinkedAt(w.inputs, w.log, source.inputs, 0);
    forall i | 0 <= i < |source.inputs|
      ensures source.inputs[i].id in w.inputs
    {
      assert InputRecorded(w.inputs, source.inputs[i], w.log[0].request.inputs[i]);
    }
    NoInputMissing(w.inputs, source.inputs);
  }

  lemma {:induction false} StepsFrom(repo: Repo, output: Hash, source: Event, ks: seq<nat>, n: nat)
    requires source.SetTransform? && n <= |ks| && RebuildSteps(repo, output, source, ks).Ok?
    ensures RebuildSteps(repo, output, source, ks[n..]) == Ok(RebuildSteps(repo, output, source, ks).value[n..])
    decreases n
  {
    if n == 0 {
      assert ks[0..] == ks;
    } else {
      StepsFrom(repo, output, source, ks[1..], n - 1);
      assert ks[n..] == ks[1..][n - 1..];
      var steps := RebuildSteps(repo, output, source, ks).value;
      assert RebuildSteps(repo, output, source, ks[1..]) == Ok(steps[1..]);
      assert steps[n..] == steps[1..][n - 1..];
    }
  }

  /** From an accepted tail on, the plan is the later part of the whole plan. */
  lemma {:induction false} PlanFromTail(repo: Repo, output: Hash, tail: Option<Hash>)
    requires (tail.Some? ==> tail.value != []) && TailReached(output, tail) && PlanOf(repo, output, None).Ok?
    ensures var n, whole := Earlier(output, TailNumber(tail)), PlanOf(repo, output, None).value;
      n <= |whole| && PlanOf(repo, output, tail) == Ok(whole[n..])
  {
    QueriesFromStart(output);
    QueriesFromSuffix(output, TailNumber(tail));
    StepsFrom(repo, output, LastOf(output, TransformKind).value, Queries(output), Earlier(output, TailNumber(tail)));
  }

  /** The whole plan exists and has one step for each operation of the run. */
  ghost predicate HistoryPlanned(w: World, source: Event)
    requires source.SetTransform?
  {
    var plan := PlanOf(w.inputs, w.output, None);
    && plan.Ok? && PlanMatches(w, source, plan.value) && PlanNamesQueries(plan.value)
    && RebuildSteps(w.inputs, w.output, source, Queries(w.output)) == Ok(plan.value)
  }

  lemma WorldPlan(w: World, source: Event, engine: Engine)
    requires Inv(w, source, engine) && (w.log == [] ==> MissingInput(w.inputs, source.inputs).None?)
    ensures HistoryPlanned(w, source)
  {
    if w.log != [] {
      RecordedInputsExist(w, source, engine);
    }
    PlanRebuilds(w, source, engine);
    WholePlan(w.inputs, w.output, source);
  }

  lemma {:induction false} RunPlan(start: World, steps: seq<Step>, engine: Engine)
    requires Fresh(start)
    requires var w := Run(start, steps, engine);
      w.log == [] ==> MissingInput(w.inputs, LastOf(start.output, TransformKind).value.inputs).None?
    ensures HistoryPlanned(Run(start, steps, engine), LastOf(start.output, TransformKind).value)
  {
    InvHolds(start, steps, engine);
    WorldPlan(Run(start, steps, engine), LastOf(start.output, TransformKind).value, engine);
  }

  /** The plan has one step for each operation from the n-th on, in order, and they are the
      operations of the run if every dataset has one alias. */
  ghost predicate MatchesFrom(w: World, source: Event, n: nat, plan: seq<VerificationStep>)
    requires source.SetTransform? && |Queries(w.output)| == |w.log|
  {
    && |plan| + n == |w.log|
    && (forall k | n <= k < |w.log| ::
          Rebuilds(w.inputs, w.output, Queries(w.output)[k], w.log[k], source.inputs, plan[k - n]))
    && (AliasesConsistent(source.inputs) ==>
          forall k | n <= k < |w.log| :: SameOperation(plan[k - n].request, w.log[k].request))
  }

  lemma LaterStepsMatch(w: World, source: Event, plan: seq<VerificationStep>, n: nat)
    requires source.SetTransform? && PlanMatches(w, source, plan) && n <= |plan|
    ensures MatchesFrom(w, source, n, plan[n..])
  {
    PlanFollowsAliases(w, source, plan);
    forall k | n <= k < |w.log|
      ensures Rebuilds(w.inputs, w.output, Queries(w.output)[k], w.log[k], source.inputs, plan[n..][k - n])
      ensures AliasesConsistent(source.inputs) ==> SameOperation(plan[n..][k - n].request, w.log[k].request)
    {
      assert plan[n..][k - n] == plan[k];
    }
  }

  /** The plan from the tail on is the history from the tail on. */
  ghost predicate HistoryFrom(w: World, source: Event, tail: Option<Hash>)
    requires source.SetTransform? && (tail.Some? ==> tail.value != [])
  {
    var n, plan := Earlier(w.output, TailNumber(tail)), PlanOf(w.inputs, w.output, tail);
    |Queries(w.output)| == |w.log| && plan.Ok? && MatchesFrom(w, source, n, plan.value)
  }

  lemma TailPlanMatches(w: World, source: Event, tail: Option<Hash>)
    requires source.SetTransform? && (tail.Some? ==> tail.value != []) && TailReached(w.output, tail)
    requires HistoryPlanned(w, source)
    ensures HistoryFrom(w, source, tail)
  {
    PlanFromTail(w.inputs, w.output, tail);
    LaterStepsMatch(w, source, PlanOf(w.inputs, w.output, None).value, Earlier(w.output, TailNumber(tail)));
  }

  lemma WorldHistory(w: World, source: Event, engine: Engine, tail: Option<Hash>)
    requires Inv(w, source, engine) && (w.log == [] ==> MissingInput(w.inputs, source.inputs).None?)
    requires (tail.Some? ==> tail.value != []) && TailReached(w.output, tail)
    ensures HistoryFrom(w, source, tail) && EarlierCounts(w.output, TailNumber(tail))
  {
    WorldPlan(w, source, engine);
    TailPlanMatches(w, source, tail);
    EarlierQueries(w.output, TailNumber(tail));
  }

  /** In every reachable state the plan from an accepted tail on is the history from that tail on:
      one step for each operation recorded at the tail or later, in order. */
  lemma {:induction false} TailPlanIsHistory(start: World, steps: seq<Step>, engine: Engine, tail: Option<Hash>)
    requires Fresh(start) && (tail.Some? ==> tail.value != [])
    requires var w := Run(start, steps, engine);
      && TailReached(w.output, tail)
      && (w.log == [] ==> MissingInput(w.inputs, LastOf(start.output, TransformKind).value.inputs).None?)
    ensures HistoryFrom(Run(start, steps, engine), LastOf(start.output, TransformKind).value, tail)
    ensures EarlierCounts(Run(start, steps, engine).output, TailNumber(tail))
  {
    InvHolds(start, steps, engine);
    WorldHistory(Run(start, steps, engine), LastOf(start.output, TransformKind).value, engine, tail);
  }

  /** The queries counted as earlier are those before sequence number t. */
  ghost predicate EarlierCounts(c: Hash, t: nat) {
    forall k | 0 <= k < |Queries(c)| :: k < Earlier(c, t) <==> Queries(c)[k] < t
  }

  lemma {:induction false} EarlierQueries(c: Hash, t: nat)
    ensures EarlierCounts(c, t)
  {
    QueriesFromSuffix(c, t);
    if c != [] {
      EarlierQueries(c[..|c| - 1], t);
      QueriesFromSuffix(c[..|c| - 1], t);
    }
  }

  /** Every output chain that transform runs of a deterministic engine produced verifies: the
      partner of the soundness stated by VerifyTransform.  Until something is recorded all that
      verification asks is that the declared inputs exist. */
  lemma {:induction false} RunsVerify(
    start: World, steps: seq<Step>, engine: Engine, tail: Option<Hash>, run: nat)
    requires Fresh(start) && Deterministic(engine) && (tail.Some? ==> tail.value != [])
    requires var w := Run(start, steps, engine); LogViewed(w.inputs, w.log) && TailReached(w.output, tail)
    requires var w, source := Run(start, steps, engine), LastOf(start.output, TransformKind).value;
      if w.log == [] then MissingInput(w.inputs, source.inputs).None? else AliasesConsistent(source.inputs)
    ensures var w := Run(start, steps, engine); Verifies(w.inputs, w.output, tail, engine, run)
  {
    var w, source := Run(start, steps, engine), LastOf(start.output, TransformKind).value;
    RunPlan(start, steps, engine);
    EveryRunVerifies(start, steps, engine, run);
    PlanFromTail(w.inputs, w.output, tail);
  }
}
