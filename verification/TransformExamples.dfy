/** Concrete runs: one that records a query, and those that show where a property fails. */
module TransformExamples {
  import opened Wrappers
  import opened Odf
  import opened Offsets
  import opened TransformModel
  import opened TransformRuns
  import opened TransformReplay
  import opened TransformOnce
  import opened TransformCommit
  import opened TransformVerify
  import CompactionExamples

  /******* A first operation *******/

  /** An engine that returns a watermark and nothing else. */
  const WATERMARK := Response(None, Some(5), None, None, None)
  const NOTHING := Response(None, None, None, None, None)
  const ONLY_SCHEMA := Response(None, None, Some([]), None, None)

  function Ticking(): Engine {
    (r, n) => WATERMARK
  }

  /** An output that has been defined with the given inputs and has no schema yet. */
  function Defined(decls: seq<TransformInput>): Hash {
    [OUT_SEED] + [DefinedBy(decls)]
  }

  function Start(input: Hash, decls: seq<TransformInput>): World {
    World(map["d" := input], Defined(decls), [])
  }

  /** The inputs all name dataset d. */
  ghost predicate AllD(decls: seq<TransformInput>) {
    decls != [] && forall i | 0 <= i < |decls| :: decls[i].id == "d"
  }

  const OUT_SEED := Block(0, Seed("out", Derivative))

  function DefinedBy(decls: seq<TransformInput>): Block {
    Block(0, SetTransform("t", decls))
  }

  lemma OutSeedValid()
    ensures Valid([OUT_SEED])
  {
    ValidIffAppended([], OUT_SEED);
    assert [] + [OUT_SEED] == [OUT_SEED];
  }

  lemma DefinedValid(decls: seq<TransformInput>)
    requires AllD(decls)
    ensures Valid(Defined(decls))
  {
    OutSeedValid();
    ValidIffAppended([OUT_SEED], DefinedBy(decls));
  }

  lemma {:induction false} DefinedHolds(decls: seq<TransformInput>, kind: EventKind)
    ensures LastStream(Defined(decls)) == None
    ensures LastOf(Defined(decls), kind) ==
      if kind == TransformKind then Some(DefinedBy(decls).event)
      else if kind == KindOf(OUT_SEED.event) then Some(OUT_SEED.event) else None
  {
    SingleBlockChain(OUT_SEED, kind);
    LastAppended([OUT_SEED], DefinedBy(decls), kind);
  }

  lemma DefinedFacts(decls: seq<TransformInput>)
    requires AllD(decls)
    ensures var output := Defined(decls);
      && Valid(output) && LastStream(output) == None && LastOf(output, ExecuteTransformKind) == None
      && LastOf(output, TransformKind) == Some(SetTransform("t", decls)) && SchemaOf(output) == None
  {
    DefinedValid(decls);
    DefinedHolds(decls, ExecuteTransformKind);
    DefinedHolds(decls, TransformKind);
    DefinedHolds(decls, SchemaKind);
  }

  lemma StartBegins(input: Hash, decls: seq<TransformInput>)
    requires AllD(decls) && Valid(input)
    ensures Begins(Start(input, decls))
  {
    DefinedFacts(decls);
  }

  /** The first operation is planned for inputs that have a schema. */
  lemma FirstPlanned(input: Hash, decls: seq<TransformInput>)
    requires AllD(decls) && Valid(input) && SchemaOf(input).Some?
    ensures var op := NextOperation(map["d" := input], Defined(decls), 0);
      op.Ok? && op.value.Some? && op.value.value.schema == None && op.value.value.head == Defined(decls)
  {
    var start := Start(input, decls);
    DefinedFacts(decls);
    StartBegins(input, decls);
    assert Run(start, [], Ticking()) == start;
    PlanningSucceedsIff(start, [], Ticking(), 0);
  }

  function FirstRequest(input: Hash, decls: seq<TransformInput>): Request
    requires var op := NextOperation(map["d" := input], Defined(decls), 0); op.Ok? && op.value.Some?
  {
    NextOperation(map["d" := input], Defined(decls), 0).value.value
  }

  /** What is done with the three responses. */
  lemma FirstOutcomes(input: Hash, decls: seq<TransformInput>)
    requires AllD(decls) && Valid(input) && SchemaOf(input).Some?
    requires var op := NextOperation(map["d" := input], Defined(decls), 0); op.Ok? && op.value.Some?
    ensures var request := FirstRequest(input, decls);
      && Commit(request, WATERMARK).recorded
      && Commit(request, NOTHING).error == Some(Panicked)
      && !Commit(request, ONLY_SCHEMA).recorded && Commit(request, ONLY_SCHEMA).error == None
  {
    var start, request := Start(input, decls), FirstRequest(input, decls);
    DefinedFacts(decls);
    StartBegins(input, decls);
    FirstPlanned(input, decls);
    assert Run(start, [], Ticking()) == start;
    RunCommitOutcome(start, [], Ticking(), 0, request, WATERMARK);
    RunCommitOutcome(start, [], Ticking(), 0, request, NOTHING);
    RunCommitOutcome(start, [], Ticking(), 0, request, ONLY_SCHEMA);
  }

  const ONCE: seq<Step> := [RunTransform(0, 0)]

  function AfterOnce(input: Hash, decls: seq<TransformInput>): World {
    Run(Start(input, decls), ONCE, Ticking())
  }

  /** A run whose log is not empty. */
  lemma OnceRecorded(input: Hash, decls: seq<TransformInput>)
    requires AllD(decls) && Valid(input) && SchemaOf(input).Some?
    ensures var w, op := AfterOnce(input, decls), NextOperation(map["d" := input], Defined(decls), 0);
      && op.Ok? && op.value.Some?
      && w.inputs == map["d" := input] && w.log == [Entry(FirstRequest(input, decls), 0)]
      && w.output == Defined(decls) + [Block(0, PrepareEvent(FirstRequest(input, decls), WATERMARK))]
  {
    var start := Start(input, decls);
    FirstPlanned(input, decls);
    FirstOutcomes(input, decls);
    assert ONCE[..0] == [] && Run(start, [], Ticking()) == start;
    assert AfterOnce(input, decls) == Advance(start, RunTransform(0, 0), Ticking());
    PlannedOperation(start.inputs, start.output, 0, FirstRequest(input, decls));
    CommitShape(FirstRequest(input, decls), WATERMARK);
  }

  /** Every input of the first operation starts at the beginning and ends at the head of d. */
  lemma FirstCovers(input: Hash, decls: seq<TransformInput>, i: nat)
    requires AllD(decls) && Valid(input) && SchemaOf(input).Some? && i < |decls|
    requires var op := NextOperation(map["d" := input], Defined(decls), 0); op.Ok? && op.value.Some?
    ensures var request := FirstRequest(input, decls);
      && i < |request.inputs|
      && request.inputs[i].prevBlock == None && request.inputs[i].prevOffset == None
      && request.inputs[i].newBlock == Some(input) && request.inputs[i].newOffset == ChainOffset(input)
      && InputViewed(map["d" := input], request.inputs[i]) && request.inputs[i].id == "d"
  {
    var repo, request := map["d" := input], FirstRequest(input, decls);
    DefinedFacts(decls);
    InputObtained(repo, decls, None, request.inputs, i);
    PlannedViews(repo, Defined(decls), 0, request);
    assert GetTransformInput(repo, decls[i], None) == Ok(request.inputs[i]);
    assert InputViewed(repo, request.inputs[i]);
  }

  /******* Panics *******/

  const ONE_INPUT: seq<TransformInput> := [TransformInput("d", "x")]
  const PLAIN: Hash := CompactionExamples.START

  lemma PlainFacts()
    ensures Valid(PLAIN) && SchemaOf(PLAIN).Some? && VocabOf(PLAIN) == DEFAULT_VOCAB && ChainOffset(PLAIN) == None
  {
    CompactionExamples.StartIsValid();
    SingleBlockChain(CompactionExamples.SEED, VocabKind);
    LastAppended([CompactionExamples.SEED], CompactionExamples.SCHEMA, VocabKind);
  }

  /** A planned operation whose commit panics because the engine returns nothing. */
  lemma EmptyResponsePanics()
    ensures var op := NextOperation(map["d" := PLAIN], Defined(ONE_INPUT), 0);
      op.Ok? && op.value.Some? && Commit(op.value.value, NOTHING).error == Some(Panicked)
  {
    PlainFacts();
    FirstPlanned(PLAIN, ONE_INPUT);
    FirstOutcomes(PLAIN, ONE_INPUT);
  }

  /** One whose commit does not panic although the engine returns nothing but a schema. */
  lemma SchemaAloneIsCommitted()
    ensures var op := NextOperation(map["d" := PLAIN], Defined(ONE_INPUT), 0);
      && op.Ok? && op.value.Some? && EmptyResponse(ONLY_SCHEMA)
      && Commit(op.value.value, ONLY_SCHEMA).error == None
  {
    PlainFacts();
    FirstPlanned(PLAIN, ONE_INPUT);
    FirstOutcomes(PLAIN, ONE_INPUT);
  }

  /** What the first operation leaves on the output chain. */
  lemma AfterOnceFacts(input: Hash, decls: seq<TransformInput>)
    requires AllD(decls) && Valid(input) && SchemaOf(input).Some?
    ensures var op := NextOperation(map["d" := input], Defined(decls), 0);
      && op.Ok? && op.value.Some?
      && var output := AfterOnce(input, decls).output;
         && SchemaOf(output) == None && LastOf(output, TransformKind) == Some(SetTransform("t", decls))
         && LastOf(output, ExecuteTransformKind) == Some(PrepareEvent(FirstRequest(input, decls), WATERMARK))
  {
    OnceRecorded(input, decls);
    DefinedFacts(decls);
    var b := Block(0, PrepareEvent(FirstRequest(input, decls), WATERMARK));
    LastAppended(Defined(decls), b, ExecuteTransformKind);
    LastAppended(Defined(decls), b, TransformKind);
    LastAppended(Defined(decls), b, SchemaKind);
  }

  /** An input that was processed to its head has no new blocks. */
  lemma ProcessedInput(repo: Repo, decl: TransformInput, state: QueryInput, i: RequestInput)
    requires GetTransformInput(repo, decl, Some(state)) == Ok(i)
    requires decl.id in repo && LastBlockHash(state) == Some(repo[decl.id])
    ensures i.newBlock.None?
  {
  }

  lemma SecondInput(input: Hash, decls: seq<TransformInput>, request: Request, i: nat)
    requires AllD(decls) && Valid(input) && SchemaOf(input).Some? && i < |decls|
    requires NextOperation(map["d" := input], AfterOnce(input, decls).output, 0) == Ok(Some(request))
    ensures |request.inputs| == |decls| && request.inputs[i].newBlock.None?
  {
    var repo, prev := map["d" := input], LastOf(AfterOnce(input, decls).output, ExecuteTransformKind);
    AfterOnceFacts(input, decls);
    FirstCovers(input, decls, i);
    InputObtained(repo, decls, prev, request.inputs, i);
    ProcessedInput(repo, decls[i], InputState(prev, i).value, request.inputs[i]);
  }

  /** The operation after it, with no new blocks to process. */
  lemma SecondPlanned(input: Hash, decls: seq<TransformInput>)
    requires AllD(decls) && Valid(input) && SchemaOf(input).Some?
    ensures var w := AfterOnce(input, decls);
      var op := NextOperation(w.inputs, w.output, 0);
      && SchemaOf(w.output) == None && LastOf(w.output, ExecuteTransformKind).Some?
      && LastOf(w.output, ExecuteTransformKind).value.stream.newWatermark == Some(5)
      && LastOf(w.output, ExecuteTransformKind).value.stream.newCheckpoint == None
      && op.Ok? && op.value.Some? && NoNewBlocks(op.value.value)
  {
    var w := AfterOnce(input, decls);
    OnceRecorded(input, decls);
    AfterOnceFacts(input, decls);
    DefinedFacts(decls);
    StartBegins(input, decls);
    PlanningSucceedsIff(Start(input, decls), ONCE, Ticking(), 0);
    var request := NextOperation(w.inputs, w.output, 0).value.value;
    SecondInput(input, decls, request, 0);
    forall i | 0 <= i < |request.inputs|
      ensures request.inputs[i].newBlock.None?
    {
      SecondInput(input, decls, request, i);
    }
  }

  /** A planned operation whose commit panics although the engine returns a watermark: without a
      schema the operation is planned again, and repeats what is recorded already. */
  lemma RepeatedWatermarkPanics()
    ensures var w := AfterOnce(PLAIN, ONE_INPUT);
      var op := NextOperation(w.inputs, w.output, 0);
      && w.log != [] && op.Ok? && op.value.Some?
      && !EmptyResponse(WATERMARK) && Commit(op.value.value, WATERMARK).error == Some(Panicked)
  {
    PlainFacts();
    OnceRecorded(PLAIN, ONE_INPUT);
    SecondPlanned(PLAIN, ONE_INPUT);
    StartBegins(PLAIN, ONE_INPUT);
    var w := AfterOnce(PLAIN, ONE_INPUT);
    RunCommitOutcome(Start(PLAIN, ONE_INPUT), ONCE, Ticking(), 0, NextOperation(w.inputs, w.output, 0).value.value,
      WATERMARK);
  }

  /******* Records declared by an input that does not start at offset zero *******/

  const LATE_BLOCK := Block(
    0, AddData(DataStream(None, Some(4), Some(PrepareSlice(5, 5, File([Row(5, 1, "x")], 0, 1))), None, Some(1)), None))

  /** A valid chain whose only record has offset 5. */
  const LATE: Hash := PLAIN + [LATE_BLOCK]

  lemma LateFacts()
    ensures Valid(LATE) && SchemaOf(LATE).Some? && ChainOffset(LATE) == Some(5) && BaseOffset(LATE) == 5
  {
    CompactionExamples.StartIsValid();
    ValidIffAppended(PLAIN, LATE_BLOCK);
    LastAppended(PLAIN, LATE_BLOCK, SchemaKind);
    assert LATE[..|PLAIN|] == PLAIN;
  }

  /** The query declares six records for an input that holds one. */
  lemma TooManyDeclared()
    ensures var w := AfterOnce(LATE, ONE_INPUT);
      && |w.log| == 1 && |w.log[0].request.inputs| == 1
      && var q := ToQueryInput(w.log[0].request.inputs[0]);
         InputBlocks(q).Ok? && InputRecords(q) != RecordsIn(InputBlocks(q).value)
  {
    LateFacts();
    OnceRecorded(LATE, ONE_INPUT);
    DefinedFacts(ONE_INPUT);
    StartBegins(LATE, ONE_INPUT);
    FirstCovers(LATE, ONE_INPUT, 0);
    InputObtained(map["d" := LATE], ONE_INPUT, None, FirstRequest(LATE, ONE_INPUT).inputs, 0);
    DeclaredRecordsIff(Start(LATE, ONE_INPUT), ONCE, Ticking(), 0, 0);
  }

  /******* Replays that differ *******/

  const TWO_ALIASES: seq<TransformInput> := [TransformInput("d", "x"), TransformInput("d", "y")]

  /** With a dataset under two aliases the replayed operation is not the recorded one. */
  lemma TwoAliasesReplayed()
    ensures var w := AfterOnce(PLAIN, TWO_ALIASES);
      var plan := RebuildSteps(w.inputs, w.output, SetTransform("t", TWO_ALIASES), Queries(w.output));
      |w.log| == 1 && plan.Ok? && |plan.value| == 1 && !SameOperation(plan.value[0].request, w.log[0].request)
  {
    PlainFacts();
    assert TWO_ALIASES[0].id == TWO_ALIASES[1].id && TWO_ALIASES[0].alias != TWO_ALIASES[1].alias;
    OnceRecorded(PLAIN, TWO_ALIASES);
    DefinedFacts(TWO_ALIASES);
    StartBegins(PLAIN, TWO_ALIASES);
    PlanIsHistory(Start(PLAIN, TWO_ALIASES), ONCE, Ticking());
  }

  const VOCAB_BLOCK := Block(0, SetVocab("v"))
  const ONCE_THEN_VOCAB: seq<Step> := ONCE + [AppendInput("d", VOCAB_BLOCK)]

  lemma {:induction false} RunSnoc(w: World, steps: seq<Step>, s: Step, engine: Engine)
    ensures Run(w, steps + [s], engine) == Advance(Run(w, steps, engine), s, engine)
  {
    assert (steps + [s])[..|steps|] == steps;
  }

  lemma VocabAccepted()
    ensures Append(PLAIN, VOCAB_BLOCK) == Ok(PLAIN + [VOCAB_BLOCK])
  {
  }

  lemma VocabAppended()
    ensures var w := Run(Start(PLAIN, ONE_INPUT), ONCE_THEN_VOCAB, Ticking());
      && w.inputs == map["d" := PLAIN + [VOCAB_BLOCK]]
      && w.output == AfterOnce(PLAIN, ONE_INPUT).output && w.log == AfterOnce(PLAIN, ONE_INPUT).log
      && VocabOf(w.inputs["d"]) == "v"
  {
    PlainFacts();
    OnceRecorded(PLAIN, ONE_INPUT);
    RunSnoc(Start(PLAIN, ONE_INPUT), ONCE, AppendInput("d", VOCAB_BLOCK), Ticking());
    VocabAccepted();
    LastAppended(PLAIN, VOCAB_BLOCK, VocabKind);
  }

  lemma VocabularyForgotten()
    ensures var w := Run(Start(PLAIN, ONE_INPUT), ONCE_THEN_VOCAB, Ticking());
      |w.log| == 1 && |w.log[0].request.inputs| == 1 && !InputViewed(w.inputs, w.log[0].request.inputs[0])
  {
    PlainFacts();
    OnceRecorded(PLAIN, ONE_INPUT);
    VocabAppended();
    DefinedFacts(ONE_INPUT);
    FirstCovers(PLAIN, ONE_INPUT, 0);
    InputObtained(map["d" := PLAIN], ONE_INPUT, None, FirstRequest(PLAIN, ONE_INPUT).inputs, 0);
  }

  lemma ReplayedUnlike(w: World, source: Event, plan: seq<VerificationStep>, k: nat, i: nat)
    requires source.SetTransform? && PlanMatches(w, source, plan) && k < |w.log|
    requires i < |w.log[k].request.inputs| && !InputViewed(w.inputs, w.log[k].request.inputs[i])
    ensures EngineView(plan[k].request) != EngineView(w.log[k].request)
  {
    EngineViewReplayedIff(w.inputs, w.output, Queries(w.output)[k], w.log[k], source.inputs, plan[k]);
  }

  /** With another vocabulary set since then, the engine gets another request. */
  lemma NewVocabularyReplayed()
    ensures var w := Run(Start(PLAIN, ONE_INPUT), ONCE_THEN_VOCAB, Ticking());
      var plan := RebuildSteps(w.inputs, w.output, SetTransform("t", ONE_INPUT), Queries(w.output));
      && |w.log| == 1 && plan.Ok? && |plan.value| == 1
      && EngineView(plan.value[0].request) != EngineView(w.log[0].request)
  {
    var start, source := Start(PLAIN, ONE_INPUT), SetTransform("t", ONE_INPUT);
    var w := Run(start, ONCE_THEN_VOCAB, Ticking());
    VocabularyForgotten();
    PlainFacts();
    DefinedFacts(ONE_INPUT);
    StartBegins(PLAIN, ONE_INPUT);
    PlanIsHistory(start, ONCE_THEN_VOCAB, Ticking());
    ReplayedUnlike(w, source, RebuildSteps(w.inputs, w.output, source, Queries(w.output)).value, 0, 0);
  }

  /******* A refused tail *******/

  const SEED_HASH: Hash := [Block(0, Seed("out", Derivative))]

  /** The seed is refused as a tail although it is an ancestor of the head and a query follows. */
  lemma SeedRefusedAsTail()
    ensures var w := AfterOnce(PLAIN, ONE_INPUT);
      && SEED_HASH <= w.output && |w.log| == 1 && PlanOf(w.inputs, w.output, None).Ok?
      && PlanOf(w.inputs, w.output, Some(SEED_HASH)) == Err(VerificationError.InvalidInterval(SEED_HASH))
  {
    PlainFacts();
    OnceRecorded(PLAIN, ONE_INPUT);
    StartBegins(PLAIN, ONE_INPUT);
    RunPlan(Start(PLAIN, ONE_INPUT), ONCE, Ticking());
  }
}
