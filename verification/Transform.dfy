/**
 The transform service: collecting an input, committing a query, and the retry
 after a diverged input.
 */
module Transform {
  import opened Wrappers
  import opened Odf
  import opened TransformModel
  import opened TransformRuns
  import opened TransformEngine
  import CompactionModel
  import CompactionCommit
  import Compaction

  /******* Collecting an input *******/

  /** Slices and watermarks of the data blocks, in chain order. */
  method CollectBlocks(blocks: seq<Block>) returns (slices: seq<File>, watermarks: seq<Watermark>)
    ensures slices == SlicesOf(blocks)
    ensures watermarks == WatermarksOf(blocks)
  {
    slices, watermarks := [], [];
    var i := 0;
    while i < |blocks|
      invariant 0 <= i <= |blocks|
      invariant slices == SlicesOf(blocks[..i])
      invariant watermarks == WatermarksOf(blocks[..i])
    {
      assert blocks[..i + 1][..i] == blocks[..i];
      slices := slices + BlockSlices(blocks[i]);
      watermarks := watermarks + BlockWatermarks(blocks[i]);
      i := i + 1;
    }
    assert blocks[..i] == blocks;
  }

  /** Rebuilds an input from its block interval. */
  method CollectInput(repo: Repo, q: QueryInput, alias: string, vocabHint: Option<Vocab>)
    returns (r: Result<RequestInput, TransformError>)
    ensures r == InputFromQuery(repo, q, alias, vocabHint)
  {
    if q.id !in repo {
      return Err(DatasetNotFound(q.id));
    }
    var schema := SchemaOf(repo[q.id]);
    if schema.None? {
      return Err(InputSchemaNotDefined(q.id));
    }
    var unprocessed := InputBlocks(q);
    if unprocessed.Err? {
      return Err(Diverged(unprocessed.error.head, unprocessed.error.tail));
    }
    var slices, watermarks := CollectBlocks(unprocessed.value);
    var vocab := vocabHint.OrElse(Some(VocabOf(repo[q.id]))).value;
    r := Ok(RequestInput(q.id, alias, vocab, q.prevBlock, q.newBlock, q.prevOffset, q.newOffset, schema.value, slices,
      watermarks));
  }

  /******* Committing *******/

  /** Commits the schema if this is the first one, then the query; a query that records nothing is skipped. */
  method CommitExecuteTransform(request: Request, response: Response)
    returns (r: Result<Hash, TransformError>, head: Hash)
    requires WellFormedResponse(response)
    ensures head == Commit(request, response).head
    ensures r == var c := Commit(request, response); if c.error.Some? then Err(c.error.value) else Ok(c.head)
  {
    head := request.head;
    if request.schema.Some? {
      if response.schema.Some? && !SchemaEquivalent(request.schema.value, response.schema.value) {
        return Err(SchemaIncompatible), head;
      }
    } else if response.schema.Some? {
      var committed := Append(head, Block(request.systemTime, SetDataSchema(response.schema.value)));
      if committed.Err? {
        return Err(CommitRejected(committed.error)), head;
      }
      head := committed.value;
    }
    var committed := Append(head, Block(request.systemTime, PrepareEvent(request, response)));
    if committed.Ok? {
      head := committed.value;
    } else if committed.error != NoOpEvent {
      return Err(CommitRejected(committed.error)), head;
    }
    if head == request.head {
      return Err(Panicked), head;
    }
    r := Ok(head);
  }

  /******* Retry after a diverged input *******/

  datatype TransformResult = UpToDate | Updated(oldHead: Hash, newHead: Hash)

  lemma FreshInputDoesNotDiverge(repo: Repo, decl: TransformInput)
    ensures var input := GetTransformInput(repo, decl, None); !(input.Err? && input.error.Diverged?)
  {
    if decl.id in repo {
      assert NextQueryInput(repo[decl.id], decl.id, None).prevBlock == None;
    }
  }

  lemma FreshInputsDoNotDiverge(repo: Repo, decls: seq<TransformInput>)
    ensures var inputs := GetInputs(repo, decls, None); !(inputs.Err? && inputs.error.Diverged?)
  {
    if GetInputs(repo, decls, None).Err? {
      var k := GatherErr(InputResults(repo, decls, None));
      FreshInputDoesNotDiverge(repo, decls[k]);
    }
  }

  lemma FreshInputsStartOver(repo: Repo, decls: seq<TransformInput>, inputs: seq<RequestInput>)
    requires GetInputs(repo, decls, None) == Ok(inputs)
    ensures FromBeginning(inputs)
  {
    AllObtained(repo, decls, None, inputs);
    forall i | 0 <= i < |inputs|
      ensures inputs[i].prevBlock == None && inputs[i].prevOffset == None
    {
      assert ObtainedAt(repo, decls, None, inputs, i);
      ObtainedInput(repo, decls, None, inputs, i);
    }
  }

  /** An input of the next operation has been rewritten since it was last processed. */
  predicate Diverges(repo: Repo, output: Hash, now: Time) {
    var op := NextOperation(repo, output, now);
    op.Err? && op.error.Diverged?
  }

  /** The next operation, if there is one, covers every input from its first block. */
  ghost predicate StartsOver(repo: Repo, output: Hash, now: Time) {
    var op := NextOperation(repo, output, now);
    op.Ok? && op.value.Some? ==> FromBeginning(op.value.value.inputs)
  }

  /** Without a recorded query every input starts from its beginning, so none can diverge. */
  lemma {:induction false} NoQueryNoDivergence(repo: Repo, output: Hash, now: Time)
    requires LastOf(output, ExecuteTransformKind).None?
    ensures !Diverges(repo, output, now) && StartsOver(repo, output, now)
  {
    var source := LastOf(output, TransformKind);
    if source.Some? {
      var decls := source.value.inputs;
      var inputs := GetInputs(repo, decls, None);
      FreshInputsDoNotDiverge(repo, decls);
      if inputs.Ok? {
        FreshInputsStartOver(repo, decls, inputs.value);
      }
    }
  }

  lemma {:induction false} MetadataHasNoQuery(c: Hash)
    requires forall k | 0 < k < |c| :: CompactionModel.IsMetadata(c[k].event)
    requires c != [] ==> c[0].event.Seed?
    ensures LastOf(c, ExecuteTransformKind).None?
  {
    if c == [] {
    } else {
      MetadataHasNoQuery(c[..|c| - 1]);
    }
  }

  lemma {:induction false} OnlyMetadata(es: seq<Event>)
    ensures forall k | 0 <= k < |Compaction.MetadataEvents(es)| ::
      CompactionModel.IsMetadata(Compaction.MetadataEvents(es)[k])
    ensures (forall k | 0 <= k < |es| :: CompactionModel.IsMetadata(es[k])) <==> |Compaction.MetadataEvents(es)| == |es|
  {
    if es == [] {
    } else {
      OnlyMetadata(es[1..]);
      Compaction.MetadataOnlyLength(es);
    }
  }

  /** After the reset that follows a divergence, no query is left. */
  lemma {:induction false} ResetDropsQueries(output: Hash, head: Hash)
    requires output != [] && output[0].event.Seed?
    requires CompactionModel.Events(head) ==
      [output[0].event] + Compaction.MetadataEvents(CompactionModel.Events(output))
    ensures LastOf(head, ExecuteTransformKind).None?
  {
    var es := Compaction.MetadataEvents(CompactionModel.Events(output));
    OnlyMetadata(CompactionModel.Events(output));
    forall k | 0 <= k < |head| ensures head[k].event == if k == 0 then output[0].event else es[k - 1] {
      assert CompactionModel.Events(head)[k] == head[k].event;
    }
    MetadataHasNoQuery(head);
  }

  /** A reset of a chain with a query always rewrites it. */
  lemma {:induction false} ResetRewrites(output: Hash)
    requires output != [] && output[0].event.Seed? && LastOf(output, ExecuteTransformKind).Some?
    ensures CompactionModel.Events(output) !=
      [output[0].event] + Compaction.MetadataEvents(CompactionModel.Events(output))
  {
    var k := LastOfWitness(output, ExecuteTransformKind);
    var es := CompactionModel.Events(output);
    OnlyMetadata(es);
  }

  /** The seed and the metadata of the chain, and no query. */
  ghost predicate IsReset(output: Hash, left: Hash)
    requires output != []
  {
    && LastOf(left, ExecuteTransformKind).None?
    && CompactionModel.Events(left) == [output[0].event] + Compaction.MetadataEvents(CompactionModel.Events(output))
  }

  /** The output chain after one transform step of a run. */
  ghost function AfterTransform(repo: Repo, output: Hash, now: Time, run: nat, engine: Engine): Hash {
    Advance(World(repo, output, []), RunTransform(now, run), engine).output
  }

  /** Drops every recorded query of a dataset whose next operation found a diverged input: this
      always succeeds while the clock does not go back, and the next operation on what is left cannot diverge. */
  method ResetDataset(
      repo: Repo, output: Hash, now: Time, encode: CompactionModel.Encoder, clock: CompactionModel.Clock)
    returns (head: Hash)
    requires Valid(output) && output != [] && CompactionCommit.Forward(output[0].systemTime, clock)
    requires Diverges(repo, output, now)
    ensures Valid(head) && head != [] && head[0] == output[0]
    ensures IsReset(output, head)
    ensures !Diverges(repo, head, now) && StartsOver(repo, head, now)
  {
    assert LastOf(output, ExecuteTransformKind).Some? by {
      if LastOf(output, ExecuteTransformKind).None? {
        NoQueryNoDivergence(repo, output, now);
      }
    }
    SeedIsFirst(output, 0);
    ResetRewrites(output);
    var compacted;
    var options := Compaction.CompactionOptions(None, None, true);
    ghost var n := |CompactionModel.Scan(output, Compaction.LimitsOf(options), true)|;
    CompactionCommit.ForwardInTime(output[0].systemTime, output[0].systemTime, 1, n, clock);
    compacted, head := Compaction.CompactDataset(output, options, encode, clock);
    assert compacted.Ok? && compacted.value.Success?;
    ResetDropsQueries(output, head);
    NoQueryNoDivergence(repo, head, now);
  }

  function PerformedResult(request: Request, response: Response): Result<TransformResult, TransformError> {
    if !WellFormedResponse(response) then Err(Panicked)
    else
      var c := Commit(request, response);
      if c.error.Some? then Err(c.error.value) else Ok(Updated(request.head, c.head))
  }

  /** What is reported for a transform step on the given output chain: up to date exactly if no
      operation is planned or an input has no schema yet, an update exactly if an operation was
      planned and committed, and then the chain has grown; otherwise why not.  The engine answers
      what the chains show it. */
  ghost predicate ReportedFor(
    repo: Repo, output: Hash, now: Time, run: nat, engine: Engine, r: Result<TransformResult, TransformError>)
  {
    var op := NextOperation(repo, output, now);
    && (r == Ok(UpToDate) <==> op == Ok(None) || (op.Err? && op.error.InputSchemaNotDefined?))
    && (r.Ok? && r.value.Updated? ==>
          && op.Ok? && op.value.Some?
          && r.value == Updated(output, AfterTransform(repo, output, now, run, engine))
          && output < r.value.newHead)
    && (r.Err? && op.Err? ==> r.error == op.error)
    && (op.Ok? && op.value.Some? ==>
          exists view :: Shows(repo, output, now, view) && r == PerformedResult(op.value.value, engine(view, run)))
  }

  /** Runs the engine on a planned operation and commits the result. */
  method DoTransform(request: Request, run: nat, engine: Engine)
    returns (r: Result<TransformResult, TransformError>, head: Hash)
    ensures forall w: World | w.output == request.head :: head == Perform(w, request, run, engine).output
    ensures r == PerformedResult(request, engine(EngineView(request), run))
    ensures r.Ok? ==> r.value == Updated(request.head, head) && request.head < head
    ensures !(r.Err? && r.error.Diverged?)
  {
    var response := engine(EngineView(request), run);
    if !WellFormedResponse(response) {
      return Err(Panicked), request.head;
    }
    var committed;
    committed, head := CommitExecuteTransform(request, response);
    if committed.Err? {
      return Err(committed.error), head;
    }
    r := Ok(Updated(request.head, committed.value));
  }

  /** One transform of a dataset.  With the reset option a diverged input is answered by dropping
      all recorded queries and trying once more; that retry can never meet a diverged input. */
  method TransformDataset(repo: Repo, output: Hash, resetOnDiverged: bool, now: Time, run: nat, engine: Engine,
                          encode: CompactionModel.Encoder, clock: CompactionModel.Clock)
    returns (r: Result<TransformResult, TransformError>, head: Hash)
    requires Valid(output) && output != [] && CompactionCommit.Forward(output[0].systemTime, clock)
    // The chain afterwards is that of one transform step, on the dataset or on what the reset left of it.
    ensures r.Err? && r.error.Diverged? <==> !resetOnDiverged && Diverges(repo, output, now)
    ensures !Diverges(repo, output, now) || !resetOnDiverged ==>
      head == AfterTransform(repo, output, now, run, engine) && ReportedFor(repo, output, now, run, engine, r)
    ensures Diverges(repo, output, now) && resetOnDiverged ==>
      exists left :: IsReset(output, left) && !Diverges(repo, left, now)
        && head == AfterTransform(repo, left, now, run, engine) && ReportedFor(repo, left, now, run, engine, r)
    decreases resetOnDiverged
  {
    head := output;
    var op := NextOperation(repo, output, now);
    if op.Ok? && op.value.Some? {
      PlannedOperation(repo, output, now, op.value.value);
      PlannedShows(repo, output, now, op.value.value);
      r, head := DoTransform(op.value.value, run, engine);
    } else if op.Ok? || op.error.InputSchemaNotDefined? {
      r := Ok(UpToDate);
    } else if op.error.Diverged? && resetOnDiverged {
      var left := ResetDataset(repo, output, now, encode, clock);
      r, head := TransformDataset(repo, left, false, now, run, engine, encode, clock);
      assert IsReset(output, left);
    } else {
      r := Err(op.error);
    }
  }
}
