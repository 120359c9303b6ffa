/**
 Runs that mix appends to the inputs with transform operations, and the theorem
 that the verification plan rebuilt from the output chain is the history of the run.
 */
module TransformRuns {
  import opened Wrappers
  import opened Odf
  import opened TransformModel

  /** A recorded operation and the engine run that answered it. */
  datatype Entry = Entry(request: Request, run: nat)

  datatype World = World(inputs: Repo, output: Hash, log: seq<Entry>)

  datatype Step = AppendInput(id: DatasetId, block: Block) | RunTransform(now: Time, run: nat)

  /** Runs the engine on a planned operation and commits the answer. */
  function Perform(w: World, request: Request, run: nat, engine: Engine): World {
    var response := engine(EngineView(request), run);
    if !WellFormedResponse(response) then w
    else
      var c := Commit(request, response);
      World(w.inputs, c.head, if c.recorded then w.log + [Entry(request, run)] else w.log)
  }

  function Advance(w: World, s: Step, engine: Engine): World {
    match s
    case AppendInput(id, block) =>
      if id in w.inputs && Append(w.inputs[id], block).Ok? then
        w.(inputs := w.inputs[id := w.inputs[id] + [block]])
      else w
    case RunTransform(now, run) =>
      var op := NextOperation(w.inputs, w.output, now);
      if op.Err? || op.value.None? then w
      else Perform(w, op.value.value, run, engine)
  }

  function Run(w: World, steps: seq<Step>, engine: Engine): World {
    if steps == [] then w else Advance(Run(w, steps[..|steps| - 1], engine), steps[|steps| - 1], engine)
  }

  /** A derivative dataset that has been defined but never run. */
  ghost predicate Fresh(w: World) {
    && LastOf(w.output, TransformKind).Some?
    && LastOf(w.output, ExecuteTransformKind).None?
    && w.log == []
    && forall id | id in w.inputs :: Valid(w.inputs[id])
  }

  /******* What every step keeps *******/

  /** The offset interval of an input ends at the last offset of the last block it covers. */
  ghost predicate OffsetsPlanned(i: RequestInput) {
    var last := LastBlockHash(ToQueryInput(i));
    && last.Some?
    && var offset := ChainOffset(last.value).OrElse(i.prevOffset);
       i.newOffset == if offset != i.prevOffset then offset else None
  }

  /** Schema and vocabulary are those of the input up to the last block that is covered. */
  ghost predicate SeenPlanned(i: RequestInput) {
    var last := LastBlockHash(ToQueryInput(i));
    last.Some? && SchemaOf(last.value) == Some(i.schema) && VocabOf(last.value) == i.vocab
  }

  /** What a planned input says of itself. */
  ghost predicate InputPlanned(decl: TransformInput, i: RequestInput) {
    && i.id == decl.id && i.alias == decl.alias && Consistent(i) && OffsetsPlanned(i) && SeenPlanned(i)
    && (i.newBlock.Some? ==> i.newBlock != i.prevBlock)
  }

  /** The input dataset still holds everything that the planned input covers. */
  ghost predicate InputKnown(repo: Repo, i: RequestInput) {
    && i.id in repo && SchemaOf(repo[i.id]).Some?
    && LastBlockHash(ToQueryInput(i)).Some? && LastBlockHash(ToQueryInput(i)).value <= repo[i.id]
  }

  ghost predicate InputRecorded(repo: Repo, decl: TransformInput, i: RequestInput) {
    InputPlanned(decl, i) && InputKnown(repo, i)
  }

  ghost predicate InputsRecorded(repo: Repo, decls: seq<TransformInput>, inputs: seq<RequestInput>) {
    |inputs| == |decls| && forall i | 0 <= i < |decls| :: InputRecorded(repo, decls[i], inputs[i])
  }

  /** The input continues where the previous operation on it stopped. */
  ghost predicate Continues(prev: Request, inputs: seq<RequestInput>) {
    && |prev.inputs| == |inputs|
    && forall i | 0 <= i < |inputs| ::
         && inputs[i].prevBlock == LastBlockHash(ToQueryInput(prev.inputs[i]))
         && inputs[i].prevOffset == LastInputOffset(ToQueryInput(prev.inputs[i]))
  }

  ghost predicate FromBeginning(inputs: seq<RequestInput>) {
    forall i | 0 <= i < |inputs| :: inputs[i].prevBlock == None && inputs[i].prevOffset == None
  }

  /** The inputs continue the last operation of the log, or start from the beginning. */
  ghost predicate ContinuesLog(log: seq<Entry>, inputs: seq<RequestInput>) {
    if log == [] then FromBeginning(inputs) else Continues(log[|log| - 1].request, inputs)
  }

  /** The query was committed on the head it was planned for, or on top of the schema it set. */
  ghost predicate CommittedOn(request: Request, prefix: Hash) {
    || prefix == request.head
    || (&& request.schema.None? && request.head < prefix && |prefix| == |request.head| + 1
        && prefix[|prefix| - 1].event.SetDataSchema?)
  }

  ghost predicate Recorded(output: Hash, idx: nat, entry: Entry, source: Event, engine: Engine)
    requires idx < |output|
  {
    var r, response := entry.request, engine(EngineView(entry.request), entry.run);
    && source.SetTransform?
    && WellFormedResponse(response)
    && output[idx] == Block(r.systemTime, PrepareEvent(r, response))
    && CommittedOn(r, output[..idx])
    && r.transform == source.transform
    && r.vocab == VocabOf(output)
    && (r.schema.Some? ==> r.schema == SchemaOf(output))
  }

  ghost predicate LogRecorded(output: Hash, log: seq<Entry>, source: Event, engine: Engine) {
    && |Queries(output)| == |log|
    && forall k | 0 <= k < |log| :: Recorded(output, Queries(output)[k], log[k], source, engine)
  }

  ghost predicate LinkedAt(repo: Repo, log: seq<Entry>, decls: seq<TransformInput>, k: nat)
    requires k < |log|
  {
    && InputsRecorded(repo, decls, log[k].request.inputs)
    && if k == 0 then FromBeginning(log[k].request.inputs)
       else Continues(log[k - 1].request, log[k].request.inputs)
  }

  ghost predicate LogLinked(repo: Repo, log: seq<Entry>, decls: seq<TransformInput>) {
    forall k | 0 <= k < |log| :: LinkedAt(repo, log, decls, k)
  }

  /** What the output chain and the log have to do with each other. */
  ghost predicate OutputInv(output: Hash, log: seq<Entry>, source: Event, engine: Engine) {
    && source.SetTransform?
    && LastOf(output, TransformKind) == Some(source)
    && LogRecorded(output, log, source, engine)
    && LastOf(output, ExecuteTransformKind) ==
         (if log == [] then None else Some(output[Queries(output)[|log| - 1]].event))
  }

  ghost predicate Inv(w: World, source: Event, engine: Engine) {
    && OutputInv(w.output, w.log, source, engine)
    && LogLinked(w.inputs, w.log, source.inputs)
    && forall id | id in w.inputs :: Valid(w.inputs[id])
  }

  lemma {:induction false} QueriesAppended(c: Hash, b: Block)
    ensures Queries(c + [b]) == Queries(c) + if b.event.ExecuteTransform? then [|c|] else []
  {
    assert (c + [b])[..|c|] == c;
  }

  lemma {:induction false} NoQueries(c: Hash)
    requires LastOf(c, ExecuteTransformKind).None?
    ensures Queries(c) == []
  {
    if c == [] {
    } else {
      NoQueries(c[..|c| - 1]);
    }
  }

  /******* Appending to an input *******/

  lemma InputKnownGrows(repo: Repo, id: DatasetId, b: Block, i: RequestInput)
    requires id in repo && InputKnown(repo, i)
    ensures InputKnown(repo[id := repo[id] + [b]], i)
  {
    LastAppended(repo[id], b, SchemaKind);
  }

  lemma InputAppended(w: World, id: DatasetId, b: Block, source: Event, engine: Engine)
    requires Inv(w, source, engine) && id in w.inputs && Append(w.inputs[id], b).Ok?
    ensures Inv(w.(inputs := w.inputs[id := w.inputs[id] + [b]]), source, engine)
  {
    var repo := w.inputs[id := w.inputs[id] + [b]];
    ValidAppend(w.inputs[id], b);
    forall k | 0 <= k < |w.log|
      ensures LinkedAt(repo, w.log, source.inputs, k)
    {
      var inputs := w.log[k].request.inputs;
      assert LinkedAt(w.inputs, w.log, source.inputs, k);
      forall i | 0 <= i < |inputs| ensures InputRecorded(repo, source.inputs[i], inputs[i]) {
        assert InputRecorded(w.inputs, source.inputs[i], inputs[i]);
        InputKnownGrows(w.inputs, id, b, inputs[i]);
      }
    }
  }

  /******* Running a transform *******/

  /** What a planned input says, by whether there was an operation before. */
  lemma PlannedInput(repo: Repo, decl: TransformInput, state: Option<QueryInput>, i: RequestInput)
    requires GetTransformInput(repo, decl, state) == Ok(i)
    requires state.Some? ==> LastBlockHash(state.value).Some?
    ensures InputRecorded(repo, decl, i)
    ensures i.prevBlock == (if state.Some? then LastBlockHash(state.value) else None)
    ensures i.prevOffset == (if state.Some? then LastInputOffset(state.value) else None)
  {
  }

  /** The state that planning starts from: the last recorded request. */
  lemma PreviousState(w: World, source: Event, engine: Engine, i: nat)
    requires Inv(w, source, engine) && i < |source.inputs|
    ensures var prev := LastOf(w.output, ExecuteTransformKind);
      && (prev.Some? <==> w.log != [])
      && (prev.Some? ==>
            var inputs := w.log[|w.log| - 1].request.inputs;
            && |inputs| == |source.inputs| == |prev.value.queryInputs|
            && prev.value.queryInputs[i] == ToQueryInput(inputs[i])
            && LastBlockHash(prev.value.queryInputs[i]).Some?)
  {
    if w.log != [] {
      var last := |w.log| - 1;
      assert Recorded(w.output, Queries(w.output)[last], w.log[last], source, engine);
      assert LinkedAt(w.inputs, w.log, source.inputs, last);
      assert InputRecorded(w.inputs, source.inputs[i], w.log[last].request.inputs[i]);
    }
  }

  lemma ObtainedInput(
    repo: Repo, decls: seq<TransformInput>, prev: Option<Event>, inputs: seq<RequestInput>, i: nat)
    requires prev.Some? ==> prev.value.ExecuteTransform? && |prev.value.queryInputs| == |decls|
    requires i < |decls| && i < |inputs| && ObtainedAt(repo, decls, prev, inputs, i)
    requires prev.Some? ==> LastBlockHash(prev.value.queryInputs[i]).Some?
    ensures InputRecorded(repo, decls[i], inputs[i])
    ensures prev.None? ==> inputs[i].prevBlock == None && inputs[i].prevOffset == None
    ensures prev.Some? ==>
      && inputs[i].prevBlock == LastBlockHash(prev.value.queryInputs[i])
      && inputs[i].prevOffset == LastInputOffset(prev.value.queryInputs[i])
  {
    PlannedInput(repo, decls[i], InputState(prev, i), inputs[i]);
  }

  lemma PlannedInputAt(w: World, request: Request, source: Event, engine: Engine, i: nat)
    requires Inv(w, source, engine) && i < |source.inputs|
    requires var prev := LastOf(w.output, ExecuteTransformKind);
      prev.Some? ==> |prev.value.queryInputs| == |source.inputs|
    requires Obtained(w.inputs, source.inputs, LastOf(w.output, ExecuteTransformKind), request.inputs)
    ensures InputRecorded(w.inputs, source.inputs[i], request.inputs[i])
    ensures w.log == [] ==> request.inputs[i].prevBlock == None && request.inputs[i].prevOffset == None
    ensures w.log != [] ==>
      var inputs := w.log[|w.log| - 1].request.inputs;
      && |inputs| == |source.inputs|
      && request.inputs[i].prevBlock == LastBlockHash(ToQueryInput(inputs[i]))
      && request.inputs[i].prevOffset == LastInputOffset(ToQueryInput(inputs[i]))
  {
    PreviousState(w, source, engine, i);
    assert ObtainedAt(w.inputs, source.inputs, LastOf(w.output, ExecuteTransformKind), request.inputs, i);
    ObtainedInput(w.inputs, source.inputs, LastOf(w.output, ExecuteTransformKind), request.inputs, i);
  }

  lemma ObtainedInputs(w: World, request: Request, source: Event, engine: Engine)
    requires Inv(w, source, engine)
    requires var prev := LastOf(w.output, ExecuteTransformKind);
      prev.Some? ==> |prev.value.queryInputs| == |source.inputs|
    requires Obtained(w.inputs, source.inputs, LastOf(w.output, ExecuteTransformKind), request.inputs)
    ensures InputsRecorded(w.inputs, source.inputs, request.inputs) && ContinuesLog(w.log, request.inputs)
  {
    if w.log != [] {
      assert LinkedAt(w.inputs, w.log, source.inputs, |w.log| - 1);
    }
    forall i | 0 <= i < |source.inputs|
      ensures InputRecorded(w.inputs, source.inputs[i], request.inputs[i])
      ensures w.log == [] ==> request.inputs[i].prevBlock == None && request.inputs[i].prevOffset == None
      ensures w.log != [] ==>
        var inputs := w.log[|w.log| - 1].request.inputs;
        && request.inputs[i].prevBlock == LastBlockHash(ToQueryInput(inputs[i]))
        && request.inputs[i].prevOffset == LastInputOffset(ToQueryInput(inputs[i]))
    {
      PlannedInputAt(w, request, source, engine, i);
    }
  }

  lemma PlannedInputs(w: World, now: Time, request: Request, source: Event, engine: Engine)
    requires Inv(w, source, engine) && NextOperation(w.inputs, w.output, now) == Ok(Some(request))
    ensures InputsRecorded(w.inputs, source.inputs, request.inputs)
    ensures ContinuesLog(w.log, request.inputs)
  {
    AllObtained(w.inputs, source.inputs, LastOf(w.output, ExecuteTransformKind), request.inputs);
    ObtainedInputs(w, request, source, engine);
  }

  lemma RecordedGrows(output: Hash, b: Block, idx: nat, entry: Entry, source: Event, engine: Engine)
    requires idx < |output| && Recorded(output, idx, entry, source, engine)
    requires !b.event.SetVocab? && (b.event.SetDataSchema? ==> SchemaOf(output).None?)
    ensures Recorded(output + [b], idx, entry, source, engine)
  {
    LastAppended(output, b, VocabKind);
    LastAppended(output, b, SchemaKind);
    assert (output + [b])[..idx] == output[..idx];
  }

  lemma {:induction false} LogRecordedGrows(output: Hash, b: Block, log: seq<Entry>, source: Event, engine: Engine)
    requires LogRecorded(output, log, source, engine)
    requires !b.event.SetVocab? && (b.event.SetDataSchema? ==> SchemaOf(output).None?)
    ensures !b.event.ExecuteTransform? ==> LogRecorded(output + [b], log, source, engine)
    ensures Queries(output) <= Queries(output + [b])
    ensures forall k | 0 <= k < |log| :: Recorded(output + [b], Queries(output)[k], log[k], source, engine)
  {
    QueriesAppended(output, b);
    forall k | 0 <= k < |log|
      ensures Recorded(output + [b], Queries(output)[k], log[k], source, engine)
    {
      RecordedGrows(output, b, Queries(output)[k], log[k], source, engine);
    }
  }

  lemma SchemaCommitted(w: World, b: Block, source: Event, engine: Engine)
    requires Inv(w, source, engine) && b.event.SetDataSchema? && SchemaOf(w.output).None?
    ensures Inv(w.(output := w.output + [b]), source, engine)
  {
    LogRecordedGrows(w.output, b, w.log, source, engine);
    LastAppended(w.output, b, TransformKind);
    LastAppended(w.output, b, ExecuteTransformKind);
    QueriesAppended(w.output, b);
  }

  lemma LogRecordedSnoc(
      output: Hash, b: Block, log: seq<Entry>, entry: Entry, source: Event, engine: Engine)
    requires LogRecorded(output, log, source, engine) && b.event.ExecuteTransform?
    requires Recorded(output + [b], |output|, entry, source, engine)
    ensures LogRecorded(output + [b], log + [entry], source, engine)
  {
    LogRecordedGrows(output, b, log, source, engine);
    QueriesAppended(output, b);
  }

  lemma LogLinkedSnoc(repo: Repo, log: seq<Entry>, entry: Entry, decls: seq<TransformInput>)
    requires LogLinked(repo, log, decls)
    requires InputsRecorded(repo, decls, entry.request.inputs)
    requires ContinuesLog(log, entry.request.inputs)
    ensures LogLinked(repo, log + [entry], decls)
  {
    forall k | 0 <= k < |log| ensures LinkedAt(repo, log + [entry], decls, k) {
      assert LinkedAt(repo, log, decls, k);
    }
  }

  lemma QueryRecorded(
      output: Hash, request: Request, run: nat, b: Block, source: Event, engine: Engine)
    requires source.SetTransform? && CommittedOn(request, output)
    requires request.transform == source.transform && request.vocab == VocabOf(output)
    requires request.schema.Some? ==> request.schema == SchemaOf(output)
    requires WellFormedResponse(engine(EngineView(request), run))
    requires b == Block(request.systemTime, PrepareEvent(request, engine(EngineView(request), run)))
    ensures Recorded(output + [b], |output|, Entry(request, run), source, engine)
  {
    LastAppended(output, b, VocabKind);
    LastAppended(output, b, SchemaKind);
    assert (output + [b])[..|output|] == output;
  }

  lemma QueryIsLast(output: Hash, b: Block, n: nat)
    requires b.event.ExecuteTransform? && |Queries(output)| == n
    ensures |Queries(output + [b])| == n + 1 && Queries(output + [b])[n] == |output|
    ensures LastOf(output + [b], ExecuteTransformKind) == Some(b.event)
  {
    QueriesAppended(output, b);
    LastAppended(output, b, ExecuteTransformKind);
  }

  lemma QueryAppended(output: Hash, log: seq<Entry>, entry: Entry, b: Block, source: Event, engine: Engine)
    requires OutputInv(output, log, source, engine) && b.event.ExecuteTransform?
    requires Recorded(output + [b], |output|, entry, source, engine)
    ensures OutputInv(output + [b], log + [entry], source, engine)
  {
    LogRecordedSnoc(output, b, log, entry, source, engine);
    LastAppended(output, b, TransformKind);
    QueryIsLast(output, b, |log|);
  }

  lemma QueryCommitted(w: World, request: Request, run: nat, b: Block, source: Event, engine: Engine)
    requires Inv(w, source, engine)
    requires InputsRecorded(w.inputs, source.inputs, request.inputs)
    requires ContinuesLog(w.log, request.inputs)
    requires CommittedOn(request, w.output)
    requires request.transform == source.transform && request.vocab == VocabOf(w.output)
    requires request.schema.Some? ==> request.schema == SchemaOf(w.output)
    requires WellFormedResponse(engine(EngineView(request), run))
    requires b == Block(request.systemTime, PrepareEvent(request, engine(EngineView(request), run)))
    ensures Inv(World(w.inputs, w.output + [b], w.log + [Entry(request, run)]), source, engine)
  {
    var entry := Entry(request, run);
    QueryRecorded(w.output, request, run, b, source, engine);
    QueryAppended(w.output, w.log, entry, b, source, engine);
    LogLinkedSnoc(w.inputs, w.log, entry, source.inputs);
  }

  /** A commit adds at most a schema and then at most the query. */
  lemma CommitShape(request: Request, response: Response)
    requires WellFormedResponse(response)
    ensures var c, h := Commit(request, response), CommitSchema(request, response);
      && (h.Ok? && h.value != request.head ==>
            && request.schema.None? && response.schema.Some?
            && h.value == request.head + [Block(request.systemTime, SetDataSchema(response.schema.value))])
      && (c.recorded ==> h.Ok? && c.head == h.value + [Block(request.systemTime, PrepareEvent(request, response))])
      && (!c.recorded ==> c.head == if h.Ok? then h.value else request.head)
  {
  }

  /** What a planned operation takes over from the output chain. */
  lemma {:induction false} PlannedOperation(repo: Repo, output: Hash, now: Time, request: Request)
    requires NextOperation(repo, output, now) == Ok(Some(request))
    ensures LastOf(output, TransformKind).Some? && request.transform == LastOf(output, TransformKind).value.transform
    ensures request.head == output && request.systemTime == now
    ensures request.schema == SchemaOf(output) && request.vocab == VocabOf(output)
  {
  }

  lemma CommitKeepsInv(
      w: World, request: Request, run: nat, schema: Schema, mid: Hash, source: Event, engine: Engine)
    requires Inv(w, source, engine) && request.head == w.output
    requires InputsRecorded(w.inputs, source.inputs, request.inputs)
    requires ContinuesLog(w.log, request.inputs)
    requires request.transform == source.transform && request.vocab == VocabOf(w.output)
    requires request.schema == SchemaOf(w.output)
    requires WellFormedResponse(engine(EngineView(request), run))
    requires mid == w.output ||
      (request.schema.None? && mid == w.output + [Block(request.systemTime, SetDataSchema(schema))])
    ensures Inv(w.(output := mid), source, engine)
    ensures var b := Block(request.systemTime, PrepareEvent(request, engine(EngineView(request), run)));
      Inv(World(w.inputs, mid + [b], w.log + [Entry(request, run)]), source, engine)
  {
    if mid != w.output {
      var b := Block(request.systemTime, SetDataSchema(schema));
      SchemaCommitted(w, b, source, engine);
      LastAppended(w.output, b, VocabKind);
    }
    var b := Block(request.systemTime, PrepareEvent(request, engine(EngineView(request), run)));
    QueryCommitted(w.(output := mid), request, run, b, source, engine);
  }

  lemma PerformKeepsInv(w: World, request: Request, run: nat, source: Event, engine: Engine)
    requires Inv(w, source, engine) && request.head == w.output
    requires InputsRecorded(w.inputs, source.inputs, request.inputs)
    requires ContinuesLog(w.log, request.inputs)
    requires request.transform == source.transform && request.vocab == VocabOf(w.output)
    requires request.schema == SchemaOf(w.output)
    ensures Inv(Perform(w, request, run, engine), source, engine)
  {
    var response := engine(EngineView(request), run);
    if WellFormedResponse(response) {
      CommitShape(request, response);
      var mid := CommitSchema(request, response);
      var schema := if response.schema.Some? then response.schema.value else [];
      CommitKeepsInv(w, request, run, schema, if mid.Ok? then mid.value else w.output, source, engine);
    }
  }

  lemma TransformRan(w: World, now: Time, run: nat, source: Event, engine: Engine)
    requires Inv(w, source, engine)
    ensures Inv(Advance(w, RunTransform(now, run), engine), source, engine)
  {
    var op := NextOperation(w.inputs, w.output, now);
    if op.Ok? && op.value.Some? {
      PlannedInputs(w, now, op.value.value, source, engine);
      PlannedOperation(w.inputs, w.output, now, op.value.value);
      PerformKeepsInv(w, op.value.value, run, source, engine);
    }
  }

  /** The invariant holds in every reachable state. */
  lemma {:induction false} InvHolds(w: World, steps: seq<Step>, engine: Engine)
    requires Fresh(w)
    ensures Inv(Run(w, steps, engine), LastOf(w.output, TransformKind).value, engine)
  {
    var source := LastOf(w.output, TransformKind).value;
    if steps == [] {
      NoQueries(w.output);
    } else {
      InvHolds(w, steps[..|steps| - 1], engine);
      var before := Run(w, steps[..|steps| - 1], engine);
      match steps[|steps| - 1] {
        case AppendInput(id, block) =>
          if id in before.inputs && Append(before.inputs[id], block).Ok? {
            InputAppended(before, id, block, source, engine);
          }
        case RunTransform(now, run) =>
          TransformRan(before, now, run, source, engine);
      }
    }
  }
}
