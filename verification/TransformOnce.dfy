/**
 Exactly-once processing: the block ranges of the recorded operations tile every
 input, so each input slice reaches the engine once and in chain order.
 */
module TransformOnce {
  import opened Wrappers
  import opened Odf
  import opened Offsets
  import opened TransformModel
  import opened TransformRuns

  lemma {:induction false} SlicesConcat(a: seq<Block>, b: seq<Block>)
    ensures SlicesOf(a + b) == SlicesOf(a) + SlicesOf(b)
  {
    if b == [] {
      assert a + b == a;
    } else {
      var n := |b| - 1;
      SlicesConcat(a, b[..n]);
      assert (a + b)[..|a + b| - 1] == a + b[..n];
    }
  }

  /******* Tiling *******/

  /** Input i is part of every operation. */
  predicate HasInput(log: seq<Entry>, i: nat) {
    forall k | 0 <= k < |log| :: i < |log[k].request.inputs|
  }

  function OrEmpty(h: Option<Hash>): Hash {
    if h.Some? then h.value else []
  }

  /** All blocks of input i that were handed out, operation after operation. */
  function HandedOutBlocks(log: seq<Entry>, i: nat): seq<Block>
    requires HasInput(log, i)
  {
    if log == [] then []
    else
      var last := |log| - 1;
      var blocks := InputBlocks(ToQueryInput(log[last].request.inputs[i]));
      HandedOutBlocks(log[..last], i) + if blocks.Ok? then blocks.value else []
  }

  /** All slices of input i that the engine was given, operation after operation. */
  function HandedOutSlices(log: seq<Entry>, i: nat): seq<File>
    requires HasInput(log, i)
  {
    if log == [] then []
    else HandedOutSlices(log[..|log| - 1], i) + EngineView(log[|log| - 1].request).inputs[i].slices
  }

  /** History of input i up to the last block that was handed out. */
  function Processed(log: seq<Entry>, i: nat): Hash
    requires HasInput(log, i)
  {
    if log == [] then []
    else OrEmpty(LastBlockHash(ToQueryInput(log[|log| - 1].request.inputs[i])))
  }

  lemma PrefixLinked(repo: Repo, log: seq<Entry>, decls: seq<TransformInput>, n: nat)
    requires LogLinked(repo, log, decls) && n <= |log|
    ensures LogLinked(repo, log[..n], decls)
  {
    forall k | 0 <= k < n ensures LinkedAt(repo, log[..n], decls, k) {
      assert LinkedAt(repo, log, decls, k);
    }
  }

  lemma InputInRange(repo: Repo, log: seq<Entry>, decls: seq<TransformInput>, i: nat)
    requires LogLinked(repo, log, decls) && i < |decls|
    ensures HasInput(log, i)
  {
    forall k | 0 <= k < |log| ensures i < |log[k].request.inputs| {
      assert LinkedAt(repo, log, decls, k);
    }
  }

  /** An operation continues where the operations before it stopped. */
  lemma ContinuesProcessed(repo: Repo, log: seq<Entry>, decls: seq<TransformInput>, i: nat, n: nat)
    requires LogLinked(repo, log, decls) && i < |decls| && n < |log| && HasInput(log, i)
    ensures Processed(log[..n], i) == OrEmpty(ToQueryInput(log[n].request.inputs[i]).prevBlock)
  {
    assert LinkedAt(repo, log, decls, n);
    if n == 0 {
      assert FromBeginning(log[n].request.inputs);
    } else {
      assert log[..n][n - 1] == log[n - 1];
      assert Continues(log[n - 1].request, log[n].request.inputs);
    }
  }

  /** The blocks of an input reach from its previous block to its last one, and the slices are
      theirs. */
  lemma InputTile(repo: Repo, decl: TransformInput, input: RequestInput)
    requires InputRecorded(repo, decl, input)
    ensures var q := ToQueryInput(input);
      && InputBlocks(q).Ok? && OrEmpty(q.prevBlock) + InputBlocks(q).value == OrEmpty(LastBlockHash(q))
      && SlicesOf(OrEmpty(LastBlockHash(q))) == SlicesOf(OrEmpty(q.prevBlock)) + input.slices
  {
    var q := ToQueryInput(input);
    SlicesConcat(OrEmpty(q.prevBlock), InputBlocks(q).value);
  }

  lemma {:induction false} LogTiles(repo: Repo, log: seq<Entry>, decls: seq<TransformInput>, i: nat)
    requires LogLinked(repo, log, decls) && i < |decls|
    ensures HasInput(log, i)
    ensures HandedOutBlocks(log, i) == Processed(log, i)
    ensures HandedOutSlices(log, i) == SlicesOf(Processed(log, i))
  {
    InputInRange(repo, log, decls, i);
    if log != [] {
      var n := |log| - 1;
      PrefixLinked(repo, log, decls, n);
      LogTiles(repo, log[..n], decls, i);
      ContinuesProcessed(repo, log, decls, i, n);
      assert LinkedAt(repo, log, decls, n) && InputRecorded(repo, decls[i], log[n].request.inputs[i]);
      InputTile(repo, decls[i], log[n].request.inputs[i]);
    }
  }

  /** In every reachable state, what the operations of the run covered of each input is one
      prefix of that input, every block of it once and in order, and the slices the engine was
      given are exactly the slices of that prefix. */
  lemma {:induction false} ExactlyOnce(start: World, steps: seq<Step>, engine: Engine, i: nat)
    requires Fresh(start) && i < |LastOf(start.output, TransformKind).value.inputs|
    ensures var w, decl := Run(start, steps, engine), LastOf(start.output, TransformKind).value.inputs[i];
      && HasInput(w.log, i)
      && HandedOutBlocks(w.log, i) == Processed(w.log, i)
      && HandedOutSlices(w.log, i) == SlicesOf(Processed(w.log, i))
      && (w.log != [] ==> decl.id in w.inputs && Processed(w.log, i) <= w.inputs[decl.id])
  {
    var w, source := Run(start, steps, engine), LastOf(start.output, TransformKind).value;
    InvHolds(start, steps, engine);
    LogTiles(w.inputs, w.log, source.inputs, i);
    if w.log != [] {
      assert LinkedAt(w.inputs, w.log, source.inputs, |w.log| - 1);
      assert InputRecorded(w.inputs, source.inputs[i], w.log[|w.log| - 1].request.inputs[i]);
    }
  }

  lemma {:induction false} PlannedToHead(repo: Repo, output: Hash, now: Time, request: Request, i: nat)
    requires NextOperation(repo, output, now) == Ok(Some(request))
    requires LastOf(output, TransformKind).Some? && i < |LastOf(output, TransformKind).value.inputs|
    ensures var id := LastOf(output, TransformKind).value.inputs[i].id;
      i < |request.inputs| && id in repo && LastBlockHash(ToQueryInput(request.inputs[i])) == Some(repo[id])
  {
    InputObtained(
      repo, LastOf(output, TransformKind).value.inputs, LastOf(output, ExecuteTransformKind), request.inputs, i);
  }

  /** A step that makes the log longer has performed the planned operation. */
  lemma StepRecorded(v: World, now: Time, run: nat, engine: Engine)
    requires |Advance(v, RunTransform(now, run), engine).log| > |v.log|
    ensures var op, w := NextOperation(v.inputs, v.output, now), Advance(v, RunTransform(now, run), engine);
      op.Ok? && op.value.Some? && w.inputs == v.inputs && w.log == v.log + [Entry(op.value.value, run)]
  {
  }

  lemma {:induction false} ProcessedAfter(v: World, source: Event, entry: Entry, i: nat, engine: Engine)
    requires Inv(v, source, engine) && i < |source.inputs| && i < |entry.request.inputs|
    ensures HasInput(v.log + [entry], i)
    ensures Processed(v.log + [entry], i) == OrEmpty(LastBlockHash(ToQueryInput(entry.request.inputs[i])))
  {
    InputInRange(v.inputs, v.log, source.inputs, i);
  }

  /** A recorded operation leaves no block of any input behind. */
  lemma {:induction false} NothingLeftBehind(
      start: World, steps: seq<Step>, engine: Engine, now: Time, run: nat, i: nat)
    requires Fresh(start) && i < |LastOf(start.output, TransformKind).value.inputs|
    requires |Advance(Run(start, steps, engine), RunTransform(now, run), engine).log| > |Run(start, steps, engine).log|
    ensures var w, id := Advance(Run(start, steps, engine), RunTransform(now, run), engine),
      LastOf(start.output, TransformKind).value.inputs[i].id;
      && HasInput(w.log, i)
      && id in w.inputs && Processed(w.log, i) == w.inputs[id]
  {
    var v, source := Run(start, steps, engine), LastOf(start.output, TransformKind).value;
    InvHolds(start, steps, engine);
    StepRecorded(v, now, run, engine);
    var request := NextOperation(v.inputs, v.output, now).value.value;
    PlannedToHead(v.inputs, v.output, now, request, i);
    ProcessedAfter(v, source, Entry(request, run), i, engine);
  }

  /******* Counting records by offsets *******/

  lemma {:induction false} OffsetsTracked(repo: Repo, log: seq<Entry>, decls: seq<TransformInput>, k: nat, i: nat)
    requires LogLinked(repo, log, decls) && k < |log| && i < |decls|
    requires forall id | id in repo :: Valid(repo[id])
    ensures i < |log[k].request.inputs|
    ensures var input := log[k].request.inputs[i];
      var q := ToQueryInput(input);
      && InputRecorded(repo, decls[i], input)
      && LastInputOffset(q) == ChainOffset(LastBlockHash(q).value)
      && input.prevOffset == (if input.prevBlock.Some? then ChainOffset(input.prevBlock.value) else None)
  {
    assert LinkedAt(repo, log, decls, k);
    var input := log[k].request.inputs[i];
    assert InputRecorded(repo, decls[i], input);
    var last := LastBlockHash(ToQueryInput(input)).value;
    if k == 0 {
      assert FromBeginning(log[k].request.inputs);
    } else {
      OffsetsTracked(repo, log, decls, k - 1, i);
      assert Continues(log[k - 1].request, log[k].request.inputs);
    }
    if input.prevBlock.Some? {
      var n := |input.prevBlock.value|;
      ValidPrefix(repo[input.id], |last|);
      assert repo[input.id][..|last|] == last;
      assert last[..n] == input.prevBlock.value;
      OffsetsPersist(last, n);
    }
  }

  /** The number of records that an operation declares for an input, from its offsets, equals
      the number of records in the slices it lists if and only if the input's records start at
      offset zero, or the operation is not the first one to see records of that input. */
  lemma {:induction false} DeclaredRecordsIff(start: World, steps: seq<Step>, engine: Engine, k: nat, i: nat)
    requires Fresh(start) && i < |LastOf(start.output, TransformKind).value.inputs|
    requires k < |Run(start, steps, engine).log|
    ensures var request := Run(start, steps, engine).log[k].request;
      && i < |request.inputs|
      && var q := ToQueryInput(request.inputs[i]);
         && InputBlocks(q).Ok?
         && (q.newOffset.Some? ==> q.newBlock.Some?)
         && (InputRecords(q) == RecordsIn(InputBlocks(q).value) <==>
               q.newOffset.None? || q.prevOffset.Some? || BaseOffset(q.newBlock.value) == 0)
  {
    var w, source := Run(start, steps, engine), LastOf(start.output, TransformKind).value;
    InvHolds(start, steps, engine);
    OffsetsTracked(w.inputs, w.log, source.inputs, k, i);
    var input := w.log[k].request.inputs[i];
    if input.newBlock.Some? {
      var h := input.newBlock.value;
      var n := if input.prevBlock.Some? then |input.prevBlock.value| else 0;
      ValidPrefix(w.inputs[input.id], |h|);
      assert w.inputs[input.id][..|h|] == h;
      assert h[..n] == if input.prevBlock.Some? then input.prevBlock.value else [];
      assert h[n..] == InputBlocks(ToQueryInput(input)).value;
      ValidPrefix(h, n);
      IntervalRecords(h, n);
      RecordsByOffset(h);
      RecordsByOffset(h[..n]);
      OffsetsPersist(h, n);
    }
  }
}
