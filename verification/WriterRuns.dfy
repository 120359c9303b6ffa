/** Any number of writers that share a dataset, over whole runs. */
module WriterRuns {
  import opened Wrappers
  import opened Odf
  import opened Offsets
  import opened CompactionModel
  import opened WriterModel
  import opened WriterLaws

  datatype World = World(metas: seq<Meta>, head: Hash)

  /** A write or a watermark by one of the writers, a writer that scans the chain again, or
      an event that others commit and that carries neither data nor schema. */
  datatype Op =
    | WriteOp(i: nat, data: Option<RawData>, opts: WriteOpts)
    | WatermarkOp(i: nat, watermark: Time, opts: WriteOpts)
    | RescanOp(i: nat)
    | AnnotateOp(block: Block)

  predicate IsAnnotation(e: Event) {
    AsStream(e).None? && !e.SetDataSchema?
  }

  function WriterStep(m: Meta, head: Hash, op: Op, env: Env): Attempt
    requires op.WriteOp? || op.WatermarkOp?
  {
    if op.WriteOp? then Write(m, head, op.data, op.opts, env) else WriteWatermark(m, head, op.watermark, op.opts)
  }

  function Step(w: World, op: Op, env: Env): World {
    if op.AnnotateOp? then
      if IsAnnotation(op.block.event) && Append(w.head, op.block).Ok? then
        w.(head := Append(w.head, op.block).value)
      else w
    else if op.i >= |w.metas| then w
    else if op.RescanOp? then w.(metas := w.metas[op.i := ScanMeta(w.head)])
    else
      var a := WriterStep(w.metas[op.i], w.head, op, env);
      World(w.metas[op.i := a.meta], a.head)
  }

  function Run(w: World, ops: seq<Op>, env: Env): World
    decreases |ops|
  {
    if ops == [] then w else Run(Step(w, ops[0], env), ops[1..], env)
  }

  /** A writer knows some past of the dataset, and knows it as a scan would. */
  ghost predicate Knows(m: Meta, head: Hash) {
    Coherent(m) && m.head <= head
  }

  ghost predicate Inv(w: World) {
    && Sound(w.head)
    && Schemas(w.head) <= 1
    && forall i | 0 <= i < |w.metas| :: Knows(w.metas[i], w.head)
  }

  lemma KnowsMore(m: Meta, head: Hash, later: Hash)
    requires Knows(m, head) && head <= later
    ensures Knows(m, later)
  {
  }

  /** One operation of one writer. */
  lemma {:induction false} WriterStepKeeps(m: Meta, head: Hash, op: Op, env: Env)
    requires Knows(m, head) && Sound(head) && Schemas(head) <= 1 && (op.WriteOp? || op.WatermarkOp?)
    ensures var a := WriterStep(m, head, op, env);
      && Knows(a.meta, a.head) && Sound(a.head) && Schemas(a.head) <= 1 && head <= a.head
      && BaseOffset(a.head) == BaseOffset(head)
    ensures m.head != head ==> WriterStep(m, head, op, env).head == head && WriterStep(m, head, op, env).result.Err?
  {
    var s := if op.WriteOp? then Stage(m, op.data, op.opts, env) else StageWatermark(m, op.watermark, op.opts);
    if s.Ok? {
      if op.WriteOp? {
        StageFits(m, op.data, op.opts, env);
      } else {
        WatermarkFits(m, op.watermark, op.opts);
      }
      if m.head == head {
        CommitAppends(m, s.value);
        SchemasCounted(head);
      } else {
        StaleCommitRefused(m, head, s.value);
      }
    }
  }

  lemma {:induction false} AnnotationKeeps(c: Hash, b: Block)
    requires Sound(c) && IsAnnotation(b.event) && Append(c, b).Ok?
    ensures Sound(c + [b]) && Schemas(c + [b]) == Schemas(c) && BaseOffset(c + [b]) == BaseOffset(c)
  {
    SoundAppend(c, b);
    SchemasAppend(c, b);
  }

  lemma StepKeeps(w: World, op: Op, env: Env)
    requires Inv(w)
    ensures Inv(Step(w, op, env)) && w.head <= Step(w, op, env).head && |Step(w, op, env).metas| == |w.metas|
    ensures BaseOffset(Step(w, op, env).head) == BaseOffset(w.head)
  {
    var v := Step(w, op, env);
    if op.AnnotateOp? {
      if IsAnnotation(op.block.event) && Append(w.head, op.block).Ok? {
        AnnotationKeeps(w.head, op.block);
      }
    } else if op.i < |w.metas| && !op.RescanOp? {
      WriterStepKeeps(w.metas[op.i], w.head, op, env);
    }
    forall i | 0 <= i < |v.metas|
      ensures Knows(v.metas[i], v.head)
    {
      if v.metas[i] == w.metas[i] {
        KnowsMore(w.metas[i], w.head, v.head);
      }
    }
  }

  lemma {:induction false} RunKeeps(w: World, ops: seq<Op>, env: Env)
    requires Inv(w)
    ensures Inv(Run(w, ops, env)) && w.head <= Run(w, ops, env).head
    ensures BaseOffset(Run(w, ops, env).head) == BaseOffset(w.head)
    decreases |ops|
  {
    if ops == [] {
    } else {
      StepKeeps(w, ops[0], env);
      RunKeeps(Step(w, ops[0], env), ops[1..], env);
    }
  }

  /** After any run: no block was lost, the records are numbered consecutively, without gap or
      overlap, from 0 if the chain was empty, the watermark has not decreased, at most one schema
      was committed, and each writer's state is what a scan from its head would give. */
  lemma {:induction false} EveryRun(w: World, ops: seq<Op>, env: Env)
    requires Inv(w)
    ensures var v := Run(w, ops, env);
      && w.head <= v.head && Valid(v.head) && Intact(v.head)
      && Consecutive(ChainRows(v.head), BaseOffset(w.head))
      && NextOffset(ChainOffset(v.head)) == BaseOffset(w.head) + |ChainRows(v.head)|
      && (LastStream(w.head).None? ==> BaseOffset(w.head) == 0)
      && ChainRows(w.head) <= ChainRows(v.head)
      && WatermarkLe(ChainWatermark(w.head), ChainWatermark(v.head))
      && Schemas(v.head) <= 1
      && forall i | 0 <= i < |v.metas| :: Coherent(v.metas[i])
  {
    var v := Run(w, ops, env);
    RunKeeps(w, ops, env);
    OffsetsTile(v.head);
    RecordsByOffset(w.head);
    WatermarkMonotone(v.head, |w.head|, |v.head|);
    assert v.head[..|w.head|] == w.head && v.head[..|v.head|] == v.head;
    RowsGrow(w.head, v.head);
  }

  lemma {:induction false} RowsGrow(c: Hash, d: Hash)
    requires c <= d
    ensures ChainRows(c) <= ChainRows(d)
    decreases |d|
  {
    if c != d {
      var n := |d| - 1;
      assert d == d[..n] + [d[n]];
      RowsGrow(c, d[..n]);
      RowsAppend(d[..n], d[n]);
    }
  }

  /******* Keeping the state refines scanning before every operation *******/

  /** Merging does not depend on the order in which earlier files are listed. */
  ghost predicate OrderInsensitive(merge: MergeStep) {
    forall a, b, data :: multiset(a) == multiset(b) ==> merge(a, data) == merge(b, data)
  }

  /** Equal but for the order of the files. */
  predicate Alike(a: Meta, b: Meta) {
    a == b.(dataSlices := a.dataSlices) && multiset(a.dataSlices) == multiset(b.dataSlices)
  }

  lemma {:induction false} ReversedMultiset(files: seq<File>)
    ensures multiset(Reversed(files)) == multiset(files)
  {
    if files == [] {
    } else {
      ReversedMultiset(files[1..]);
      assert files == [files[0]] + files[1..];
    }
  }

  lemma StageAlike(a: Meta, b: Meta, data: Option<RawData>, opts: WriteOpts, env: Env)
    requires Alike(a, b) && OrderInsensitive(env.merge)
    ensures Stage(a, data, opts, env) == Stage(b, data, opts, env)
  {
    ReversedMultiset(a.dataSlices);
    ReversedMultiset(b.dataSlices);
  }

  lemma NoteAlike(a: Meta, b: Meta, head: Hash, e: Event)
    requires Alike(a, b) && e.AddData?
    ensures Alike(NoteAddData(a, head, e), NoteAddData(b, head, e))
  {
  }

  lemma DataAlike(oldHead: Hash, a: Meta, b: Meta, head: Hash, s: Staged)
    requires Alike(a, b) && WellFormedStaged(s)
    ensures var x, y := CommitData(oldHead, a, head, s), CommitData(oldHead, b, head, s);
      x.head == y.head && x.result == y.result && Alike(x.meta, y.meta)
  {
    if s.addData.Some? {
      var block := Block(s.systemTime, PrepareAddData(s.addData.value, s.dataFile));
      var r := CommitEvent(head, a.head, block);
      if r.Ok? {
        NoteAlike(a, b, r.value, block.event);
      }
    }
  }

  lemma CommitAlike(a: Meta, b: Meta, head: Hash, s: Staged)
    requires Alike(a, b) && WellFormedStaged(s)
    ensures var x, y := CommitStaged(a, head, s), CommitStaged(b, head, s);
      x.head == y.head && x.result == y.result && Alike(x.meta, y.meta)
  {
    if s.newSchema.None? {
      DataAlike(a.head, a, b, head, s);
    } else {
      var r := CommitEvent(head, a.head, Block(s.systemTime, SetDataSchema(s.newSchema.value)));
      if r.Ok? {
        DataAlike(a.head, a.(head := r.value, schema := s.newSchema), b.(head := r.value, schema := s.newSchema),
          r.value, s);
      }
    }
  }

  lemma WriterStepAlike(a: Meta, b: Meta, head: Hash, op: Op, env: Env)
    requires Alike(a, b) && OrderInsensitive(env.merge) && (op.WriteOp? || op.WatermarkOp?)
    ensures var x, y := WriterStep(a, head, op, env), WriterStep(b, head, op, env);
      x.head == y.head && x.result == y.result && Alike(x.meta, y.meta)
  {
    if op.WriteOp? {
      StageAlike(a, b, op.data, op.opts, env);
      StageWellFormed(a, op.data, op.opts, env);
      var s := Stage(a, op.data, op.opts, env);
      if s.Ok? {
        CommitAlike(a, b, head, s.value);
      }
    } else {
      var s := StageWatermark(a, op.watermark, op.opts);
      if s.Ok? {
        CommitAlike(a, b, head, s.value);
      }
    }
  }

  /** The same operation by a writer that first scans the chain up to the block it is at. */
  function ScanningStep(w: World, op: Op, env: Env): World {
    if op.AnnotateOp? || op.i >= |w.metas| then Step(w, op, env)
    else Step(w.(metas := w.metas[op.i := ScanMeta(w.metas[op.i].head)]), op, env)
  }

  function ScanningRun(w: World, ops: seq<Op>, env: Env): World
    decreases |ops|
  {
    if ops == [] then w else ScanningRun(ScanningStep(w, ops[0], env), ops[1..], env)
  }

  ghost predicate AlikeWorlds(w: World, v: World) {
    && w.head == v.head && |w.metas| == |v.metas|
    && forall i | 0 <= i < |w.metas| :: Alike(w.metas[i], v.metas[i])
  }

  lemma StepAlike(w: World, v: World, op: Op, env: Env)
    requires AlikeWorlds(w, v) && OrderInsensitive(env.merge)
    ensures AlikeWorlds(Step(w, op, env), Step(v, op, env))
  {
    if !op.AnnotateOp? && op.i < |w.metas| && !op.RescanOp? {
      WriterStepAlike(w.metas[op.i], v.metas[op.i], w.head, op, env);
    }
  }

  lemma ScannedAlike(w: World, v: World, i: nat)
    requires AlikeWorlds(w, v) && i < |w.metas| && Coherent(w.metas[i])
    ensures AlikeWorlds(w, v.(metas := v.metas[i := ScanMeta(v.metas[i].head)]))
  {
    assert Alike(w.metas[i], v.metas[i]);
  }

  /** Writers that keep their state produce the same chain as writers that scan it every time. */
  lemma {:induction false} KeepingRefinesScanning(w: World, v: World, ops: seq<Op>, env: Env)
    requires Inv(w) && AlikeWorlds(w, v) && OrderInsensitive(env.merge)
    ensures AlikeWorlds(Run(w, ops, env), ScanningRun(v, ops, env))
    decreases |ops|
  {
    if ops == [] {
    } else {
      var op := ops[0];
      StepKeeps(w, op, env);
      if !op.AnnotateOp? && op.i < |w.metas| {
        assert Knows(w.metas[op.i], w.head);
        ScannedAlike(w, v, op.i);
        StepAlike(w, v.(metas := v.metas[op.i := ScanMeta(v.metas[op.i].head)]), op, env);
      } else {
        StepAlike(w, v, op, env);
      }
      KeepingRefinesScanning(Step(w, op, env), ScanningStep(v, op, env), ops[1..], env);
    }
  }
}
