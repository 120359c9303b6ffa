/** What a dataset shows after a write, read off its chain. */
module WriterEffects {
  import opened Wrappers
  import opened Odf
  import opened Offsets
  import opened CompactionModel
  import opened TransformModel
  import opened WriterModel
  import opened WriterLaws

  /** The source state that the newest data event carries. */
  function HeadState(c: Hash): Option<SourceState> {
    var e := LastOf(c, AddDataKind);
    if e.Some? then e.value.sourceState else None
  }

  /** The least watermark that is reached by the rows and is not below the old one. */
  ghost predicate Reached(w: Option<Time>, prev: Option<Time>, rows: seq<Row>) {
    && w.Some? && (prev.Some? ==> prev.value <= w.value)
    && (forall i | 0 <= i < |rows| :: rows[i].eventTime <= w.value)
    && (w == prev || exists i | 0 <= i < |rows| :: rows[i].eventTime == w.value)
  }

  /** The watermark after a write: the explicit one if data comes with one, the old one if there are
      no rows, and otherwise what the rows reach. */
  ghost predicate WatermarkMoved(
      w: Option<Time>, prev: Option<Time>, data: Option<RawData>, opts: WriteOpts, rows: seq<Row>) {
    if data.Some? && opts.newWatermark.Some? then w == opts.newWatermark
    else if rows == [] then w == prev
    else Reached(w, prev, rows)
  }

  /** The rows are those that the merge gives, numbered from start, with missing event times filled
      in. */
  ghost predicate RowsOfMerge(rows: seq<Row>, merged: seq<NewRow>, start: int, fallback: Time) {
    && |rows| == |merged|
    && forall i | 0 <= i < |rows| ::
         && rows[i].offset == start + i && rows[i].payload == merged[i].payload
         && rows[i].eventTime == (if merged[i].eventTime.Some? then merged[i].eventTime.value else fallback)
  }

  /** What becomes of the merge of the data: the rows, and the schema if there was none. */
  ghost predicate MergeWritten(
      c: Hash, d: Hash, files: seq<File>, data: Option<RawData>, opts: WriteOpts, env: Env, rows: seq<Row>) {
    if data.None? then rows == [] && SchemaOf(d) == SchemaOf(c)
    else
      var merged := env.merge(files, data.value);
      && merged.Ok? && SchemaOf(d) == SchemaOf(c).OrElse(Some(merged.value.schema))
      && RowsOfMerge(rows, merged.value.rows, BaseOffset(c) + |ChainRows(c)|, opts.sourceEventTime)
  }

  /** Chain d is chain c after the write. */
  ghost predicate Written(c: Hash, d: Hash, files: seq<File>, data: Option<RawData>, opts: WriteOpts, env: Env) {
    && c <= d && (forall k | |c| <= k < |d| :: d[k].systemTime == opts.systemTime)
    && HeadState(d) == opts.newSourceState
    && ChainRows(c) <= ChainRows(d)
    && var rows := ChainRows(d)[|ChainRows(c)|..];
       && WatermarkMoved(ChainWatermark(d), ChainWatermark(c), data, opts, rows)
       && MergeWritten(c, d, files, data, opts, env, rows)
  }

  /******* The watermark and the source state *******/

  lemma RowsReach(rows: seq<Row>, prev: Option<Time>)
    requires rows != []
    ensures Reached(OutputWatermark(rows, prev), prev, rows)
  {
    NewestEventTime(rows);
    var i :| 0 <= i < |rows| && rows[i].eventTime == MaxEventTime(rows);
    if OutputWatermark(rows, prev) != prev {
      assert rows[i].eventTime == OutputWatermark(rows, prev).value;
    }
  }

  /** What the head shows after everything staged has been committed. */
  lemma HeadAfterBlocks(m: Meta, s: Staged)
    requires Coherent(m) && Sound(m.head) && WellFormedStaged(s)
    ensures var d := m.head + (SchemaBlocks(s) + DataBlocks(s));
      && ChainWatermark(d) == (if s.addData.Some? then s.addData.value.newWatermark else m.prevWatermark)
      && HeadState(d) == (if s.addData.Some? then s.addData.value.newSourceState else m.prevSourceState)
      && SchemaOf(d) == s.newSchema.OrElse(SchemaOf(m.head))
      && forall k | |m.head| <= k < |d| :: d[k].systemTime == s.systemTime
  {
    var d := m.head + SchemaBlocks(s);
    RootStream(m.head);
    if s.newSchema.Some? {
      var b := SchemaBlocks(s)[0];
      LastAppended(m.head, b, AddDataKind);
      LastAppended(m.head, b, SchemaKind);
    } else {
      assert d == m.head;
    }
    assert m.head + (SchemaBlocks(s) + DataBlocks(s)) == d + DataBlocks(s);
    if s.addData.Some? {
      var b := DataBlocks(s)[0];
      LastAppended(d, b, AddDataKind);
      LastAppended(d, b, SchemaKind);
    } else {
      assert d + DataBlocks(s) == d;
    }
  }

  /** Whether or not a data event is staged, the head will show what the output says. */
  lemma StagedShows(m: Meta, data: Option<RawData>, opts: WriteOpts, env: Env)
    requires Stage(m, data, opts, env).Ok?
    ensures var s, p := Stage(m, data, opts, env).value, StageOutput(m, data, opts, env).value.addData;
      && s.systemTime == opts.systemTime
      && (if s.addData.Some? then s.addData.value.newWatermark else m.prevWatermark) == p.newWatermark
      && (if s.addData.Some? then s.addData.value.newSourceState else m.prevSourceState) == p.newSourceState
      && p.newSourceState == opts.newSourceState
      && (data.None? ==> s.newSchema.None?)
      && (data.Some? ==>
            var merged := env.merge(Reversed(m.dataSlices), data.value);
            merged.Ok? && s.newSchema == if m.schema.None? then Some(merged.value.schema) else None)
  {
  }

  /** The rows that a write adds. */
  function NewRows(m: Meta, data: Option<RawData>, opts: WriteOpts, env: Env): seq<Row> {
    if data.None? then []
    else
      var merged := env.merge(Reversed(m.dataSlices), data.value);
      if merged.Err? then []
      else WithSystemColumns(merged.value.rows, opts.sourceEventTime, NextOffset(m.prevOffset))
  }

  lemma OutputMoves(m: Meta, data: Option<RawData>, opts: WriteOpts, env: Env)
    requires Stage(m, data, opts, env).Ok?
    ensures WatermarkMoved(StageOutput(m, data, opts, env).value.addData.newWatermark, m.prevWatermark, data, opts,
      NewRows(m, data, opts, env))
  {
    if NewRows(m, data, opts, env) != [] {
      RowsReach(NewRows(m, data, opts, env), m.prevWatermark);
    }
  }

  lemma HeadWritten(m: Meta, data: Option<RawData>, opts: WriteOpts, env: Env)
    requires Coherent(m) && Sound(m.head) && Write(m, m.head, data, opts, env).result.Ok?
    ensures var d := Write(m, m.head, data, opts, env).head;
      && m.head <= d && (forall k | |m.head| <= k < |d| :: d[k].systemTime == opts.systemTime)
      && HeadState(d) == opts.newSourceState
      && WatermarkMoved(ChainWatermark(d), ChainWatermark(m.head), data, opts, NewRows(m, data, opts, env))
  {
    StageFits(m, data, opts, env);
    var s := Stage(m, data, opts, env).value;
    CommitAppends(m, s);
    HeadAfterBlocks(m, s);
    StagedShows(m, data, opts, env);
    RootStream(m.head);
    OutputMoves(m, data, opts, env);
  }

  lemma SchemaWritten(m: Meta, data: Option<RawData>, opts: WriteOpts, env: Env)
    requires Coherent(m) && Sound(m.head) && Write(m, m.head, data, opts, env).result.Ok?
    ensures MergeWritten(m.head, Write(m, m.head, data, opts, env).head, Reversed(m.dataSlices), data, opts, env,
      NewRows(m, data, opts, env))
  {
    StageFits(m, data, opts, env);
    var s := Stage(m, data, opts, env).value;
    CommitAppends(m, s);
    HeadAfterBlocks(m, s);
    StagedShows(m, data, opts, env);
    NextRow(m);
  }

  lemma RowsWritten(m: Meta, data: Option<RawData>, opts: WriteOpts, env: Env)
    requires Coherent(m) && Sound(m.head) && Write(m, m.head, data, opts, env).result.Ok?
    ensures ChainRows(Write(m, m.head, data, opts, env).head) == ChainRows(m.head) + NewRows(m, data, opts, env)
  {
    WriteAddsRows(m, data, opts, env);
    NextRow(m);
  }

  /** What a successful write leaves behind. */
  lemma WriteEffect(m: Meta, data: Option<RawData>, opts: WriteOpts, env: Env)
    requires Coherent(m) && Sound(m.head) && Write(m, m.head, data, opts, env).result.Ok?
    ensures Written(m.head, Write(m, m.head, data, opts, env).head, Reversed(m.dataSlices), data, opts, env)
  {
    var d := Write(m, m.head, data, opts, env).head;
    HeadWritten(m, data, opts, env);
    SchemaWritten(m, data, opts, env);
    RowsWritten(m, data, opts, env);
    assert ChainRows(d)[|ChainRows(m.head)|..] == NewRows(m, data, opts, env);
  }

  /** What is reported of a commit that succeeds. */
  lemma CommitReported(m: Meta, head: Hash, s: Staged)
    requires WellFormedStaged(s)
    ensures var a := CommitStaged(m, head, s);
      a.result.Ok? ==>
        && a.result.value.oldHead == m.head && a.result.value.newHead == a.meta.head
        && (a.result.value.addDataBlock.Some? <==> s.addData.Some?)
        && (a.result.value.addDataBlock.Some? ==>
              a.head != [] && a.head[|a.head| - 1] == a.result.value.addDataBlock.value)
  {
  }

  /** What a successful write of a watermark leaves behind. */
  lemma WatermarkEffect(m: Meta, watermark: Time, opts: WriteOpts)
    requires Coherent(m) && Sound(m.head) && WriteWatermark(m, m.head, watermark, opts).result.Ok?
    ensures var d := WriteWatermark(m, m.head, watermark, opts).head;
      && ChainWatermark(d) == Some(watermark) && HeadState(d) == opts.newSourceState
      && ChainRows(d) == ChainRows(m.head) && SchemaOf(d) == SchemaOf(m.head)
  {
    var s := StageWatermark(m, watermark, opts).value;
    WatermarkFits(m, watermark, opts);
    CommitAppends(m, s);
    HeadAfterBlocks(m, s);
    BlocksAddRows(m.head, s);
  }

  /******* When something is staged *******/

  /** A write is staged exactly if the merge succeeds with a schema that fits, and there are rows, or
      the schema, the watermark or the source state is new. */
  lemma StagedIff(m: Meta, data: Option<RawData>, opts: WriteOpts, env: Env)
    ensures Stage(m, data, opts, env).Ok? <==>
      if data.None? then opts.newSourceState != m.prevSourceState
      else
        var merged := env.merge(Reversed(m.dataSlices), data.value);
        && merged.Ok?
        && (m.schema.Some? ==> SchemaEquivalent(m.schema.value, merged.value.schema))
        && (|| m.schema.None? || merged.value.rows != []
            || (opts.newWatermark.Some? && opts.newWatermark != m.prevWatermark)
            || opts.newSourceState != m.prevSourceState)
  {
  }

  /******* The files that a merge gets *******/

  lemma {:induction false} ReversedRows(files: seq<File>)
    ensures AllRows(Reversed(files)) == RowsOldestFirst(files)
  {
    if files == [] {
    } else {
      ReversedRows(files[1..]);
      AllRowsSnoc(Reversed(files[1..]), files[0]);
    }
  }

  lemma {:induction false} AllRowsSnoc(files: seq<File>, file: File)
    ensures AllRows(files + [file]) == AllRows(files) + file.rows
  {
    if files == [] {
      assert files + [file] == [file] && [file][1..] == [];
      assert AllRows([]) == [];
    } else {
      assert (files + [file])[1..] == files[1..] + [file];
      AllRowsSnoc(files[1..], file);
    }
  }

  /** After a scan the merge reads the records of the chain in chain order. */
  lemma MergeReadsChain(c: Hash)
    ensures AllRows(Reversed(ScanMeta(c).dataSlices)) == ChainRows(c)
  {
    ReversedRows(NewestSlices(c));
  }
}
