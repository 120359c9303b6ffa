/** What single writes keep, and exactly when they are refused. */
module WriterLaws {
  import opened Wrappers
  import opened Odf
  import opened Offsets
  import opened CompactionModel
  import opened TransformModel
  import opened WriterModel

  /******* Offsets and watermark read back from the file *******/

  lemma {:induction false} AssignedInterval(rows: seq<Row>, start: nat)
    requires rows != [] && Consecutive(rows, start)
    ensures MinOffset(rows) == start && MaxOffset(rows) == start + |rows| - 1
  {
    if |rows| > 1 {
      AssignedInterval(rows[..|rows| - 1], start);
    }
  }

  /** The newest event time bounds all others and belongs to some row. */
  lemma {:induction false} NewestEventTime(rows: seq<Row>)
    requires rows != []
    ensures forall i | 0 <= i < |rows| :: rows[i].eventTime <= MaxEventTime(rows)
    ensures exists i | 0 <= i < |rows| :: rows[i].eventTime == MaxEventTime(rows)
  {
    var n := |rows| - 1;
    if n > 0 {
      var rest := rows[..n];
      NewestEventTime(rest);
      var k :| 0 <= k < n && rest[k].eventTime == MaxEventTime(rest);
      assert rows[k].eventTime == MaxEventTime(rest);
      forall i | 0 <= i < |rows|
        ensures rows[i].eventTime <= MaxEventTime(rows)
      {
        if i < n {
          assert rest[i].eventTime <= MaxEventTime(rest);
        }
      }
      assert rows[n].eventTime == MaxEventTime(rows) || rows[k].eventTime == MaxEventTime(rows);
    } else {
      assert rows[0].eventTime == MaxEventTime(rows);
    }
  }

  /******* What a staged change has to do with the state it was staged from *******/

  /** The slice that will be committed holds one row for each offset after the last one. */
  ghost predicate Continues(m: Meta, p: AddDataParams, file: File) {
    && p.newOffsetInterval.Some?
    && file.rows != []
    && p.newOffsetInterval.value == OffsetInterval(NextOffset(m.prevOffset), NextOffset(m.prevOffset) + |file.rows| - 1)
    && Consecutive(file.rows, NextOffset(m.prevOffset))
  }

  ghost predicate Fits(m: Meta, p: AddDataParams, file: Option<File>) {
    && p.prevOffset == m.prevOffset
    && p.prevCheckpoint == m.prevCheckpoint
    && Advances(m, p)
    && (file.Some? <==> p.newOffsetInterval.Some?)
    && (file.Some? ==> Continues(m, p, file.value))
  }

  ghost predicate StagedFrom(m: Meta, s: Staged) {
    && WellFormedStaged(s)
    && (s.newSchema.Some? ==> m.schema.None?)
    && (s.addData.Some? ==> Fits(m, s.addData.value, s.dataFile))
    && (s.dataFile.Some? ==> m.schema.Some? || s.newSchema.Some?)
  }

  lemma OutputContinues(m: Meta, merged: Merged, opts: WriteOpts, encode: RowEncoder)
    ensures var o := OutputOf(m, merged, opts, encode);
      && (o.dataFile.Some? <==> merged.rows != [])
      && (o.dataFile.Some? ==>
            Continues(m, o.addData, o.dataFile.value) &&
            o.dataFile.value.rows == WithSystemColumns(merged.rows, opts.sourceEventTime, NextOffset(m.prevOffset)))
  {
    var rows := WithSystemColumns(merged.rows, opts.sourceEventTime, NextOffset(m.prevOffset));
    if rows != [] {
      AssignedInterval(rows, NextOffset(m.prevOffset));
    }
  }

  lemma StageFits(m: Meta, data: Option<RawData>, opts: WriteOpts, env: Env)
    ensures var s := Stage(m, data, opts, env); s.Ok? ==> StagedFrom(m, s.value)
  {
    if data.Some? {
      var merged := env.merge(Reversed(m.dataSlices), data.value);
      if merged.Ok? {
        OutputContinues(m, merged.value, opts, env.encode);
      }
    }
  }

  lemma WatermarkFits(m: Meta, watermark: Time, opts: WriteOpts)
    ensures var s := StageWatermark(m, watermark, opts); s.Ok? ==> StagedFrom(m, s.value)
  {
  }

  /******* Scans of a grown chain *******/

  lemma {:induction false} SlicesAppend(c: Hash, b: Block)
    ensures NewestSlices(c + [b]) ==
      (if b.event.AddData? && b.event.stream.newData.Some? then [b.event.stream.newData.value.physicalHash] else [])
      + NewestSlices(c)
  {
    assert (c + [b])[..|c|] == c;
  }

  lemma CoherentAfterSchema(m: Meta, b: Block)
    requires Coherent(m) && b.event.SetDataSchema?
    ensures Coherent(m.(head := m.head + [b], schema := Some(b.event.schema)))
  {
    LastAppended(m.head, b, SchemaKind);
    LastAppended(m.head, b, VocabKind);
    LastAppended(m.head, b, AddDataKind);
    SlicesAppend(m.head, b);
  }

  /** Updating the state in place amounts to scanning the grown chain again. */
  lemma CoherentAfterData(m: Meta, b: Block)
    requires Coherent(m) && b.event.AddData? && b.event.stream.prevOffset == m.prevOffset
    ensures Coherent(NoteAddData(m, m.head + [b], b.event))
  {
    var c := m.head;
    LastAppended(c, b, SchemaKind);
    LastAppended(c, b, VocabKind);
    LastAppended(c, b, AddDataKind);
    SlicesAppend(c, b);
  }

  /******* Chains that writers may work on *******/

  function Schemas(c: Hash): nat {
    if c == [] then 0
    else Schemas(c[..|c| - 1]) + if c[|c| - 1].event.SetDataSchema? then 1 else 0
  }

  lemma {:induction false} SchemasCounted(c: Hash)
    ensures Schemas(c) == 0 <==> SchemaOf(c).None?
  {
    if c == [] {
    } else {
      SchemasCounted(c[..|c| - 1]);
    }
  }

  lemma {:induction false} SchemasAppend(c: Hash, b: Block)
    ensures Schemas(c + [b]) == Schemas(c) + if b.event.SetDataSchema? then 1 else 0
  {
    assert (c + [b])[..|c|] == c;
  }

  /** A root chain that writers may work on. */
  ghost predicate Sound(c: Hash) {
    c != [] && Valid(c) && Intact(c) && IsRoot(c)
  }

  lemma {:induction false} RootStream(c: Hash)
    requires IsRoot(c)
    ensures LastStream(c) == if LastOf(c, AddDataKind).Some? then Some(LastOf(c, AddDataKind).value.stream) else None
  {
    if c == [] {
    } else {
      RootStream(c[..|c| - 1]);
    }
  }

  lemma {:induction false} SoundAppend(c: Hash, b: Block)
    requires Sound(c) && Validate(c, b).Accepted? && !b.event.ExecuteTransform?
    requires HasData(b.event) ==> SliceIntact(b.event.stream.newData.value)
    requires b.event.AddData? && LastStream(c).None? ==> b.event.stream.prevOffset.None?
    ensures Sound(c + [b]) && BaseOffset(c + [b]) == BaseOffset(c)
  {
    ValidAppend(c, b);
    RecordsByOffset(c);
    assert (c + [b])[..|c|] == c;
  }

  /** The rows of a chain, in chain order. */
  function ChainRows(c: Hash): seq<Row> {
    RowsOldestFirst(NewestSlices(c))
  }

  lemma RowsAppend(c: Hash, b: Block)
    ensures ChainRows(c + [b]) ==
      ChainRows(c) +
      if b.event.AddData? && b.event.stream.newData.Some? then b.event.stream.newData.value.physicalHash.rows else []
  {
    SlicesAppend(c, b);
  }

  /** The offset that comes next is the first one plus the number of records. */
  lemma {:induction false} NextOffsetCounts(c: Hash)
    requires Valid(c)
    ensures NextOffset(ChainOffset(c)) == BaseOffset(c) + RecordsIn(c)
  {
    RecordsByOffset(c);
  }

  /** On a valid chain the rows of a block follow the rows before it. */
  lemma {:induction false} RowsFollow(c: Hash, b: Block)
    requires Valid(c + [b]) && Intact(c + [b]) && b.event.AddData? && b.event.stream.newData.Some?
    ensures var d := b.event.stream.newData.value;
      && Consecutive(d.physicalHash.rows, BaseOffset(c + [b]) + RecordsIn(c))
      && |d.physicalHash.rows| == NumRecords(d)
      && RecordsIn(c + [b]) == RecordsIn(c) + NumRecords(d)
    ensures RecordsIn(c) != 0 ==> BaseOffset(c + [b]) == BaseOffset(c)
  {
    var e := c + [b];
    assert e[..|c|] == c && e[|c|] == b;
    ValidPrefix(e, |c|);
    StreamLinked(e, |c|);
    RecordsByOffset(c);
    assert SliceIntact(e[|c|].event.stream.newData.value);
  }

  lemma {:induction false} BaseKept(c: Hash, b: Block)
    requires Valid(c + [b]) && RecordsIn(c) != 0
    ensures BaseOffset(c + [b]) == BaseOffset(c)
  {
    assert (c + [b])[..|c|] == c;
    ValidPrefix(c + [b], |c|);
    RecordsByOffset(c);
  }

  /** The records of a chain carry consecutive offsets, without gap or overlap: 0, 1, 2, ...
      unless its first data event carries an offset already. */
  lemma {:induction false} OffsetsTile(c: Hash)
    requires Valid(c) && Intact(c) && IsRoot(c)
    ensures Consecutive(ChainRows(c), BaseOffset(c))
    ensures |ChainRows(c)| == RecordsIn(c)
    ensures NextOffset(ChainOffset(c)) == BaseOffset(c) + |ChainRows(c)|
  {
    NextOffsetCounts(c);
    if c != [] {
      var n := |c| - 1;
      var p := c[..n];
      assert c == p + [c[n]];
      ValidPrefix(c, n);
      assert IsRoot(p) && Intact(p);
      RowsAppend(p, c[n]);
      OffsetsTile(p);
      if HasData(c[n].event) {
        RowsFollow(p, c[n]);
      }
      if RecordsIn(p) != 0 {
        BaseKept(p, c[n]);
      }
    }
  }

  /******* When a commit is refused *******/

  lemma SchemaAcceptedIff(c: Hash, t: Time, schema: Schema)
    requires c != []
    ensures Validate(c, Block(t, SetDataSchema(schema))).Accepted? <==> NotOlder(c, t)
  {
  }

  /** An AddData that carries nothing at all. */
  predicate Blank(p: AddDataParams) {
    p.newOffsetInterval.None? && p.newWatermark.None? && p.newSourceState.None?
  }

  predicate Passes(m: Meta, p: AddDataParams) {
    WatermarkLe(m.prevWatermark, p.newWatermark) && !Blank(p)
  }

  lemma DataAcceptedIff(m: Meta, p: AddDataParams, file: Option<File>, t: Time)
    requires Coherent(m) && m.head != [] && IsRoot(m.head) && Fits(m, p, file)
    requires file.Some? ==> m.schema.Some?
    ensures Validate(m.head, Block(t, PrepareAddData(p, file))).Accepted? <==> NotOlder(m.head, t) && Passes(m, p)
  {
    RootStream(m.head);
  }

  /******* The effect of a commit *******/

  function SchemaBlocks(s: Staged): seq<Block> {
    if s.newSchema.Some? then [Block(s.systemTime, SetDataSchema(s.newSchema.value))] else []
  }

  function DataBlocks(s: Staged): seq<Block>
    requires WellFormedStaged(s)
  {
    if s.addData.Some? then [Block(s.systemTime, PrepareAddData(s.addData.value, s.dataFile))] else []
  }

  predicate DataPasses(m: Meta, s: Staged) {
    s.addData.Some? ==> Passes(m, s.addData.value)
  }

  lemma CommitEventAppends(c: Hash, b: Block)
    ensures CommitEvent(c, c, b) ==
      if Validate(c, b).Accepted? then Ok(c + [b]) else Err(InvalidBlock(Validate(c, b).error))
  {
  }

  /** The second half of a commit, on a dataset that nobody else has changed. */
  lemma DataCommitted(oldHead: Hash, m: Meta, s: Staged)
    requires Coherent(m) && Sound(m.head) && WellFormedStaged(s) && NotOlder(m.head, s.systemTime)
    requires s.addData.Some? ==> Fits(m, s.addData.value, s.dataFile)
    requires s.dataFile.Some? ==> m.schema.Some?
    ensures var a := CommitData(oldHead, m, m.head, s);
      && a.head == m.head + (if DataPasses(m, s) then DataBlocks(s) else [])
      && (a.result.Ok? <==> DataPasses(m, s))
      && a.meta.head == a.head && Coherent(a.meta) && Sound(a.head)
      && BaseOffset(a.head) == BaseOffset(m.head) && Schemas(a.head) == Schemas(m.head)
  {
    if s.addData.Some? {
      var b := Block(s.systemTime, PrepareAddData(s.addData.value, s.dataFile));
      DataAcceptedIff(m, s.addData.value, s.dataFile, s.systemTime);
      CommitEventAppends(m.head, b);
      if Validate(m.head, b).Accepted? {
        CoherentAfterData(m, b);
        RootStream(m.head);
        SoundAppend(m.head, b);
        SchemasAppend(m.head, b);
      }
    }
  }

  function AfterSchema(m: Meta, s: Staged): Meta {
    m.(head := m.head + SchemaBlocks(s), schema := s.newSchema)
  }

  lemma SchemaCommitted(m: Meta, s: Staged)
    requires Coherent(m) && Sound(m.head) && WellFormedStaged(s) && s.newSchema.Some? && NotOlder(m.head, s.systemTime)
    ensures var n := AfterSchema(m, s);
      && CommitStaged(m, m.head, s) == CommitData(m.head, n, n.head, s)
      && Coherent(n) && Sound(n.head) && NotOlder(n.head, s.systemTime)
      && BaseOffset(n.head) == BaseOffset(m.head) && Schemas(n.head) == Schemas(m.head) + 1
  {
    var b := SchemaBlocks(s)[0];
    SchemaAcceptedIff(m.head, s.systemTime, s.newSchema.value);
    CommitEventAppends(m.head, b);
    CoherentAfterSchema(m, b);
    SoundAppend(m.head, b);
    SchemasAppend(m.head, b);
  }

  lemma LateCommitRefused(m: Meta, s: Staged)
    requires Coherent(m) && Sound(m.head) && StagedFrom(m, s) && !NotOlder(m.head, s.systemTime)
    ensures var a := CommitStaged(m, m.head, s); a.meta == m && a.head == m.head && a.result.Err?
  {
    if s.newSchema.Some? {
      SchemaAcceptedIff(m.head, s.systemTime, s.newSchema.value);
      CommitEventAppends(m.head, SchemaBlocks(s)[0]);
    } else {
      DataAcceptedIff(m, s.addData.value, s.dataFile, s.systemTime);
      CommitEventAppends(m.head, DataBlocks(s)[0]);
    }
  }

  /** The blocks that a commit should append: nothing if the clock went back, the schema
      alone if the data is refused, and otherwise everything staged. */
  function Appended(m: Meta, s: Staged): seq<Block>
    requires WellFormedStaged(s) && m.head != []
  {
    if !NotOlder(m.head, s.systemTime) then []
    else SchemaBlocks(s) + if DataPasses(m, s) then DataBlocks(s) else []
  }

  ghost predicate CommittedAsStaged(m: Meta, s: Staged, a: Attempt)
    requires WellFormedStaged(s) && m.head != []
  {
    && a.head == m.head + Appended(m, s)
    && (a.result.Ok? <==> NotOlder(m.head, s.systemTime) && DataPasses(m, s))
    && a.meta.head == a.head && Coherent(a.meta) && Sound(a.head) && BaseOffset(a.head) == BaseOffset(m.head)
    && Schemas(a.head) == Schemas(m.head) + if NotOlder(m.head, s.systemTime) && s.newSchema.Some? then 1 else 0
  }

  lemma FitsAfterSchema(m: Meta, s: Staged)
    requires StagedFrom(m, s)
    ensures s.addData.Some? ==> Fits(AfterSchema(m, s), s.addData.value, s.dataFile)
    ensures DataPasses(AfterSchema(m, s), s) <==> DataPasses(m, s)
  {
  }

  lemma AppendedBoth(m: Meta, s: Staged, head: Hash)
    requires WellFormedStaged(s) && m.head != [] && NotOlder(m.head, s.systemTime)
    requires head == AfterSchema(m, s).head + if DataPasses(m, s) then DataBlocks(s) else []
    ensures head == m.head + Appended(m, s)
  {
    var data := if DataPasses(m, s) then DataBlocks(s) else [];
    assert m.head + SchemaBlocks(s) + data == m.head + (SchemaBlocks(s) + data);
  }

  lemma BothCommitted(m: Meta, s: Staged)
    requires Coherent(m) && Sound(m.head) && StagedFrom(m, s) && NotOlder(m.head, s.systemTime) && s.newSchema.Some?
    ensures CommittedAsStaged(m, s, CommitStaged(m, m.head, s))
  {
    var n := AfterSchema(m, s);
    SchemaCommitted(m, s);
    FitsAfterSchema(m, s);
    DataCommitted(m.head, n, s);
    AppendedBoth(m, s, CommitData(m.head, n, n.head, s).head);
  }

  lemma DataOnlyCommitted(m: Meta, s: Staged)
    requires Coherent(m) && Sound(m.head) && StagedFrom(m, s) && NotOlder(m.head, s.systemTime) && s.newSchema.None?
    ensures CommittedAsStaged(m, s, CommitStaged(m, m.head, s))
  {
    DataCommitted(m.head, m, s);
    assert Appended(m, s) == if DataPasses(m, s) then DataBlocks(s) else [];
  }

  /** What a commit does when nobody else has changed the dataset.  Whatever happens, the
      state kept afterwards is that of a fresh scan. */
  lemma CommitAppends(m: Meta, s: Staged)
    requires Coherent(m) && Sound(m.head) && StagedFrom(m, s)
    ensures CommittedAsStaged(m, s, CommitStaged(m, m.head, s))
  {
    if !NotOlder(m.head, s.systemTime) {
      LateCommitRefused(m, s);
    } else if s.newSchema.Some? {
      BothCommitted(m, s);
    } else {
      DataOnlyCommitted(m, s);
    }
  }

  /** A writer whose dataset has moved on commits nothing and keeps its state. */
  lemma StaleCommitRefused(m: Meta, head: Hash, s: Staged)
    requires head != m.head && WellFormedStaged(s)
    ensures var a := CommitStaged(m, head, s); a.meta == m && a.head == head && a.result.Err?
  {
  }

  /******* Exactly which writes succeed *******/

  /** No rows come out of the write. */
  predicate Rowless(m: Meta, data: Option<RawData>, env: Env) {
    data.None? ||
    var merged := env.merge(Reversed(m.dataSlices), data.value);
    merged.Ok? && merged.value.rows == []
  }

  /** An explicit watermark below the one already reached. */
  predicate Lowers(prev: Option<Time>, explicit: Option<Time>) {
    prev.Some? && explicit.Some? && explicit.value < prev.value
  }

  /** The only change is that the source state is dropped, with no watermark to carry. */
  predicate OnlyForgets(m: Meta, data: Option<RawData>, opts: WriteOpts, env: Env) {
    && Rowless(m, data, env)
    && m.prevWatermark.None? && (data.Some? ==> opts.newWatermark.None?)
    && m.prevSourceState.Some? && opts.newSourceState.None?
  }

  lemma OutputPassesIff(m: Meta, data: Option<RawData>, opts: WriteOpts, env: Env)
    requires StageOutput(m, data, opts, env).Ok?
    ensures var p := StageOutput(m, data, opts, env).value.addData;
      (Advances(m, p) ==> Passes(m, p)) <==>
        !(data.Some? && Lowers(m.prevWatermark, opts.newWatermark)) && !OnlyForgets(m, data, opts, env)
  {
    if data.Some? {
      OutputContinues(m, env.merge(Reversed(m.dataSlices), data.value).value, opts, env.encode);
    }
  }

  /** A staged write is refused exactly if the clock went back, an explicit watermark is lower
      than the one reached, or all it would do is to forget the source state of a chain without
      a watermark.  In particular a write without an explicit watermark never lowers it. */
  lemma WriteSucceedsIff(m: Meta, data: Option<RawData>, opts: WriteOpts, env: Env)
    requires Coherent(m) && Sound(m.head)
    ensures Write(m, m.head, data, opts, env).result.Ok? <==>
      && Stage(m, data, opts, env).Ok?
      && NotOlder(m.head, opts.systemTime)
      && !(data.Some? && Lowers(m.prevWatermark, opts.newWatermark))
      && !OnlyForgets(m, data, opts, env)
  {
    var s := Stage(m, data, opts, env);
    if s.Ok? {
      StageFits(m, data, opts, env);
      CommitAppends(m, s.value);
      OutputPassesIff(m, data, opts, env);
    }
  }

  lemma WatermarkSucceedsIff(m: Meta, watermark: Time, opts: WriteOpts)
    requires Coherent(m) && Sound(m.head)
    ensures WriteWatermark(m, m.head, watermark, opts).result.Ok? <==>
      && !(Some(watermark) == m.prevWatermark && opts.newSourceState == m.prevSourceState)
      && NotOlder(m.head, opts.systemTime)
      && !Lowers(m.prevWatermark, Some(watermark))
  {
    var s := StageWatermark(m, watermark, opts);
    if s.Ok? {
      WatermarkFits(m, watermark, opts);
      CommitAppends(m, s.value);
    }
  }

  lemma BlocksAddRows(c: Hash, s: Staged)
    requires WellFormedStaged(s)
    ensures ChainRows(c + (SchemaBlocks(s) + DataBlocks(s))) ==
      ChainRows(c) + if s.dataFile.Some? then s.dataFile.value.rows else []
  {
    var d := c + SchemaBlocks(s);
    if s.newSchema.Some? {
      RowsAppend(c, SchemaBlocks(s)[0]);
    } else {
      assert d == c;
    }
    assert c + (SchemaBlocks(s) + DataBlocks(s)) == d + DataBlocks(s);
    if s.addData.Some? {
      RowsAppend(d, DataBlocks(s)[0]);
    } else {
      assert d + DataBlocks(s) == d;
    }
  }

  lemma NextRow(m: Meta)
    requires Coherent(m) && Sound(m.head)
    ensures NextOffset(m.prevOffset) == BaseOffset(m.head) + |ChainRows(m.head)|
  {
    OffsetsTile(m.head);
    RootStream(m.head);
  }

  lemma StagedRows(m: Meta, data: Option<RawData>, opts: WriteOpts, env: Env)
    requires Stage(m, data, opts, env).Ok?
    ensures var file := Stage(m, data, opts, env).value.dataFile;
      (if file.Some? then file.value.rows else []) ==
        if data.None? then []
        else WithSystemColumns(env.merge(Reversed(m.dataSlices), data.value).value.rows, opts.sourceEventTime,
          NextOffset(m.prevOffset))
  {
    if data.Some? {
      OutputContinues(m, env.merge(Reversed(m.dataSlices), data.value).value, opts, env.encode);
    }
  }

  /** A successful write adds exactly the merged rows, numbered from where the chain stopped. */
  lemma WriteAddsRows(m: Meta, data: Option<RawData>, opts: WriteOpts, env: Env)
    requires Coherent(m) && Sound(m.head) && Write(m, m.head, data, opts, env).result.Ok?
    ensures var a := Write(m, m.head, data, opts, env);
      ChainRows(a.head) == ChainRows(m.head) +
        if data.None? then []
        else WithSystemColumns(env.merge(Reversed(m.dataSlices), data.value).value.rows, opts.sourceEventTime,
          BaseOffset(m.head) + |ChainRows(m.head)|)
  {
    StageFits(m, data, opts, env);
    var s := Stage(m, data, opts, env).value;
    CommitAppends(m, s);
    BlocksAddRows(m.head, s);
    StagedRows(m, data, opts, env);
    NextRow(m);
  }

  lemma NewFileDiffers(m: Meta, p: AddDataParams, file: File)
    requires Sound(m.head) && m == ScanMeta(m.head) && Fits(m, p, Some(file)) && m.dataSlices != []
    ensures m.dataSlices[0] != file
  {
    NextRow(m);
    OffsetsTile(m.head);
    var rows, newest := ChainRows(m.head), m.dataSlices[0].rows;
    assert rows == RowsOldestFirst(m.dataSlices[1..]) + newest;
    if newest != [] {
      assert rows[|rows| - |newest|] == newest[0];
    }
  }

  /** The files are kept in the order of a scan only as long as there is at most one: the
      scan lists the newest first, while a commit adds it at the end. */
  lemma FileOrderKeptIff(m: Meta, p: AddDataParams, file: File, t: Time)
    requires Sound(m.head) && m == ScanMeta(m.head) && Fits(m, p, Some(file))
    ensures var b := Block(t, PrepareAddData(p, Some(file)));
      NoteAddData(m, m.head + [b], b.event) == ScanMeta(m.head + [b]) <==> m.dataSlices == []
  {
    var b := Block(t, PrepareAddData(p, Some(file)));
    CoherentAfterData(m, b);
    SlicesAppend(m.head, b);
    var kept := NoteAddData(m, m.head + [b], b.event);
    assert kept.dataSlices == m.dataSlices + [file] && NewestSlices(m.head + [b]) == [file] + m.dataSlices;
    if m.dataSlices != [] {
      NewFileDiffers(m, p, file);
      assert (m.dataSlices + [file])[0] != ([file] + m.dataSlices)[0];
    }
  }
}
