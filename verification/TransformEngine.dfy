/** What the engine is shown and what is recorded of its answer, read off the chains. */
module TransformEngine {
  import opened Wrappers
  import opened Odf
  import opened Offsets
  import opened TransformModel
  import opened TransformRuns
  import opened TransformOnce

  /******* Lists of slices and watermarks *******/

  ghost predicate Ascending(ks: seq<nat>) {
    forall i, j | 0 <= i < j < |ks| :: ks[i] < ks[j]
  }

  /** The block carries a watermark. */
  predicate Carries(b: Block) {
    (b.event.AddData? || b.event.ExecuteTransform?) && b.event.stream.newWatermark.Some?
  }

  /** The indices, in ascending order, of the blocks with data. */
  ghost predicate DataPlaces(blocks: seq<Block>, ks: seq<nat>) {
    Ascending(ks) && forall p: nat :: p in ks <==> p < |blocks| && HasData(blocks[p].event)
  }

  ghost predicate WatermarkPlaces(blocks: seq<Block>, ks: seq<nat>) {
    Ascending(ks) && forall p: nat :: p in ks <==> p < |blocks| && Carries(blocks[p])
  }

  predicate SliceAt(blocks: seq<Block>, p: nat, file: File) {
    p < |blocks| && HasData(blocks[p].event) && file == blocks[p].event.stream.newData.value.physicalHash
  }

  predicate WatermarkAt(blocks: seq<Block>, p: nat, w: Watermark) {
    && p < |blocks| && Carries(blocks[p])
    && w.systemTime == blocks[p].systemTime && Some(w.eventTime) == blocks[p].event.stream.newWatermark
  }

  ghost predicate SlicesAt(blocks: seq<Block>, ks: seq<nat>, files: seq<File>) {
    |files| == |ks| && forall j | 0 <= j < |ks| :: SliceAt(blocks, ks[j], files[j])
  }

  ghost predicate WatermarksAt(blocks: seq<Block>, ks: seq<nat>, ws: seq<Watermark>) {
    |ws| == |ks| && forall j | 0 <= j < |ks| :: WatermarkAt(blocks, ks[j], ws[j])
  }

  /** One file for each block with data, in order. */
  ghost predicate ListsSlices(blocks: seq<Block>, files: seq<File>) {
    exists ks :: DataPlaces(blocks, ks) && SlicesAt(blocks, ks, files)
  }

  /** One watermark for each block that carries one, in order, with the time of the block. */
  ghost predicate ListsWatermarks(blocks: seq<Block>, ws: seq<Watermark>) {
    exists ks :: WatermarkPlaces(blocks, ks) && WatermarksAt(blocks, ks, ws)
  }

  lemma AscendingSnoc(ks: seq<nat>, n: nat)
    requires Ascending(ks) && forall p: nat :: p in ks ==> p < n
    ensures Ascending(ks + [n])
  {
    forall i, j | 0 <= i < j < |ks + [n]|
      ensures (ks + [n])[i] < (ks + [n])[j]
    {
      if j == |ks| {
        assert ks[i] in ks;
      }
    }
  }

  lemma DataPlacesSnoc(blocks: seq<Block>, b: Block, ks: seq<nat>)
    requires DataPlaces(blocks, ks)
    ensures DataPlaces(blocks + [b], if HasData(b.event) then ks + [|blocks|] else ks)
  {
    AscendingSnoc(ks, |blocks|);
  }

  lemma WatermarkPlacesSnoc(blocks: seq<Block>, b: Block, ks: seq<nat>)
    requires WatermarkPlaces(blocks, ks)
    ensures WatermarkPlaces(blocks + [b], if Carries(b) then ks + [|blocks|] else ks)
  {
    AscendingSnoc(ks, |blocks|);
  }

  lemma SlicesAtSnoc(blocks: seq<Block>, b: Block, ks: seq<nat>, files: seq<File>)
    requires SlicesAt(blocks, ks, files)
    ensures SlicesAt(blocks + [b], if HasData(b.event) then ks + [|blocks|] else ks, files + BlockSlices(b))
  {
  }

  lemma WatermarksAtSnoc(blocks: seq<Block>, b: Block, ks: seq<nat>, ws: seq<Watermark>)
    requires WatermarksAt(blocks, ks, ws)
    ensures WatermarksAt(blocks + [b], if Carries(b) then ks + [|blocks|] else ks, ws + BlockWatermarks(b))
  {
  }

  function DataPlacesOf(blocks: seq<Block>): seq<nat> {
    if blocks == [] then []
    else
      var n := |blocks| - 1;
      var front := DataPlacesOf(blocks[..n]);
      if HasData(blocks[n].event) then front + [n] else front
  }

  function WatermarkPlacesOf(blocks: seq<Block>): seq<nat> {
    if blocks == [] then []
    else
      var n := |blocks| - 1;
      var front := WatermarkPlacesOf(blocks[..n]);
      if Carries(blocks[n]) then front + [n] else front
  }

  lemma {:induction false} SlicesPlaced(blocks: seq<Block>)
    ensures DataPlaces(blocks, DataPlacesOf(blocks)) && SlicesAt(blocks, DataPlacesOf(blocks), SlicesOf(blocks))
  {
    if blocks == [] {
    } else {
      var front, b := blocks[..|blocks| - 1], blocks[|blocks| - 1];
      assert blocks == front + [b];
      SlicesPlaced(front);
      DataPlacesSnoc(front, b, DataPlacesOf(front));
      SlicesAtSnoc(front, b, DataPlacesOf(front), SlicesOf(front));
    }
  }

  lemma {:induction false} WatermarksPlaced(blocks: seq<Block>)
    ensures WatermarkPlaces(blocks, WatermarkPlacesOf(blocks))
    ensures WatermarksAt(blocks, WatermarkPlacesOf(blocks), WatermarksOf(blocks))
  {
    if blocks == [] {
    } else {
      var front, b := blocks[..|blocks| - 1], blocks[|blocks| - 1];
      assert blocks == front + [b];
      WatermarksPlaced(front);
      WatermarkPlacesSnoc(front, b, WatermarkPlacesOf(front));
      WatermarksAtSnoc(front, b, WatermarkPlacesOf(front), WatermarksOf(front));
    }
  }

  lemma BlocksListed(blocks: seq<Block>)
    ensures ListsSlices(blocks, SlicesOf(blocks)) && ListsWatermarks(blocks, WatermarksOf(blocks))
  {
    SlicesPlaced(blocks);
    WatermarksPlaced(blocks);
  }

  /******* What a planned operation shows the engine *******/

  /** The engine is shown what an input holds after the part processed before: the offsets after the
      last one processed, one file for each slice, one watermark for each block that carries one. */
  ghost predicate ShowsInput(
      decl: TransformInput, e: EngineInput, before: Hash, lastOffset: Option<nat>, head: Hash) {
    && e.id == decl.id && e.alias == decl.alias && before <= head
    && ListsSlices(head[|before|..], e.slices) && ListsWatermarks(head[|before|..], e.watermarks)
    && SchemaOf(head) == Some(e.schema) && e.vocab == VocabOf(head)
    && if ChainOffset(head).Some? && ChainOffset(head) != lastOffset then
         && e.interval.Some? && e.interval.value.end == ChainOffset(head).value
         && e.interval.value.start == (if lastOffset.Some? then lastOffset.value + 1 else 0)
       else e.interval.None?
  }

  /** The engine is asked to go on where the last query stopped. */
  ghost predicate ShowsOutput(output: Hash, source: Event, prev: Option<Event>, now: Time, view: EngineRequest)
    requires source.SetTransform? && (prev.Some? ==> prev.value.ExecuteTransform?)
  {
    var last := if prev.Some? then LastOffset(prev.value.stream) else None;
    && view.systemTime == now && view.transform == source.transform && view.vocab == VocabOf(output)
    && view.nextOffset == (if last.Some? then last.value + 1 else 0)
    && view.prevCheckpoint ==
         (if prev.Some? && prev.value.stream.newCheckpoint.Some?
          then Some(prev.value.stream.newCheckpoint.value.physicalHash) else None)
  }

  /** The block up to which the last query processed the i-th input. */
  function ProcessedBefore(prev: Option<Event>, i: nat): Hash
    requires prev.Some? ==> prev.value.ExecuteTransform? && i < |prev.value.queryInputs|
  {
    if prev.Some? then OrEmpty(LastBlockHash(prev.value.queryInputs[i])) else []
  }

  function OffsetBefore(prev: Option<Event>, i: nat): Option<nat>
    requires prev.Some? ==> prev.value.ExecuteTransform? && i < |prev.value.queryInputs|
  {
    if prev.Some? then LastInputOffset(prev.value.queryInputs[i]) else None
  }

  /** What the engine is to be shown of a dataset and its inputs. */
  ghost predicate Shows(repo: Repo, output: Hash, now: Time, view: EngineRequest) {
    var source, prev := LastOf(output, TransformKind), LastOf(output, ExecuteTransformKind);
    && source.Some? && ShowsOutput(output, source.value, prev, now, view)
    && |view.inputs| == |source.value.inputs|
    && (prev.Some? ==> |prev.value.queryInputs| == |view.inputs|)
    && forall i | 0 <= i < |view.inputs| ::
         && source.value.inputs[i].id in repo
         && ShowsInput(source.value.inputs[i], view.inputs[i], ProcessedBefore(prev, i), OffsetBefore(prev, i),
              repo[source.value.inputs[i].id])
  }

  /** The blocks of an input after those processed before. */
  lemma InputShown(repo: Repo, decl: TransformInput, state: Option<QueryInput>, input: RequestInput)
    requires GetTransformInput(repo, decl, state) == Ok(input)
    ensures decl.id in repo
    ensures var before := OrEmpty(if state.Some? then LastBlockHash(state.value) else None);
      var lastOffset := if state.Some? then LastInputOffset(state.value) else None;
      ShowsInput(decl, EngineInputOf(input), before, lastOffset, repo[decl.id])
  {
    var head := repo[decl.id];
    var before := OrEmpty(if state.Some? then LastBlockHash(state.value) else None);
    var blocks := InputBlocks(ToQueryInput(input)).value;
    assert before + blocks == head;
    assert head[|before|..] == blocks;
    BlocksListed(blocks);
  }

  /** Whatever is planned, the engine is shown what the chains hold. */
  lemma PlannedShows(repo: Repo, output: Hash, now: Time, request: Request)
    requires NextOperation(repo, output, now) == Ok(Some(request))
    ensures Shows(repo, output, now, EngineView(request))
  {
    var source, prev := LastOf(output, TransformKind).value, LastOf(output, ExecuteTransformKind);
    AllObtained(repo, source.inputs, prev, request.inputs);
    forall i | 0 <= i < |source.inputs|
      ensures source.inputs[i].id in repo
      ensures ShowsInput(source.inputs[i], EngineView(request).inputs[i], ProcessedBefore(prev, i),
        OffsetBefore(prev, i), repo[source.inputs[i].id])
    {
      assert ObtainedAt(repo, source.inputs, prev, request.inputs, i);
      InputShown(repo, source.inputs[i], InputState(prev, i), request.inputs[i]);
    }
  }

  /** The input holds something to process after the part processed before. */
  ghost predicate HasNews(before: Hash, head: Hash) {
    exists k | |before| <= k < |head| :: IsNews(head[k])
  }

  predicate IsNews(b: Block) {
    HasData(b.event) || Carries(b)
  }

  ghost predicate NoNews(blocks: seq<Block>) {
    forall k | 0 <= k < |blocks| :: !IsNews(blocks[k])
  }

  lemma BlockNews(b: Block)
    ensures BlockSlices(b) == [] && BlockWatermarks(b) == [] <==> !IsNews(b)
  {
  }

  lemma NoNewsSnoc(blocks: seq<Block>, b: Block)
    ensures NoNews(blocks + [b]) <==> NoNews(blocks) && !IsNews(b)
  {
    var all := blocks + [b];
    if NoNews(all) {
      assert !IsNews(all[|blocks|]);
      forall k | 0 <= k < |blocks|
        ensures !IsNews(blocks[k])
      {
        assert !IsNews(all[k]);
      }
    }
  }

  lemma {:induction false} NewsListed(blocks: seq<Block>)
    ensures SlicesOf(blocks) == [] && WatermarksOf(blocks) == [] <==> NoNews(blocks)
  {
    if blocks == [] {
    } else {
      var front, b := blocks[..|blocks| - 1], blocks[|blocks| - 1];
      NewsListed(front);
      BlockNews(b);
      NoNewsSnoc(front, b);
      assert blocks == front + [b];
    }
  }

  lemma InputNews(repo: Repo, decl: TransformInput, state: Option<QueryInput>, input: RequestInput)
    requires GetTransformInput(repo, decl, state) == Ok(input)
    ensures var before := OrEmpty(if state.Some? then LastBlockHash(state.value) else None);
      decl.id in repo && (input.slices == [] && input.watermarks == [] <==> !HasNews(before, repo[decl.id]))
  {
    var head := repo[decl.id];
    var before := OrEmpty(if state.Some? then LastBlockHash(state.value) else None);
    var blocks := InputBlocks(ToQueryInput(input)).value;
    assert before + blocks == head;
    NewsListed(blocks);
    if k :| 0 <= k < |blocks| && IsNews(blocks[k]) {
      assert head[|before| + k] == blocks[k];
    }
    if k :| |before| <= k < |head| && IsNews(head[k]) {
      assert blocks[k - |before|] == head[k];
    }
  }

  /** If the inputs can be obtained, an operation is planned exactly if the output has no schema yet,
      or some input holds new data or a new watermark. */
  lemma PlannedIff(repo: Repo, output: Hash, now: Time)
    requires NextOperation(repo, output, now).Ok?
    ensures var source, prev := LastOf(output, TransformKind), LastOf(output, ExecuteTransformKind);
      && source.Some? && (prev.Some? ==> |prev.value.queryInputs| == |source.value.inputs|)
      && (forall i | 0 <= i < |source.value.inputs| :: source.value.inputs[i].id in repo)
      && (NextOperation(repo, output, now).value.Some? <==>
            || SchemaOf(output).None?
            || exists i | 0 <= i < |source.value.inputs| ::
                 HasNews(ProcessedBefore(prev, i), repo[source.value.inputs[i].id]))
  {
    var source, prev := LastOf(output, TransformKind).value, LastOf(output, ExecuteTransformKind);
    var inputs := GetInputs(repo, source.inputs, prev).value;
    AllObtained(repo, source.inputs, prev, inputs);
    forall i | 0 <= i < |source.inputs|
      ensures source.inputs[i].id in repo
      ensures inputs[i].slices == [] && inputs[i].watermarks == [] <==>
        !HasNews(ProcessedBefore(prev, i), repo[source.inputs[i].id])
    {
      assert ObtainedAt(repo, source.inputs, prev, inputs, i);
      InputNews(repo, source.inputs[i], InputState(prev, i), inputs[i]);
    }
  }

  /******* What every recorded operation was shown *******/

  /** The query before the k-th one. */
  function QueryBefore(output: Hash, k: nat): (r: Option<Event>)
    requires k <= |Queries(output)|
    ensures r.Some? ==> r.value.ExecuteTransform?
  {
    if k == 0 then None else Some(output[Queries(output)[k - 1]].event)
  }

  /** The k-th operation goes on with the offsets and the checkpoint of the query before it. */
  ghost predicate StreamContinues(output: Hash, log: seq<Entry>, k: nat)
    requires k < |log| == |Queries(output)|
  {
    var r, prev := log[k].request, QueryBefore(output, k);
    && r.prevOffset == (if prev.Some? then LastOffset(prev.value.stream) else None)
    && r.prevCheckpoint == (if prev.Some? then CheckpointHash(prev.value.stream.newCheckpoint) else None)
  }

  ghost predicate StreamInv(w: World) {
    |w.log| == |Queries(w.output)| && forall k | 0 <= k < |w.log| :: StreamContinues(w.output, w.log, k)
  }

  lemma {:induction false} QueriesGrow(c: Hash, d: Hash)
    requires c <= d
    ensures Queries(c) <= Queries(d)
  {
    if |c| == |d| {
      assert c == d;
    } else {
      var n := |d| - 1;
      QueriesGrow(c, d[..n]);
    }
  }

  lemma StepGrows(w: World, s: Step, engine: Engine)
    ensures var v := Advance(w, s, engine); w.log <= v.log && |v.log| <= |w.log| + 1
    ensures w.output <= Advance(w, s, engine).output
  {
    if s.RunTransform? {
      var op := NextOperation(w.inputs, w.output, s.now);
      if op.Ok? && op.value.Some? {
        var request := op.value.value;
        PlannedOperation(w.inputs, w.output, s.now, request);
        var response := engine(EngineView(request), s.run);
        if WellFormedResponse(response) {
          CommitShape(request, response);
        }
      }
    }
  }

  lemma PlannedStream(w: World, now: Time, request: Request, source: Event, engine: Engine)
    requires Inv(w, source, engine) && NextOperation(w.inputs, w.output, now) == Ok(Some(request))
    ensures var prev := QueryBefore(w.output, |w.log|);
      && request.prevOffset == (if prev.Some? then LastOffset(prev.value.stream) else None)
      && request.prevCheckpoint == (if prev.Some? then CheckpointHash(prev.value.stream.newCheckpoint) else None)
  {
  }

  lemma OldStream(output: Hash, log: seq<Entry>, output': Hash, log': seq<Entry>, k: nat)
    requires k < |log| == |Queries(output)| && |log'| == |Queries(output')|
    requires output <= output' && log <= log' && StreamContinues(output, log, k)
    ensures StreamContinues(output', log', k)
  {
    QueriesGrow(output, output');
  }

  lemma NewStream(w: World, now: Time, run: nat, source: Event, engine: Engine)
    requires Inv(w, source, engine) && Inv(Advance(w, RunTransform(now, run), engine), source, engine)
    requires |Advance(w, RunTransform(now, run), engine).log| > |w.log|
    ensures var v := Advance(w, RunTransform(now, run), engine);
      |v.log| == |w.log| + 1 == |Queries(v.output)| && StreamContinues(v.output, v.log, |w.log|)
  {
    var v := Advance(w, RunTransform(now, run), engine);
    StepGrows(w, RunTransform(now, run), engine);
    StepRecorded(w, now, run, engine);
    PlannedStream(w, now, NextOperation(w.inputs, w.output, now).value.value, source, engine);
    QueriesGrow(w.output, v.output);
  }

  lemma StreamGrown(w: World, v: World)
    requires StreamInv(w) && |v.log| == |Queries(v.output)|
    requires w.output <= v.output && w.log <= v.log && |v.log| <= |w.log| + 1
    requires |v.log| > |w.log| ==> StreamContinues(v.output, v.log, |w.log|)
    ensures StreamInv(v)
  {
    forall k | 0 <= k < |v.log|
      ensures StreamContinues(v.output, v.log, k)
    {
      if k < |w.log| {
        OldStream(w.output, w.log, v.output, v.log, k);
      }
    }
  }

  lemma StreamStep(w: World, s: Step, source: Event, engine: Engine)
    requires Inv(w, source, engine) && Inv(Advance(w, s, engine), source, engine) && StreamInv(w)
    ensures StreamInv(Advance(w, s, engine))
  {
    var v := Advance(w, s, engine);
    StepGrows(w, s, engine);
    if |v.log| > |w.log| {
      NewStream(w, s.now, s.run, source, engine);
    }
    StreamGrown(w, v);
  }

  lemma {:induction false} StreamsContinue(start: World, steps: seq<Step>, engine: Engine)
    requires Fresh(start)
    ensures StreamInv(Run(start, steps, engine))
  {
    if steps == [] {
      NoQueries(start.output);
    } else {
      var n, source := |steps| - 1, LastOf(start.output, TransformKind).value;
      StreamsContinue(start, steps[..n], engine);
      InvHolds(start, steps[..n], engine);
      InvHolds(start, steps, engine);
      StreamStep(Run(start, steps[..n], engine), steps[n], source, engine);
    }
  }

  /** Where the k-th operation starts and ends on an input. */
  ghost predicate Spans(repo: Repo, decl: TransformInput, input: RequestInput, before: Hash, after: Hash) {
    && InputRecorded(repo, decl, input)
    && before == OrEmpty(input.prevBlock) && after == OrEmpty(LastBlockHash(ToQueryInput(input)))
    && (input.prevBlock.Some? ==> before != []) && input.prevOffset == ChainOffset(before)
    && LastInputOffset(ToQueryInput(input)) == ChainOffset(after)
  }

  lemma RecordedNonEmpty(repo: Repo, decl: TransformInput, input: RequestInput)
    requires InputRecorded(repo, decl, input)
    ensures LastBlockHash(ToQueryInput(input)).value != []
  {
  }

  lemma StartNonEmpty(w: World, source: Event, engine: Engine, k: nat, i: nat)
    requires Inv(w, source, engine) && k < |w.log| && i < |source.inputs|
    ensures i < |w.log[k].request.inputs|
    ensures w.log[k].request.inputs[i].prevBlock.Some? ==> w.log[k].request.inputs[i].prevBlock.value != []
  {
    assert LinkedAt(w.inputs, w.log, source.inputs, k);
    if k > 0 {
      assert Continues(w.log[k - 1].request, w.log[k].request.inputs);
      assert LinkedAt(w.inputs, w.log, source.inputs, k - 1);
      RecordedNonEmpty(w.inputs, source.inputs[i], w.log[k - 1].request.inputs[i]);
    } else {
      assert FromBeginning(w.log[k].request.inputs);
    }
  }

  lemma ProcessedWith(log: seq<Entry>, k: nat, i: nat)
    requires k < |log| && HasInput(log, i)
    ensures Processed(log[..k + 1], i) == OrEmpty(LastBlockHash(ToQueryInput(log[k].request.inputs[i])))
  {
    assert log[..k + 1][k] == log[k];
  }

  lemma SpanAt(w: World, source: Event, engine: Engine, k: nat, i: nat)
    requires Inv(w, source, engine) && k < |w.log| && i < |source.inputs|
    ensures HasInput(w.log, i)
    ensures Spans(w.inputs, source.inputs[i], w.log[k].request.inputs[i], Processed(w.log[..k], i),
      Processed(w.log[..k + 1], i))
  {
    InputInRange(w.inputs, w.log, source.inputs, i);
    OffsetsTracked(w.inputs, w.log, source.inputs, k, i);
    ContinuesProcessed(w.inputs, w.log, source.inputs, i, k);
    ProcessedWith(w.log, k, i);
    StartNonEmpty(w, source, engine, k, i);
  }

  lemma SpanShown(repo: Repo, decl: TransformInput, input: RequestInput, before: Hash, after: Hash)
    requires Spans(repo, decl, input, before, after)
    ensures ShowsInput(decl, EngineInputOf(input), before, ChainOffset(before), after)
  {
    InputTile(repo, decl, input);
    assert after[|before|..] == InputBlocks(ToQueryInput(input)).value;
    BlocksListed(after[|before|..]);
  }

  /** What is recorded of an answer. */
  ghost predicate RecordsAnswer(e: Event, response: Response) {
    && e.ExecuteTransform?
    && e.stream.newWatermark == response.watermark && e.stream.newCheckpoint == response.checkpoint
    && (e.stream.newData.Some? <==> response.data.Some?)
    && (e.stream.newData.Some? ==>
          var d := e.stream.newData.value;
          && response.interval == Some(OffsetInterval(d.start, d.end)) && Some(d.physicalHash) == response.data
          && d.logicalHash == d.physicalHash.rows && d.size == d.physicalHash.size)
  }

  /** What is recorded of an input: the last block processed before, and the last one if it is new,
      both with their offsets. */
  ghost predicate RecordsInput(decl: TransformInput, q: QueryInput, before: Hash, after: Hash) {
    && q.id == decl.id
    && q.prevBlock == (if before == [] then None else Some(before)) && q.prevOffset == ChainOffset(before)
    && q.newBlock == (if after == before then None else Some(after))
    && q.newOffset == (if ChainOffset(after) == ChainOffset(before) then None else ChainOffset(after))
  }

  lemma SpanRecorded(repo: Repo, decl: TransformInput, input: RequestInput, before: Hash, after: Hash)
    requires Spans(repo, decl, input, before, after)
    ensures RecordsInput(decl, ToQueryInput(input), before, after)
  {
    RecordedNonEmpty(repo, decl, input);
  }

  /** Over every run, each recorded operation had the engine go on where the query before it
      stopped, showed it of every input exactly the part between what was processed before and
      after, and recorded its answer and that part. */
  lemma EngineSees(start: World, steps: seq<Step>, engine: Engine, k: nat)
    requires Fresh(start) && k < |Run(start, steps, engine).log|
    ensures SeenInRun(Run(start, steps, engine), LastOf(start.output, TransformKind).value, engine, k)
  {
    var w, source := Run(start, steps, engine), LastOf(start.output, TransformKind).value;
    InvHolds(start, steps, engine);
    StreamsContinue(start, steps, engine);
    WorldSees(w, source, engine, k);
  }

  ghost predicate SeenInRun(w: World, source: Event, engine: Engine, k: nat)
    requires source.SetTransform? && k < |w.log|
  {
    && |Queries(w.output)| == |w.log|
    && var view, b := EngineView(w.log[k].request), w.output[Queries(w.output)[k]];
       && ShowsOutput(w.output, source, QueryBefore(w.output, k), b.systemTime, view)
       && RecordsAnswer(b.event, engine(view, w.log[k].run))
       && |view.inputs| == |source.inputs| == |b.event.queryInputs|
       && forall i | 0 <= i < |source.inputs| :: SeenInput(w, source, k, i)
  }

  ghost predicate SeenInput(w: World, source: Event, k: nat, i: nat)
    requires source.SetTransform? && k < |w.log| == |Queries(w.output)| && i < |source.inputs|
  {
    && HasInput(w.log, i)
    && i < |EngineView(w.log[k].request).inputs| && i < |w.output[Queries(w.output)[k]].event.queryInputs|
    && var before, after := Processed(w.log[..k], i), Processed(w.log[..k + 1], i);
       && ShowsInput(source.inputs[i], EngineView(w.log[k].request).inputs[i], before, ChainOffset(before), after)
       && RecordsInput(source.inputs[i], w.output[Queries(w.output)[k]].event.queryInputs[i], before, after)
  }

  lemma InputSeen(w: World, source: Event, engine: Engine, k: nat, i: nat)
    requires Inv(w, source, engine) && k < |w.log| && i < |source.inputs|
    ensures SeenInput(w, source, k, i)
  {
    assert Recorded(w.output, Queries(w.output)[k], w.log[k], source, engine);
    SpanAt(w, source, engine, k, i);
    var input, before, after := w.log[k].request.inputs[i], Processed(w.log[..k], i), Processed(w.log[..k + 1], i);
    SpanShown(w.inputs, source.inputs[i], input, before, after);
    SpanRecorded(w.inputs, source.inputs[i], input, before, after);
  }

  lemma OutputSeen(w: World, source: Event, engine: Engine, k: nat)
    requires Inv(w, source, engine) && StreamInv(w) && k < |w.log|
    ensures var view, b := EngineView(w.log[k].request), w.output[Queries(w.output)[k]];
      && ShowsOutput(w.output, source, QueryBefore(w.output, k), b.systemTime, view)
      && RecordsAnswer(b.event, engine(view, w.log[k].run))
      && |view.inputs| == |source.inputs| == |b.event.queryInputs|
  {
    assert Recorded(w.output, Queries(w.output)[k], w.log[k], source, engine);
    assert LinkedAt(w.inputs, w.log, source.inputs, k);
    assert StreamContinues(w.output, w.log, k);
  }

  lemma WorldSees(w: World, source: Event, engine: Engine, k: nat)
    requires Inv(w, source, engine) && StreamInv(w) && k < |w.log|
    ensures SeenInRun(w, source, engine, k)
  {
    OutputSeen(w, source, engine, k);
    forall i | 0 <= i < |source.inputs|
      ensures SeenInput(w, source, k, i)
    {
      InputSeen(w, source, engine, k, i);
    }
  }
}
