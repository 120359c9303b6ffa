/**
 Committing the batches: every event passes append validation again, and what is
 known of the watermark afterwards.
 */
module CompactionCommit {
  import opened Wrappers
  import opened Odf
  import opened CompactionModel
  import opened CompactionMeaning

  /** The blocks that the events are committed as, the first with sequence number n. */
  function Blocks(es: seq<Event>, n: nat, clock: Clock): (r: Hash)
    ensures |r| == |es|
    ensures forall i | 0 <= i < |es| :: r[i] == Block(clock(n + i), es[i])
  {
    seq(|es|, i requires 0 <= i < |es| => Block(clock(n + i), es[i]))
  }

  lemma EventsOfBlocks(es: seq<Event>, n: nat, clock: Clock)
    ensures Events(Blocks(es, n, clock)) == es
  {
  }

  lemma BlocksCons(head: Hash, es: seq<Event>, clock: Clock)
    requires es != []
    ensures var b := Block(clock(|head|), es[0]);
      head + Blocks(es, |head|, clock) == head + [b] + Blocks(es[1..], |head + [b]|, clock)
  {
  }

  lemma {:induction false} CommitAllAppends(head: Hash, es: seq<Event>, clock: Clock)
    ensures CommitAll(head, es, clock).Ok? ==> CommitAll(head, es, clock).value == head + Blocks(es, |head|, clock)
    ensures CommitAll(head, es, clock).Ok? && Valid(head) ==> Valid(CommitAll(head, es, clock).value)
    decreases |es|
  {
    if es == [] {
    } else {
      var b := Block(clock(|head|), es[0]);
      var r := Append(head, b);
      if r.Ok? {
        CommitAllAppends(head + [b], es[1..], clock);
        BlocksCons(head, es, clock);
        if Valid(head) {
          ValidAppend(head, b);
        }
      }
    }
  }

  /** While n more blocks are committed, from sequence number k on, the clock does not go back;
      the block before was committed at the given time. */
  predicate InTime(last: Time, k: nat, n: nat, clock: Clock)
    decreases n
  {
    n > 0 ==> last <= clock(k) && InTime(clock(k), k + 1, n - 1, clock)
  }

  /** The clock never goes back, and does not show less than the given time. */
  ghost predicate Forward(first: Time, clock: Clock) {
    forall i, j | 0 <= i <= j :: first <= clock(i) <= clock(j)
  }

  lemma {:induction false} ForwardInTime(first: Time, last: Time, k: nat, n: nat, clock: Clock)
    requires Forward(first, clock) && last <= clock(k)
    ensures InTime(last, k, n, clock)
    decreases n
  {
    if n == 0 {
    } else {
      ForwardInTime(first, clock(k), k + 1, n - 1, clock);
    }
  }

  /******* Links between the committed events *******/

  ghost predicate SelfConsistent(s: DataStream) {
    StartsAtNextOffset(s) && HasValidInterval(s)
  }

  /** The second event continues the offsets and does not lower the watermark of the first. */
  ghost predicate Follows(p: Option<DataStream>, q: Option<DataStream>) {
    p.Some? && q.Some? ==>
      q.value.prevOffset == LastOffset(p.value) && WatermarkLe(p.value.newWatermark, q.value.newWatermark)
  }

  ghost predicate LinkedFrom(p: Option<DataStream>, es: seq<Event>)
    decreases |es|
  {
    es != [] ==>
      var s := AsStream(es[0]);
      (s.Some? ==> SelfConsistent(s.value) && Follows(p, s)) && LinkedFrom(s.OrElse(p), es[1..])
  }

  function FirstStream(es: seq<Event>): Option<DataStream> {
    if es == [] then None else AsStream(es[0]).OrElse(FirstStream(es[1..]))
  }

  lemma {:induction false} LinkedFromFirst(p: Option<DataStream>, es: seq<Event>)
    ensures LinkedFrom(p, es) <==> LinkedFrom(None, es) && Follows(p, FirstStream(es))
    decreases |es|
  {
    if es != [] && AsStream(es[0]).None? {
      LinkedFromFirst(p, es[1..]);
    }
  }

  lemma {:induction false} LinkedCons(e: Event, es: seq<Event>)
    requires LinkedFrom(None, es)
    requires AsStream(e).Some? ==> SelfConsistent(e.stream) && Follows(AsStream(e), FirstStream(es))
    ensures LinkedFrom(None, [e] + es) && FirstStream([e] + es) == AsStream(e).OrElse(FirstStream(es))
  {
    assert ([e] + es)[1..] == es;
    LinkedFromFirst(AsStream(e), es);
  }

  /** The event the pending slices would be committed as. */
  function PendingEvent(st: ScanState, encode: Encoder): Event
    requires HashKnown(st) && st.info.slices != []
  {
    BatchEvent(PendingBatch(st), encode)
  }

  ghost predicate PendingChained(last: Option<DataStream>, st: ScanState, next: Option<DataStream>, encode: Encoder) {
    && HashKnown(st)
    && (st.info.slices == [] ==> Follows(last, next))
    && (st.info.slices != [] ==>
          var e := PendingEvent(st, encode);
          && e.AddData? && SelfConsistent(e.stream)
          && e.stream.newData.Some? && e.stream.newData.value.end == st.info.upper.endOffset
          && Follows(last, Some(e.stream)) && Follows(Some(e.stream), next))
    && (next.Some? ==> WatermarkLe(st.info.upper.newWatermark, next.value.newWatermark))
    && (last.Some? && (st.info.slices != [] || st.info.upper.newWatermark.Some?) ==>
          WatermarkLe(last.value.newWatermark, st.info.upper.newWatermark))
  }

  lemma FlushLinked(last: Option<DataStream>, st: ScanState, encode: Encoder)
    requires AllWellFormed(st.batches) && HashKnown(st)
    requires LinkedFrom(None, BatchEvents(st.batches, encode))
    requires PendingChained(last, st, FirstStream(BatchEvents(st.batches, encode)), encode)
    ensures AllWellFormed(Flushed(st))
    ensures var es := BatchEvents(Flushed(st), encode);
      && LinkedFrom(None, es) && Follows(last, FirstStream(es))
      && FirstStream(es) ==
           if st.info.slices == [] then FirstStream(BatchEvents(st.batches, encode))
           else AsStream(PendingEvent(st, encode))
  {
    if st.info.slices != [] {
      BatchEventsSnoc(st.batches, PendingBatch(st), encode);
      LinkedCons(PendingEvent(st, encode), BatchEvents(st.batches, encode));
    }
  }

  /** Visiting an event without data. */
  lemma EmptyChained(c: Hash, i: nat, st: ScanState, next: Option<DataStream>, encode: Encoder)
    requires Valid(c) && i < |c| && c[i].event.AddData? && !HasData(c[i].event)
    requires PendingOk(c, i + 1, st) && PendingChained(LastStream(c[..i + 1]), st, next, encode)
    ensures PendingChained(LastStream(c[..i]), st.(info := NoteUpper(st.info, c[i].event)), next, encode)
  {
    StreamStep(c, i);
    StreamLinked(c, i);
  }

  /** Visiting an event with data that opens a new pending batch. */
  lemma OpeningChained(
      c: Hash, i: nat, upper: UpperBound, st: ScanState, next: Option<DataStream>, encode: Encoder)
    requires Valid(c) && i < |c| && c[i].event.AddData? && HasData(c[i].event)
    requires HashKnown(st) && |st.info.slices| == 1 && st.currentHash == Some(c[..i + 1])
    requires Follows(AsStream(c[i].event), next)
    requires next.Some? ==> WatermarkLe(upper.newWatermark, next.value.newWatermark)
    requires upper.newWatermark.Some? ==> WatermarkLe(c[i].event.stream.newWatermark, upper.newWatermark)
    requires st.info.upper.newWatermark == upper.newWatermark.OrElse(c[i].event.stream.newWatermark)
    requires st.info.upper.endOffset == c[i].event.stream.newData.value.end
    ensures PendingChained(LastStream(c[..i]), st, next, encode)
  {
    StreamLinked(c, i);
  }

  /** Visiting an event with data that joins the pending batch. */
  lemma JoiningChained(
      c: Hash, i: nat, st: ScanState, joined: ScanState, next: Option<DataStream>, encode: Encoder)
    requires Valid(c) && i < |c| && c[i].event.AddData? && HasData(c[i].event)
    requires st.info.slices != [] && PendingChained(AsStream(c[i].event), st, next, encode)
    requires PendingOk(c, i, joined) && |joined.info.slices| > 1
    requires joined.info.upper.endOffset == st.info.upper.endOffset
    requires joined.info.upper.newWatermark == st.info.upper.newWatermark.OrElse(c[i].event.stream.newWatermark)
    ensures PendingChained(LastStream(c[..i]), joined, next, encode)
  {
    StreamLinked(c, i);
  }

  lemma EmptyVisitChained(c: Hash, i: nat, st: ScanState, limits: Limits, encode: Encoder)
    requires Valid(c) && i < |c| && c[i].event.AddData? && !HasData(c[i].event)
    requires PendingOk(c, i + 1, st) && Chained(c, i + 1, st, encode)
    ensures Chained(c, i, Visit(st, c[..i + 1], limits, false), encode)
  {
    EmptyChained(c, i, st, FirstStream(BatchEvents(st.batches, encode)), encode);
  }

  ghost predicate Chained(c: Hash, i: nat, st: ScanState, encode: Encoder)
    requires i <= |c|
  {
    && AllWellFormed(st.batches)
    && LinkedFrom(None, BatchEvents(st.batches, encode))
    && PendingChained(LastStream(c[..i]), st, FirstStream(BatchEvents(st.batches, encode)), encode)
  }

  lemma SliceChained(c: Hash, i: nat, st: ScanState, limits: Limits, encode: Encoder)
    requires Valid(c) && Intact(c) && i < |c| && c[i].event.AddData? && HasData(c[i].event)
    requires PendingOk(c, i + 1, st) && Chained(c, i + 1, st, encode)
    ensures Chained(c, i, Visit(st, c[..i + 1], limits, false), encode)
  {
    var e := c[i].event;
    var next := Visit(st, c[..i + 1], limits, false);
    var before := FirstStream(BatchEvents(st.batches, encode));
    StreamStep(c, i);
    assert LastStream(c[..i + 1]) == Some(e.stream);
    if Overflows(st, e.stream.newData.value, limits) {
      FlushLinked(Some(e.stream), st, encode);
      assert next.batches == Flushed(st);
      OpeningChained(c, i, Reset(st.info).upper, next, FirstStream(BatchEvents(next.batches, encode)), encode);
    } else {
      assert next.batches == st.batches;
      SliceVisited(c, i, st, limits);
      if st.info.slices == [] {
        OpeningChained(c, i, st.info.upper, next, before, encode);
      } else {
        JoiningChained(c, i, st, next, before, encode);
      }
    }
  }

  lemma MetadataChained(c: Hash, i: nat, st: ScanState, limits: Limits, encode: Encoder)
    requires i < |c| && IsMetadata(c[i].event) && PendingOk(c, i + 1, st) && Chained(c, i + 1, st, encode)
    ensures Chained(c, i, Visit(st, c[..i + 1], limits, false), encode)
  {
    var next := Visit(st, c[..i + 1], limits, false);
    StreamStep(c, i);
    FlushLinked(LastStream(c[..i]), st, encode);
    var b := SingleBlock(c[..i + 1]);
    BatchEventsSnoc(Flushed(st), b, encode);
    LinkedCons(c[i].event, BatchEvents(Flushed(st), encode));
    assert next.batches == Flushed(st) + [b] && next.info == Reset(st.info);
  }

  lemma {:induction false} ScanChained(c: Hash, i: nat, limits: Limits, encode: Encoder)
    requires Valid(c) && Intact(c) && IsRoot(c) && 0 < i <= |c|
    ensures Chained(c, i, ScanFrom(c, i, limits, false), encode)
    decreases |c| - i
  {
    if i == |c| {
    } else {
      ScanChained(c, i + 1, limits, encode);
      ScanOk(c, i + 1, limits);
      var st := ScanFrom(c, i + 1, limits, false);
      SeedIsFirst(c, i);
      if !c[i].event.AddData? {
        MetadataChained(c, i, st, limits, encode);
      } else if HasData(c[i].event) {
        SliceChained(c, i, st, limits, encode);
      } else {
        EmptyVisitChained(c, i, st, limits, encode);
      }
    }
  }

  /******* The events pass validation again *******/

  /** Events that can stand in a rebuilt chain: slices, and metadata events of kinds that the
      original holds. */
  ghost predicate Committable(e: Event, c: Hash) {
    if e.AddData? then HasData(e)
    else IsMetadata(e) && (e.SetTransform? ==> e.inputs != []) && LastOf(c, KindOf(e)).Some?
  }

  lemma MetadataCommittable(c: Hash, i: nat)
    requires Valid(c) && i < |c| && IsMetadata(c[i].event)
    ensures Committable(c[i].event, c)
  {
    assert AcceptedAt(c, i);
    LastOfMember(c, KindOf(c[i].event), i);
  }

  ghost predicate BatchesCommittable(c: Hash, bs: seq<Batch>, encode: Encoder) {
    forall k | 0 <= k < |bs| :: WellFormed(bs[k]) && Committable(BatchEvent(bs[k], encode), c)
  }

  lemma FlushCommittable(c: Hash, st: ScanState, encode: Encoder)
    requires HashKnown(st) && BatchesCommittable(c, st.batches, encode)
    requires st.info.slices != [] ==> Committable(PendingEvent(st, encode), c)
    ensures BatchesCommittable(c, Flushed(st), encode)
  {
  }

  ghost predicate StateCommittable(c: Hash, st: ScanState, encode: Encoder) {
    && HashKnown(st)
    && (st.info.slices != [] ==> Committable(PendingEvent(st, encode), c))
    && BatchesCommittable(c, st.batches, encode)
  }

  lemma VisitCommittable(c: Hash, i: nat, st: ScanState, limits: Limits, encode: Encoder)
    requires Valid(c) && i < |c| && StateCommittable(c, st, encode)
    ensures StateCommittable(c, Visit(st, c[..i + 1], limits, false), encode)
  {
    var next := Visit(st, c[..i + 1], limits, false);
    FlushCommittable(c, st, encode);
    if IsMetadata(c[i].event) {
      MetadataCommittable(c, i);
      assert next.batches == Flushed(st) + [SingleBlock(c[..i + 1])] && next.info.slices == [];
    } else {
      assert next.batches == st.batches || next.batches == Flushed(st);
    }
  }

  lemma {:induction false} ScanCommittable(c: Hash, i: nat, limits: Limits, encode: Encoder)
    requires Valid(c) && i <= |c|
    ensures StateCommittable(c, ScanFrom(c, i, limits, false), encode)
    decreases |c| - i
  {
    if i == |c| {
    } else {
      ScanCommittable(c, i + 1, limits, encode);
      VisitCommittable(c, i, ScanFrom(c, i + 1, limits, false), limits, encode);
    }
  }

  lemma {:induction false} EventsCommittable(c: Hash, bs: seq<Batch>, encode: Encoder)
    requires AllWellFormed(bs) && BatchesCommittable(c, bs, encode)
    ensures forall k | 0 <= k < |bs| :: Committable(BatchEvents(bs, encode)[k], c)
  {
    if bs == [] {
    } else {
      EventsCommittable(c, bs[..|bs| - 1], encode);
    }
  }

  /** What is known of the chain that is being rebuilt. */
  ghost predicate Rebuilding(c: Hash, head: Hash) {
    && head != [] && head[0].event.Seed?
    && forall k | 0 < k < |head| :: Committable(head[k].event, c)
  }

  /** A source kind present in the rebuilt chain is present in the original. */
  lemma {:induction false} KindComesFromOriginal(c: Hash, head: Hash, k: EventKind)
    requires Rebuilding(c, head) && LastOf(head, k).Some?
    requires k == PollingSourceKind || k == PushSourceKind
    ensures LastOf(c, k).Some?
  {
    var j := LastOfWitness(head, k);
    assert Committable(head[j].event, c);
  }

  /** Checkpoint that the newest AddData of the chain left behind. */
  function ChainCheckpoint(c: Hash): Option<nat> {
    var e := LastOf(c, AddDataKind);
    if e.Some? then CheckpointHash(e.value.stream.newCheckpoint) else None
  }

  lemma {:induction false} EventAcceptedIff(c: Hash, head: Hash, e: Event, now: Time)
    requires Valid(c) && Rebuilding(c, head) && Committable(e, c)
    requires AsStream(e).Some? ==> SelfConsistent(e.stream) && Follows(LastStream(head), AsStream(e))
    requires HasData(e) ==> LastOf(head, SchemaKind).Some?
    ensures Validate(head, Block(now, e)).Accepted? <==>
      NotOlder(head, now) && (e.AddData? ==> e.stream.prevCheckpoint == ChainCheckpoint(head))
  {
    OneSourceKind(c);
    if e.AddPushSource? && LastOf(head, PollingSourceKind).Some? {
      KindComesFromOriginal(c, head, PollingSourceKind);
    }
    if e.SetPollingSource? && LastOf(head, PushSourceKind).Some? {
      KindComesFromOriginal(c, head, PushSourceKind);
    }
  }

  /** Every AddData starts from the checkpoint that the AddData before it left. */
  predicate CheckpointsLinked(p: Option<nat>, es: seq<Event>)
    decreases |es|
  {
    es != [] ==>
      && (es[0].AddData? ==> es[0].stream.prevCheckpoint == p)
      && CheckpointsLinked(if es[0].AddData? then CheckpointHash(es[0].stream.newCheckpoint) else p, es[1..])
  }

  lemma SchemaLeadsTail(es: seq<Event>)
    requires es != [] && SchemaLeads(es)
    ensures !HasData(es[0])
    ensures es[0].SetDataSchema? || SchemaLeads(es[1..])
  {
    if !es[0].SetDataSchema? {
      forall k | 0 <= k < |es| - 1 && HasData(es[1..][k])
        ensures exists j :: 0 <= j < k && es[1..][j].SetDataSchema?
      {
        assert HasData(es[k + 1]);
        var j :| 0 <= j < k + 1 && es[j].SetDataSchema?;
        assert es[1..][j - 1].SetDataSchema?;
      }
    }
  }

  lemma {:induction false} AllAcceptedIff(c: Hash, head: Hash, es: seq<Event>, clock: Clock)
    requires Valid(c) && Rebuilding(c, head)
    requires forall k | 0 <= k < |es| :: Committable(es[k], c)
    requires LinkedFrom(LastStream(head), es)
    requires LastOf(head, SchemaKind).Some? || SchemaLeads(es)
    ensures CommitAll(head, es, clock).Ok? <==>
      CheckpointsLinked(ChainCheckpoint(head), es) && InTime(head[|head| - 1].systemTime, |head|, |es|, clock)
    decreases |es|
  {
    if es == [] {
    } else {
      var b := Block(clock(|head|), es[0]);
      var head' := head + [b];
      if LastOf(head, SchemaKind).None? {
        SchemaLeadsTail(es);
      }
      EventAcceptedIff(c, head, es[0], clock(|head|));
      StreamStep(head', |head|);
      KindStep(head', |head|, SchemaKind);
      KindStep(head', |head|, AddDataKind);
      assert head'[..|head|] == head && head'[..|head| + 1] == head';
      AllAcceptedIff(c, head', es[1..], clock);
    }
  }

  /** Recommitting the batches of a valid chain can be rejected for two reasons only: a checkpoint
      that no longer links to the AddData before it, and a clock that goes back. */
  lemma RecommitLinkedIff(c: Hash, limits: Limits, encode: Encoder, clock: Clock)
    requires Valid(c) && Intact(c) && IsRoot(c) && c != []
    ensures var bs := Scan(c, limits, false);
      && AllWellFormed(bs)
      && (CommitAll([c[0]], BatchEvents(bs, encode), clock).Ok? <==>
            CheckpointsLinked(None, BatchEvents(bs, encode)) && InTime(c[0].systemTime, 1, |bs|, clock))
  {
    var bs := Scan(c, limits, false);
    SeedFirst(c);
    SeedSkipped(c, limits, false);
    ScanChained(c, 1, limits, encode);
    ScanCommittable(c, 1, limits, encode);
    EventsCommittable(c, bs, encode);
    NothingPendingBelowSchema(c, 0, limits, encode);
    SingleBlockChain(c[0], AddDataKind);
    AllAcceptedIff(c, [c[0]], BatchEvents(bs, encode), clock);
  }

  /******* Chains without checkpoints *******/

  /** No event of the chain carries a checkpoint, as in every chain written by the data writer. */
  ghost predicate NoCheckpoints(c: Hash) {
    forall i | 0 <= i < |c| && AsStream(c[i].event).Some? :: c[i].event.stream.newCheckpoint.None?
  }

  lemma NoInputCheckpoints(c: Hash, i: nat)
    requires Valid(c) && NoCheckpoints(c) && i < |c| && c[i].event.AddData?
    ensures c[i].event.stream.prevCheckpoint.None?
  {
    assert AcceptedAt(c, i);
    if LastOf(c[..i], AddDataKind).Some? {
      var k := LastOfWitness(c[..i], AddDataKind);
      assert AsStream(c[k].event).Some?;
    }
  }

  ghost predicate CheckpointFree(e: Event) {
    e.AddData? ==> e.stream.prevCheckpoint.None? && e.stream.newCheckpoint.None?
  }

  ghost predicate BatchesCheckpointFree(bs: seq<Batch>, encode: Encoder) {
    forall k | 0 <= k < |bs| :: WellFormed(bs[k]) && CheckpointFree(BatchEvent(bs[k], encode))
  }

  ghost predicate StateCheckpointFree(st: ScanState, encode: Encoder) {
    && HashKnown(st) && st.info.upper.newCheckpoint.None?
    && (st.info.slices != [] ==> st.info.lower.prevCheckpoint.None? && CheckpointFree(PendingEvent(st, encode)))
    && BatchesCheckpointFree(st.batches, encode)
  }

  lemma FlushCheckpointFree(st: ScanState, encode: Encoder)
    requires StateCheckpointFree(st, encode)
    ensures BatchesCheckpointFree(Flushed(st), encode)
  {
  }

  lemma VisitCheckpointFree(c: Hash, i: nat, st: ScanState, limits: Limits, encode: Encoder)
    requires i < |c| && StateCheckpointFree(st, encode) && CheckpointFree(c[i].event)
    ensures StateCheckpointFree(Visit(st, c[..i + 1], limits, false), encode)
  {
    var next := Visit(st, c[..i + 1], limits, false);
    FlushCheckpointFree(st, encode);
    if IsMetadata(c[i].event) {
      assert next.batches == Flushed(st) + [SingleBlock(c[..i + 1])] && next.info.slices == [];
    } else {
      assert next.batches == st.batches || next.batches == Flushed(st);
    }
  }

  lemma {:induction false} ScanCheckpointFree(c: Hash, i: nat, limits: Limits, encode: Encoder)
    requires Valid(c) && NoCheckpoints(c) && i <= |c|
    ensures StateCheckpointFree(ScanFrom(c, i, limits, false), encode)
    decreases |c| - i
  {
    if i == |c| {
    } else {
      ScanCheckpointFree(c, i + 1, limits, encode);
      if c[i].event.AddData? {
        NoInputCheckpoints(c, i);
        assert AsStream(c[i].event).Some?;
      }
      VisitCheckpointFree(c, i, ScanFrom(c, i + 1, limits, false), limits, encode);
    }
  }

  lemma {:induction false} CheckpointFreeLinked(bs: seq<Batch>, encode: Encoder)
    requires AllWellFormed(bs)
    requires forall k | 0 <= k < |bs| :: CheckpointFree(BatchEvent(bs[k], encode))
    ensures CheckpointsLinked(None, BatchEvents(bs, encode))
  {
    if bs == [] {
    } else {
      CheckpointFreeLinked(bs[..|bs| - 1], encode);
    }
  }

  /** Recommitting the batches of a chain without checkpoints is never rejected, unless the clock
      goes back. */
  lemma RecommitAccepted(c: Hash, limits: Limits, encode: Encoder, clock: Clock)
    requires Valid(c) && Intact(c) && IsRoot(c) && NoCheckpoints(c) && c != []
    ensures var bs := Scan(c, limits, false);
      && AllWellFormed(bs)
      && (CommitAll([c[0]], BatchEvents(bs, encode), clock).Ok? <==> InTime(c[0].systemTime, 1, |bs|, clock))
  {
    RecommitLinkedIff(c, limits, encode, clock);
    ScanCheckpointFree(c, 0, limits, encode);
    CheckpointFreeLinked(Scan(c, limits, false), encode);
  }
}
