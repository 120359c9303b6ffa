/**
 Exactly when compaction is rejected, read off the chain: which slices are grouped,
 and which checkpoint each group is committed with.
 */
module CompactionCheckpoints {
  import opened Wrappers
  import opened Odf
  import opened CompactionModel
  import opened CompactionMeaning
  import opened CompactionCommit
  import opened CompactionGroups

  /******* The condition *******/

  predicate LinkedAt(c: Hash, a: nat, limits: Limits)
    requires a < |c| && HasData(c[a].event)
  {
    MergesDown(c, a, limits) || c[a].event.stream.prevCheckpoint == CheckpointBelow(c, a, limits)
  }

  /** The oldest slice of every group continues the checkpoint that the group below is
      committed with. */
  predicate CheckpointsFit(c: Hash, limits: Limits) {
    forall a {:trigger LinkedAt(c, a, limits)} | 0 <= a < |c| && HasData(c[a].event) :: LinkedAt(c, a, limits)
  }

  /** Slices above block x are linked. */
  ghost predicate LinkedAbove(c: Hash, x: nat, limits: Limits) {
    forall a {:trigger LinkedAt(c, a, limits)} | x < a < |c| && HasData(c[a].event) :: LinkedAt(c, a, limits)
  }

  ghost predicate SlicesLinked(c: Hash, a: Option<nat>, limits: Limits)
    requires a.Some? ==> a.value < |c| && HasData(c[a.value].event)
  {
    a.Some? ==> LinkedAt(c, a.value, limits) && LinkedAbove(c, a.value, limits)
  }

  lemma LinkedFurtherUp(c: Hash, t: nat, limits: Limits, a: nat)
    requires t < a < |c| && HasData(c[a].event)
    requires SlicesLinked(c, NextData(c, t + 1), limits)
    ensures LinkedAt(c, a, limits)
  {
    NextDataIsFirst(c, t + 1, a);
  }

  lemma {:induction false} LinkedBelow(c: Hash, q: nat, limits: Limits)
    requires q < |c| && HasData(c[q].event) && SlicesLinked(c, NextData(c, GroupTop(c, q, limits) + 1), limits)
    ensures LinkedAbove(c, q, limits)
  {
    forall a | q < a < |c| && HasData(c[a].event)
      ensures LinkedAt(c, a, limits)
    {
      if a <= GroupTop(c, q, limits) {
        GroupMerged(c, q, limits, a);
      } else {
        LinkedFurtherUp(c, GroupTop(c, q, limits), limits, a);
      }
    }
  }

  lemma StillLinked(c: Hash, q: nat, a: Option<nat>, limits: Limits)
    requires a.Some? ==> q < a.value < |c| && HasData(c[a.value].event)
    requires LinkedAbove(c, q, limits)
    ensures SlicesLinked(c, a, limits)
  {
  }

  /** Group by group from that of block a upwards, each continues the checkpoint of the one below. */
  function LinkedUp(c: Hash, a: Option<nat>, limits: Limits): bool
    requires a.Some? ==> a.value < |c| && HasData(c[a.value].event)
    decreases if a.Some? then |c| - a.value else 0
  {
    a.None? ||
    var t := GroupTop(c, a.value, limits);
    var newer := NextData(c, t + 1);
    ContinuesGroup(c, newer, t, limits) && LinkedUp(c, newer, limits)
  }

  predicate ContinuesGroup(c: Hash, newer: Option<nat>, t: nat, limits: Limits)
    requires t < |c| && HasData(c[t].event) && (newer.Some? ==> newer.value < |c| && HasData(c[newer.value].event))
  {
    newer.Some? ==> c[newer.value].event.stream.prevCheckpoint == GroupCheckpoint(c, t, limits)
  }

  /** The group above is linked exactly if it continues the checkpoint of this one. */
  lemma {:induction false} NewerContinues(c: Hash, q: nat, limits: Limits)
    requires q < |c| && HasData(c[q].event) && NextData(c, GroupTop(c, q, limits) + 1).Some?
    ensures var t := GroupTop(c, q, limits);
      LinkedAt(c, NextData(c, t + 1).value, limits) <==> ContinuesGroup(c, NextData(c, t + 1), t, limits)
  {
    var t := GroupTop(c, q, limits);
    NewestBelow(c, t, NextData(c, t + 1).value);
    GroupAbove(c, q, limits);
  }

  lemma {:induction false} LinkedUpSound(c: Hash, q: nat, limits: Limits)
    requires q < |c| && HasData(c[q].event) && LinkedUp(c, Some(q), limits)
    ensures LinkedAbove(c, q, limits)
    decreases |c| - q
  {
    var newer := NextData(c, GroupTop(c, q, limits) + 1);
    if newer.Some? {
      LinkedUpSound(c, newer.value, limits);
      NewerContinues(c, q, limits);
    }
    LinkedBelow(c, q, limits);
  }

  lemma {:induction false} LinkedUpComplete(c: Hash, q: nat, limits: Limits)
    requires q < |c| && HasData(c[q].event) && LinkedAbove(c, q, limits)
    ensures LinkedUp(c, Some(q), limits)
    decreases |c| - q
  {
    var newer := NextData(c, GroupTop(c, q, limits) + 1);
    StillLinked(c, q, newer, limits);
    if newer.Some? {
      LinkedUpComplete(c, newer.value, limits);
      NewerContinues(c, q, limits);
    }
  }

  lemma {:induction false} LinkedUpIff(c: Hash, q: nat, limits: Limits)
    requires q < |c| && HasData(c[q].event)
    ensures LinkedUp(c, Some(q), limits) <==> LinkedAbove(c, q, limits)
  {
    if LinkedUp(c, Some(q), limits) {
      LinkedUpSound(c, q, limits);
    } else if LinkedAbove(c, q, limits) {
      LinkedUpComplete(c, q, limits);
    }
  }

  /******* Following the scan *******/

  /** A slice of the blocks from i on is still pending. */
  predicate Pending(c: Hash, i: nat) {
    NextData(c, i).Some? && QuietSince(c, NextData(c, i).value) <= i
  }

  /** The blocks whose checkpoints the scan holds end here. */
  function HeldEnd(c: Hash, i: nat, limits: Limits): (r: nat)
    ensures r <= |c|
  {
    var q := NextData(c, i);
    if q.None? then |c|
    else if Pending(c, i) then GroupEnd(c, GroupTop(c, q.value, limits))
    else QuietSince(c, q.value)
  }

  /** The oldest slice of the batches that are closed. */
  function OldestClosed(c: Hash, i: nat, limits: Limits): (r: Option<nat>)
    ensures r.Some? ==> r.value < |c| && HasData(c[r.value].event)
  {
    if Pending(c, i) then NextData(c, GroupTop(c, NextData(c, i).value, limits) + 1) else NextData(c, i)
  }

  ghost predicate PendingTracked(c: Hash, i: nat, limits: Limits, st: ScanState)
    requires Pending(c, i)
  {
    var q := NextData(c, i).value;
    && st.currentHash == Some(c[..q + 1])
    && st.info.lower.prevCheckpoint == c[q].event.stream.prevCheckpoint
    && st.info.upper.endOffset == c[GroupTop(c, q, limits)].event.stream.newData.value.end
    && (|st.info.slices| == 1 <==> GroupTop(c, q, limits) == q)
  }

  /** What the oldest slice of a list of events continues. */
  function FirstPrev(es: seq<Event>): Option<Option<nat>> {
    if es == [] then None
    else if es[0].AddData? then Some(es[0].stream.prevCheckpoint)
    else FirstPrev(es[1..])
  }

  /** All slices but the oldest continue the one before. */
  predicate InnerLinked(es: seq<Event>) {
    if es == [] then true
    else if es[0].AddData? then CheckpointsLinked(CheckpointHash(es[0].stream.newCheckpoint), es[1..])
    else InnerLinked(es[1..])
  }

  lemma {:induction false} LinkedSplit(p: Option<nat>, es: seq<Event>)
    ensures CheckpointsLinked(p, es) <==> (FirstPrev(es).Some? ==> FirstPrev(es).value == p) && InnerLinked(es)
    decreases |es|
  {
    if es != [] && !es[0].AddData? {
      LinkedSplit(p, es[1..]);
    }
  }

  /** The newest data event of a list. */
  function NewestAdd(es: seq<Event>): (r: Option<Event>)
    ensures r.Some? ==> r.value.AddData?
  {
    NewestOf(es, AddDataKind)
  }

  lemma {:induction false} NewestAddSnoc(bs: seq<Batch>, b: Batch, encode: Encoder)
    requires AllWellFormed(bs) && WellFormed(b)
    ensures AllWellFormed(bs + [b])
    ensures var e := BatchEvent(b, encode);
      NewestAdd(BatchEvents(bs + [b], encode)) ==
        NewestAdd(BatchEvents(bs, encode)).OrElse(if e.AddData? then Some(e) else None)
  {
    BatchEventsSnoc(bs, b, encode);
    assert ([BatchEvent(b, encode)] + BatchEvents(bs, encode))[1..] == BatchEvents(bs, encode);
  }

  /** The event shows what the group with newest slice t is committed with. */
  predicate ShowsGroup(c: Hash, t: nat, limits: Limits, e: Event)
    requires t < |c| && HasData(c[t].event)
  {
    && e.AddData? && HasData(e) && e.stream.newData.value.end == c[t].event.stream.newData.value.end
    && NotesOf(e) == GroupNotes(c, t, limits)
  }

  /** The newest data event shows the group of the newest slice. */
  ghost predicate Shown(c: Hash, limits: Limits, es: seq<Event>) {
    var q, e := NewestData(c, |c|), NewestAdd(es);
    q.Some? && e.Some? && ShowsGroup(c, q.value, limits, e.value)
  }

  lemma {:induction false} NewestAbove(c: Hash, t: nat)
    requires t < |c| && HasData(c[t].event) && NextData(c, t + 1).None?
    ensures NewestData(c, |c|) == Some(t)
  {
    NewestIsLast(c, |c|, t);
    NoDataFrom(c, t + 1);
  }

  function PrevOf(c: Hash, a: Option<nat>): Option<Option<nat>>
    requires a.Some? ==> a.value < |c| && HasData(c[a.value].event)
  {
    if a.Some? then Some(c[a.value].event.stream.prevCheckpoint) else None
  }

  /** The closed batches stand for the slices of the chain from block a on. */
  ghost predicate LinksTracked(c: Hash, a: Option<nat>, limits: Limits, bs: seq<Batch>, encode: Encoder)
    requires a.Some? ==> a.value < |c| && HasData(c[a.value].event)
  {
    && AllWellFormed(bs)
    && LinksFollow(c, a, limits, BatchEvents(bs, encode))
    && HeadFollows(c, a, limits, BatchEvents(bs, encode))
  }

  ghost predicate LinksFollow(c: Hash, a: Option<nat>, limits: Limits, es: seq<Event>)
    requires a.Some? ==> a.value < |c| && HasData(c[a.value].event)
  {
    FirstPrev(es) == PrevOf(c, a) && InnerLinked(es) == LinkedUp(c, a, limits)
  }

  ghost predicate HeadFollows(c: Hash, a: Option<nat>, limits: Limits, es: seq<Event>) {
    if a.None? then NewestAdd(es).None? else Shown(c, limits, es)
  }

  ghost predicate Tracked(c: Hash, i: nat, limits: Limits, st: ScanState, encode: Encoder) {
    && HashKnown(st)
    && (st.size, st.records) == Counters(c, i, limits)
    && (st.info.slices != [] <==> Pending(c, i))
    && UpperNotes(st.info.upper) == NewestNotes(c, i, HeldEnd(c, i, limits))
    && (Pending(c, i) ==> PendingTracked(c, i, limits, st))
    && LinksTracked(c, OldestClosed(c, i, limits), limits, st.batches, encode)
  }

  lemma {:induction false} LinkedSnoc(bs: seq<Batch>, b: Batch, encode: Encoder)
    requires AllWellFormed(bs) && WellFormed(b)
    ensures AllWellFormed(bs + [b])
    ensures var e, es, all := BatchEvent(b, encode), BatchEvents(bs, encode), BatchEvents(bs + [b], encode);
      && FirstPrev(all) == (if e.AddData? then Some(e.stream.prevCheckpoint) else FirstPrev(es))
      && (InnerLinked(all) <==>
            && InnerLinked(es)
            && (e.AddData? && FirstPrev(es).Some? ==> FirstPrev(es).value == CheckpointHash(e.stream.newCheckpoint)))
  {
    var e, es := BatchEvent(b, encode), BatchEvents(bs, encode);
    BatchEventsSnoc(bs, b, encode);
    assert ([e] + es)[1..] == es;
    if e.AddData? {
      LinkedSplit(CheckpointHash(e.stream.newCheckpoint), es);
    }
  }

  /** The event that a pending group is closed as. */
  lemma {:induction false} GroupEvent(c: Hash, i: nat, limits: Limits, st: ScanState, encode: Encoder)
    requires IsRoot(c) && HashKnown(st) && st.info.slices != []
    requires Pending(c, i) && PendingTracked(c, i, limits, st)
    requires UpperNotes(st.info.upper) == NewestNotes(c, i, HeldEnd(c, i, limits))
    requires var q := NextData(c, i).value; QuietSince(c, q) == i && !MergesDown(c, q, limits)
    ensures ClosesAs(c, NextData(c, i).value, limits, st, encode)
  {
    var q := NextData(c, i).value;
    var t := GroupTop(c, q, limits);
    assert c[..q + 1][q] == c[q];
    if t > q {
      GroupMerged(c, q, limits, t);
      GroupBottomSame(c, q, limits);
    }
  }

  /** The pending group is closed as an event that the slice of block q and the group stand for. */
  ghost predicate ClosesAs(c: Hash, q: nat, limits: Limits, st: ScanState, encode: Encoder)
    requires HashKnown(st) && st.info.slices != [] && q < |c| && HasData(c[q].event)
  {
    var e := PendingEvent(st, encode);
    e.AddData? && e.stream.prevCheckpoint == c[q].event.stream.prevCheckpoint
    && ShowsGroup(c, GroupTop(c, q, limits), limits, e)
  }

  /** Closing a pending group. */
  lemma {:induction false} FlushTracked(c: Hash, q: nat, limits: Limits, st: ScanState, encode: Encoder)
    requires HashKnown(st) && st.info.slices != [] && q < |c| && HasData(c[q].event)
    requires ClosesAs(c, q, limits, st, encode)
    requires LinksTracked(c, NextData(c, GroupTop(c, q, limits) + 1), limits, st.batches, encode)
    ensures LinksTracked(c, Some(q), limits, Flushed(st), encode)
  {
    FlushLinks(c, q, limits, st, encode);
    FlushHead(c, q, limits, st, encode);
  }

  lemma {:induction false} FlushLinks(c: Hash, q: nat, limits: Limits, st: ScanState, encode: Encoder)
    requires HashKnown(st) && st.info.slices != [] && q < |c| && HasData(c[q].event) && AllWellFormed(st.batches)
    requires ClosesAs(c, q, limits, st, encode)
    requires LinksFollow(c, NextData(c, GroupTop(c, q, limits) + 1), limits, BatchEvents(st.batches, encode))
    ensures AllWellFormed(Flushed(st)) && LinksFollow(c, Some(q), limits, BatchEvents(Flushed(st), encode))
  {
    LinkedSnoc(st.batches, PendingBatch(st), encode);
  }

  lemma {:induction false} FlushHead(c: Hash, q: nat, limits: Limits, st: ScanState, encode: Encoder)
    requires HashKnown(st) && st.info.slices != [] && q < |c| && HasData(c[q].event) && AllWellFormed(st.batches)
    requires ClosesAs(c, q, limits, st, encode)
    requires HeadFollows(c, NextData(c, GroupTop(c, q, limits) + 1), limits, BatchEvents(st.batches, encode))
    ensures AllWellFormed(Flushed(st)) && HeadFollows(c, Some(q), limits, BatchEvents(Flushed(st), encode))
  {
    NewestAddSnoc(st.batches, PendingBatch(st), encode);
    if NextData(c, GroupTop(c, q, limits) + 1).None? {
      NewestAbove(c, GroupTop(c, q, limits));
    }
  }

  lemma {:induction false} ClosedLinks(c: Hash, i: nat, limits: Limits, st: ScanState, encode: Encoder)
    requires Tracked(c, i, limits, st, encode) && Pending(c, i)
    ensures HashKnown(st) && st.info.slices != []
    ensures LinksTracked(c, NextData(c, GroupTop(c, NextData(c, i).value, limits) + 1), limits, st.batches, encode)
  {
  }

  lemma {:induction false} PendingCloses(c: Hash, i: nat, limits: Limits, st: ScanState, encode: Encoder)
    requires IsRoot(c) && Tracked(c, i, limits, st, encode) && Pending(c, i)
    requires var q := NextData(c, i).value; QuietSince(c, q) == i && !MergesDown(c, q, limits)
    ensures HashKnown(st) && st.info.slices != [] && ClosesAs(c, NextData(c, i).value, limits, st, encode)
  {
    GroupEvent(c, i, limits, st, encode);
  }

  /** The pending group can be closed; q is its oldest slice. */
  ghost predicate ReadyToClose(c: Hash, q: nat, limits: Limits, st: ScanState, encode: Encoder) {
    && HashKnown(st) && st.info.slices != [] && q < |c| && HasData(c[q].event)
    && ClosesAs(c, q, limits, st, encode)
    && LinksTracked(c, NextData(c, GroupTop(c, q, limits) + 1), limits, st.batches, encode)
  }

  lemma {:induction false} PendingReady(c: Hash, i: nat, limits: Limits, st: ScanState, encode: Encoder)
    requires IsRoot(c) && Tracked(c, i, limits, st, encode) && Pending(c, i)
    requires var q := NextData(c, i).value; QuietSince(c, q) == i && !MergesDown(c, q, limits)
    ensures ReadyToClose(c, NextData(c, i).value, limits, st, encode)
  {
    ClosedLinks(c, i, limits, st, encode);
    PendingCloses(c, i, limits, st, encode);
  }

  lemma {:induction false} ReadyFlushes(c: Hash, q: nat, limits: Limits, st: ScanState, encode: Encoder)
    requires ReadyToClose(c, q, limits, st, encode)
    ensures LinksTracked(c, Some(q), limits, Flushed(st), encode)
  {
    FlushTracked(c, q, limits, st, encode);
  }

  /** The closed batches once the pending group is closed too. */
  ghost predicate FlushedTracked(c: Hash, a: Option<nat>, limits: Limits, st: ScanState, encode: Encoder) {
    && HashKnown(st) && (a.Some? ==> a.value < |c| && HasData(c[a.value].event))
    && LinksTracked(c, a, limits, Flushed(st), encode)
  }

  lemma {:induction false} FlushPending(c: Hash, i: nat, limits: Limits, st: ScanState, encode: Encoder)
    requires IsRoot(c) && Tracked(c, i, limits, st, encode) && Pending(c, i)
    requires var q := NextData(c, i).value; QuietSince(c, q) == i && !MergesDown(c, q, limits)
    ensures FlushedTracked(c, NextData(c, i), limits, st, encode)
  {
    var q := NextData(c, i).value;
    PendingReady(c, i, limits, st, encode);
    ReadyFlushes(c, q, limits, st, encode);
    assert NextData(c, i) == Some(q);
  }

  /******* One block of the scan *******/

  /** A block that is not quiet ends the quiet stretch below a later one. */
  lemma {:induction false} QuietAbove(c: Hash, i: nat, q: nat)
    requires i < q <= |c| && (HasData(c[i].event) || !c[i].event.AddData?)
    ensures QuietSince(c, q) > i
  {
    if QuietSince(c, q) <= i {
      QuietBlock(c, q, i);
    }
  }

  lemma GroupEndAbove(c: Hash, b: nat)
    requires b < |c| && HasData(c[b].event)
    ensures GroupEnd(c, b) > b
  {
    if NextData(c, b + 1).Some? {
      QuietAbove(c, b, NextData(c, b + 1).value);
    }
  }

  lemma EmptyFacts(c: Hash, i: nat, limits: Limits)
    requires i < |c| && c[i].event.AddData? && !HasData(c[i].event)
    ensures NextData(c, i) == NextData(c, i + 1) && Pending(c, i) == Pending(c, i + 1)
    ensures Counters(c, i, limits) == Counters(c, i + 1, limits)
    ensures HeldEnd(c, i, limits) == HeldEnd(c, i + 1, limits) > i
  {
    var q := NextData(c, i + 1);
    if q.Some? && QuietSince(c, q.value) > 0 {
      QuietStops(c, q.value);
    }
    if Pending(c, i + 1) {
      GroupEndAbove(c, GroupTop(c, q.value, limits));
    }
  }

  lemma MetadataFacts(c: Hash, i: nat, limits: Limits)
    requires i < |c| && !c[i].event.AddData? && !HasData(c[i].event)
    ensures NextData(c, i) == NextData(c, i + 1) && !Pending(c, i)
    ensures Counters(c, i, limits) == Counters(c, i + 1, limits)
    ensures Pending(c, i + 1) ==>
      var q := NextData(c, i).value;
      QuietSince(c, q) == i + 1 == HeldEnd(c, i, limits) && !MergesDown(c, q, limits)
    ensures !Pending(c, i + 1) ==> HeldEnd(c, i, limits) == HeldEnd(c, i + 1, limits) > i
  {
    var q := NextData(c, i + 1);
    if q.Some? {
      QuietAbove(c, i, q.value);
    }
  }

  lemma SliceFacts(c: Hash, i: nat, limits: Limits)
    requires i < |c| && HasData(c[i].event)
    ensures NextData(c, i) == Some(i) && Pending(c, i)
    ensures var q, fits := NextData(c, i + 1),
      Fits(Counters(c, i + 1, limits), c[i].event.stream.newData.value, limits);
      && (Pending(c, i + 1) ==> QuietSince(c, q.value) == i + 1 && (MergesDown(c, q.value, limits) <==> fits))
      && (!Pending(c, i + 1) && q.Some? ==> !MergesDown(c, q.value, limits))
  {
    var q := NextData(c, i + 1);
    if q.Some? {
      QuietAbove(c, i, q.value);
      if QuietSince(c, q.value) > i + 1 && HasData(c[QuietSince(c, q.value) - 1].event) {
        NextDataIsFirst(c, i + 1, QuietSince(c, q.value) - 1);
      }
    }
  }

  /** A slice that joins the pending group. */
  lemma SliceJoins(c: Hash, i: nat, limits: Limits)
    requires i < |c| && HasData(c[i].event)
    requires Pending(c, i + 1) && Fits(Counters(c, i + 1, limits), c[i].event.stream.newData.value, limits)
    ensures GroupTop(c, i, limits) == GroupTop(c, NextData(c, i + 1).value, limits) > i
    ensures HeldEnd(c, i, limits) == HeldEnd(c, i + 1, limits) > i
    ensures OldestClosed(c, i, limits) == OldestClosed(c, i + 1, limits)
  {
    SliceFacts(c, i, limits);
    GroupEndAbove(c, GroupTop(c, i, limits));
  }

  /** A slice that opens a group. */
  lemma SliceOpens(c: Hash, i: nat, limits: Limits)
    requires i < |c| && HasData(c[i].event)
    requires !(Pending(c, i + 1) && Fits(Counters(c, i + 1, limits), c[i].event.stream.newData.value, limits))
    ensures GroupTop(c, i, limits) == i && OldestClosed(c, i, limits) == NextData(c, i + 1)
    ensures HeldEnd(c, i, limits) == (if Pending(c, i + 1) then i + 1 else HeldEnd(c, i + 1, limits)) > i
  {
    SliceFacts(c, i, limits);
    GroupEndAbove(c, i);
  }

  lemma EmptyTracked(c: Hash, i: nat, limits: Limits, st: ScanState, encode: Encoder)
    requires i < |c| && c[i].event.AddData? && !HasData(c[i].event) && Tracked(c, i + 1, limits, st, encode)
    ensures Tracked(c, i, limits, Visit(st, c[..i + 1], limits, false), encode)
  {
    EmptyFacts(c, i, limits);
    NewestNotesDown(c, i, HeldEnd(c, i, limits));
    assert c[..i + 1][i] == c[i];
  }

  lemma MetadataLinks(
      c: Hash, a: Option<nat>, limits: Limits, bs: seq<Batch>, b: Batch, encode: Encoder)
    requires a.Some? ==> a.value < |c| && HasData(c[a.value].event)
    requires LinksTracked(c, a, limits, bs, encode) && WellFormed(b) && !BatchEvent(b, encode).AddData?
    ensures LinksTracked(c, a, limits, bs + [b], encode)
  {
    LinkedSnoc(bs, b, encode);
    NewestAddSnoc(bs, b, encode);
  }

  lemma MetadataNotes(c: Hash, i: nat, limits: Limits, st: ScanState)
    requires i < |c| && IsMetadata(c[i].event) && (st.info.slices != [] <==> Pending(c, i + 1))
    requires UpperNotes(st.info.upper) == NewestNotes(c, i + 1, HeldEnd(c, i + 1, limits))
    ensures UpperNotes(Reset(st.info).upper) == NewestNotes(c, i, HeldEnd(c, i, limits))
  {
    MetadataFacts(c, i, limits);
    NewestNotesDown(c, i, HeldEnd(c, i, limits));
    assert NewestNotes(c, i + 1, i + 1) == NO_NOTES;
  }

  lemma {:induction false} MetadataClosed(c: Hash, i: nat, limits: Limits, st: ScanState, encode: Encoder)
    requires IsRoot(c) && i < |c| && IsMetadata(c[i].event) && Tracked(c, i + 1, limits, st, encode)
    ensures !Pending(c, i)
    ensures LinksTracked(c, NextData(c, i), limits, Flushed(st) + [SingleBlock(c[..i + 1])], encode)
  {
    assert c[..i + 1][i] == c[i];
    MetadataFacts(c, i, limits);
    if Pending(c, i + 1) {
      FlushPending(c, i + 1, limits, st, encode);
    }
    MetadataLinks(c, NextData(c, i), limits, Flushed(st), SingleBlock(c[..i + 1]), encode);
  }

  lemma MetadataTracked(c: Hash, i: nat, limits: Limits, st: ScanState, encode: Encoder)
    requires IsRoot(c) && i < |c| && IsMetadata(c[i].event) && Tracked(c, i + 1, limits, st, encode)
    ensures Tracked(c, i, limits, Visit(st, c[..i + 1], limits, false), encode)
  {
    MetadataClosed(c, i, limits, st, encode);
    MetadataNotes(c, i, limits, st);
    assert Visit(st, c[..i + 1], limits, false) ==
      st.(batches := Flushed(st) + [SingleBlock(c[..i + 1])], info := Reset(st.info));
  }

  /** The slice of block i is added to the pending batch. */
  ghost predicate JoinsAs(c: Hash, i: nat, st: ScanState, next: ScanState)
    requires i < |c| && HasData(c[i].event)
  {
    var s := c[i].event.stream;
    && next.batches == st.batches && |next.info.slices| == |st.info.slices| + 1
    && next.size == st.size + s.newData.value.size && next.records == st.records + NumRecords(s.newData.value)
    && next.currentHash == Some(c[..i + 1]) && next.info.lower.prevCheckpoint == s.prevCheckpoint
    && next.info.upper.endOffset == st.info.upper.endOffset
    && UpperNotes(next.info.upper) == NotesOrElse(UpperNotes(st.info.upper), NotesOf(c[i].event))
  }

  lemma SliceAdded(c: Hash, i: nat, limits: Limits, st: ScanState)
    requires i < |c| && c[i].event.AddData? && HasData(c[i].event) && HashKnown(st) && st.info.slices != []
    requires Fits((st.size, st.records), c[i].event.stream.newData.value, limits)
    ensures JoinsAs(c, i, st, Visit(st, c[..i + 1], limits, false))
  {
    assert c[..i + 1][i] == c[i];
  }

  lemma {:induction false} JoinPending(c: Hash, i: nat, limits: Limits, st: ScanState, next: ScanState)
    requires i < |c| && c[i].event.AddData? && HasData(c[i].event) && st.info.slices != []
    requires Pending(c, i + 1) && Fits(Counters(c, i + 1, limits), c[i].event.stream.newData.value, limits)
    requires PendingTracked(c, i + 1, limits, st) && JoinsAs(c, i, st, next)
    ensures Pending(c, i) && PendingTracked(c, i, limits, next)
  {
    SliceFacts(c, i, limits);
    SliceJoins(c, i, limits);
  }

  lemma JoinCounted(c: Hash, i: nat, limits: Limits, st: ScanState, next: ScanState)
    requires i < |c| && c[i].event.AddData? && HasData(c[i].event) && JoinsAs(c, i, st, next)
    requires Pending(c, i + 1) && Fits(Counters(c, i + 1, limits), c[i].event.stream.newData.value, limits)
    requires (st.size, st.records) == Counters(c, i + 1, limits)
    requires UpperNotes(st.info.upper) == NewestNotes(c, i + 1, HeldEnd(c, i + 1, limits))
    ensures (next.size, next.records) == Counters(c, i, limits)
    ensures UpperNotes(next.info.upper) == NewestNotes(c, i, HeldEnd(c, i, limits))
    ensures OldestClosed(c, i, limits) == OldestClosed(c, i + 1, limits)
  {
    SliceJoins(c, i, limits);
    NewestNotesDown(c, i, HeldEnd(c, i, limits));
  }

  lemma {:induction false} JoinTracked(
      c: Hash, i: nat, limits: Limits, st: ScanState, next: ScanState, encode: Encoder)
    requires i < |c| && c[i].event.AddData? && HasData(c[i].event) && Tracked(c, i + 1, limits, st, encode)
    requires Pending(c, i + 1) && Fits(Counters(c, i + 1, limits), c[i].event.stream.newData.value, limits)
    requires JoinsAs(c, i, st, next)
    ensures Tracked(c, i, limits, next, encode)
  {
    JoinPending(c, i, limits, st, next);
    JoinCounted(c, i, limits, st, next);
  }

  lemma JoiningTracked(c: Hash, i: nat, limits: Limits, st: ScanState, encode: Encoder)
    requires i < |c| && c[i].event.AddData? && HasData(c[i].event) && Tracked(c, i + 1, limits, st, encode)
    requires Pending(c, i + 1) && Fits(Counters(c, i + 1, limits), c[i].event.stream.newData.value, limits)
    ensures Tracked(c, i, limits, Visit(st, c[..i + 1], limits, false), encode)
  {
    SliceAdded(c, i, limits, st);
    JoinTracked(c, i, limits, st, Visit(st, c[..i + 1], limits, false), encode);
  }

  lemma OpeningTracked(c: Hash, i: nat, limits: Limits, st: ScanState, encode: Encoder)
    requires i < |c| && c[i].event.AddData? && HasData(c[i].event) && Tracked(c, i + 1, limits, st, encode)
    requires !Pending(c, i + 1)
    ensures Tracked(c, i, limits, Visit(st, c[..i + 1], limits, false), encode)
  {
    assert c[..i + 1][i] == c[i];
    SliceFacts(c, i, limits);
    SliceOpens(c, i, limits);
    NewestNotesDown(c, i, HeldEnd(c, i, limits));
  }

  lemma SplittingTracked(c: Hash, i: nat, limits: Limits, st: ScanState, encode: Encoder)
    requires IsRoot(c) && i < |c| && c[i].event.AddData? && HasData(c[i].event) && Tracked(c, i + 1, limits, st, encode)
    requires Pending(c, i + 1) && !Fits(Counters(c, i + 1, limits), c[i].event.stream.newData.value, limits)
    ensures Tracked(c, i, limits, Visit(st, c[..i + 1], limits, false), encode)
  {
    assert c[..i + 1][i] == c[i];
    SliceFacts(c, i, limits);
    SliceOpens(c, i, limits);
    FlushPending(c, i + 1, limits, st, encode);
    NewestNotesDown(c, i, i + 1);
    assert NewestNotes(c, i + 1, i + 1) == NO_NOTES;
  }

  lemma {:induction false} ScanTracked(c: Hash, i: nat, limits: Limits, encode: Encoder)
    requires Valid(c) && IsRoot(c) && 0 < i <= |c|
    ensures Tracked(c, i, limits, ScanFrom(c, i, limits, false), encode)
    decreases |c| - i
  {
    if i == |c| {
    } else {
      ScanTracked(c, i + 1, limits, encode);
      var st := ScanFrom(c, i + 1, limits, false);
      SeedIsFirst(c, i);
      if !c[i].event.AddData? {
        MetadataTracked(c, i, limits, st, encode);
      } else if HasData(c[i].event) {
        if !Pending(c, i + 1) {
          OpeningTracked(c, i, limits, st, encode);
        } else if Fits(Counters(c, i + 1, limits), c[i].event.stream.newData.value, limits) {
          JoiningTracked(c, i, limits, st, encode);
        } else {
          SplittingTracked(c, i, limits, st, encode);
        }
      } else {
        EmptyTracked(c, i, limits, st, encode);
      }
    }
  }

  /******* The blocks that are kept as they are *******/

  /** The slice of block q is a group by itself. */
  predicate Alone(c: Hash, q: nat, limits: Limits) {
    q < |c| && HasData(c[q].event) && GroupTop(c, q, limits) == q && !MergesDown(c, q, limits)
  }

  /** A batch that names a block names a metadata event, or the block of a slice that is alone. */
  ghost predicate NamesAlone(c: Hash, limits: Limits, b: Batch) {
    b.SingleBlock? ==>
      && b.hash != [] && b.hash <= c
      && (IsMetadata(b.hash[|b.hash| - 1].event) || Alone(c, |b.hash| - 1, limits))
  }

  ghost predicate AllNameAlone(c: Hash, limits: Limits, bs: seq<Batch>) {
    forall k | 0 <= k < |bs| :: NamesAlone(c, limits, bs[k])
  }

  lemma {:induction false} FlushNamesAlone(c: Hash, i: nat, limits: Limits, st: ScanState)
    requires HashKnown(st) && st.info.slices != [] && Pending(c, i) && PendingTracked(c, i, limits, st)
    requires !MergesDown(c, NextData(c, i).value, limits) && AllNameAlone(c, limits, st.batches)
    ensures AllNameAlone(c, limits, Flushed(st))
  {
    assert NamesAlone(c, limits, PendingBatch(st));
  }

  lemma VisitNamesAlone(c: Hash, i: nat, limits: Limits, st: ScanState, encode: Encoder)
    requires i < |c| && (IsMetadata(c[i].event) || c[i].event.AddData?)
    requires Tracked(c, i + 1, limits, st, encode) && AllNameAlone(c, limits, st.batches)
    ensures AllNameAlone(c, limits, Visit(st, c[..i + 1], limits, false).batches)
  {
    assert c[..i + 1][i] == c[i] && c[..i + 1] <= c;
    if IsMetadata(c[i].event) {
      MetadataFacts(c, i, limits);
      if Pending(c, i + 1) {
        FlushNamesAlone(c, i + 1, limits, st);
      }
      assert NamesAlone(c, limits, SingleBlock(c[..i + 1]));
    } else if HasData(c[i].event) {
      SliceFacts(c, i, limits);
      if Pending(c, i + 1) && !Fits(Counters(c, i + 1, limits), c[i].event.stream.newData.value, limits) {
        FlushNamesAlone(c, i + 1, limits, st);
      }
    }
  }

  /** Every block that a batch names holds a metadata event or exactly the slice of that batch. */
  lemma {:induction false} ScanNamesAlone(c: Hash, i: nat, limits: Limits, encode: Encoder)
    requires Valid(c) && IsRoot(c) && 0 < i <= |c|
    ensures AllNameAlone(c, limits, ScanFrom(c, i, limits, false).batches)
    decreases |c| - i
  {
    if i == |c| {
    } else {
      ScanNamesAlone(c, i + 1, limits, encode);
      ScanTracked(c, i + 1, limits, encode);
      SeedIsFirst(c, i);
      VisitNamesAlone(c, i, limits, ScanFrom(c, i + 1, limits, false), encode);
    }
  }

  /******* When compaction is rejected *******/

  lemma {:induction false} NoDataFrom(c: Hash, i: nat)
    requires NextData(c, i).None?
    ensures forall k | i <= k < |c| :: !HasData(c[k].event)
    decreases |c| - i
  {
    if i >= |c| {
    } else {
      NoDataFrom(c, i + 1);
    }
  }

  lemma {:induction false} OldestSliceLinks(c: Hash, limits: Limits)
    requires c != [] && !HasData(c[0].event)
    ensures var a := NextData(c, 1);
      CheckpointsFit(c, limits) <==>
        (a.Some? ==> c[a.value].event.stream.prevCheckpoint == None && LinkedAbove(c, a.value, limits))
  {
    var a := NextData(c, 1);
    if a.None? {
      NoDataFrom(c, 1);
    } else {
      NoneBefore(c, a.value, limits);
      assert LinkedAt(c, a.value, limits) <==> c[a.value].event.stream.prevCheckpoint == None;
      if c[a.value].event.stream.prevCheckpoint == None && LinkedAbove(c, a.value, limits) {
        forall b | 0 <= b < |c| && HasData(c[b].event)
          ensures LinkedAt(c, b, limits)
        {
          NextDataIsFirst(c, 1, b);
        }
      }
    }
  }

  lemma {:induction false} NoneBefore(c: Hash, a: nat, limits: Limits)
    requires c != [] && !HasData(c[0].event) && NextData(c, 1) == Some(a)
    ensures NewestData(c, a) == None && !MergesDown(c, a, limits)
  {
    var b := NewestData(c, a);
    if b.Some? {
      NextDataIsFirst(c, 1, b.value);
    } else {
      NoDataBelow(c, a);
    }
  }

  /** Append validation accepts the recommitted batches exactly if the oldest slice of every group
      continues the checkpoint that the group below is committed with, and the clock does not go
      back. */
  lemma RecommitAcceptedIff(c: Hash, limits: Limits, encode: Encoder, clock: Clock)
    requires Valid(c) && Intact(c) && IsRoot(c) && c != []
    ensures var bs := Scan(c, limits, false);
      && AllWellFormed(bs)
      && (CommitAll([c[0]], BatchEvents(bs, encode), clock).Ok? <==>
            CheckpointsFit(c, limits) && InTime(c[0].systemTime, 1, |bs|, clock))
  {
    RecommitLinkedIff(c, limits, encode, clock);
    SeedFirst(c);
    SeedSkipped(c, limits, false);
    NothingPendingAtSeed(c, limits);
    ScanTracked(c, 1, limits, encode);
    LinkedSplit(None, BatchEvents(Scan(c, limits, false), encode));
    OldestSliceLinks(c, limits);
    if NextData(c, 1).Some? {
      LinkedUpIff(c, NextData(c, 1).value, limits);
    }
  }

  lemma {:induction false} ChainLinked(c: Hash, i: nat)
    requires Valid(c) && i <= |c|
    ensures CheckpointsLinked(ChainCheckpoint(c[..i]), Events(c[i..]))
    decreases |c| - i
  {
    if i == |c| {
    } else {
      ChainLinked(c, i + 1);
      EventsCons(c, i);
      KindStep(c, i, AddDataKind);
      assert AcceptedAt(c, i);
      assert Events(c[i..])[1..] == Events(c[i + 1..]);
    }
  }

  /** A rewrite that would reproduce the chain is never rejected. */
  lemma UnchangedFits(c: Hash, limits: Limits, encode: Encoder)
    requires Valid(c) && Intact(c) && IsRoot(c) && c != []
    requires AllWellFormed(Scan(c, limits, false)) && BatchEvents(Scan(c, limits, false), encode) == Events(c[1..])
    ensures CheckpointsFit(c, limits)
  {
    var clock := (n: nat) => c[0].systemTime;
    ForwardInTime(c[0].systemTime, c[0].systemTime, 1, |Scan(c, limits, false)|, clock);
    RecommitLinkedIff(c, limits, encode, clock);
    RecommitAcceptedIff(c, limits, encode, clock);
    ChainLinked(c, 1);
    SeedFirst(c);
    SingleBlockChain(c[0], AddDataKind);
    assert c[..1] == [c[0]];
  }
}
