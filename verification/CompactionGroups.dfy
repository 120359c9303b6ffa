/** How the slices of a chain are grouped by compaction, read off the chain and the limits. */
module CompactionGroups {
  import opened Wrappers
  import opened Odf
  import opened CompactionModel

  /** Index of the newest block with data among the first n. */
  function NewestData(c: Hash, n: nat): (r: Option<nat>)
    requires n <= |c|
    ensures r.Some? ==> r.value < n && HasData(c[r.value].event)
  {
    if n == 0 then None
    else if HasData(c[n - 1].event) then Some(n - 1)
    else NewestData(c, n - 1)
  }

  /** The lowest index from which only events without data lead up to block q. */
  function QuietSince(c: Hash, q: nat): (r: nat)
    requires q <= |c|
    ensures r <= q
  {
    if q > 0 && c[q - 1].event.AddData? && !HasData(c[q - 1].event) then QuietSince(c, q - 1) else q
  }

  /** The oldest block with data among those from i on. */
  function NextData(c: Hash, i: nat): (r: Option<nat>)
    ensures r.Some? ==> i <= r.value < |c| && HasData(c[r.value].event)
    decreases |c| - i
  {
    if i >= |c| then None
    else if HasData(c[i].event) then Some(i)
    else NextData(c, i + 1)
  }

  /** Size and number of records counted from the head down to block i: the counters start
      again with every slice that does not fit, and with nothing else. */
  function Counters(c: Hash, i: nat, limits: Limits): (int, int)
    decreases |c| - i
  {
    if i >= |c| then (0, 0)
    else if !HasData(c[i].event) then Counters(c, i + 1, limits)
    else
      var n, d := Counters(c, i + 1, limits), c[i].event.stream.newData.value;
      if Fits(n, d, limits) then (n.0 + d.size, n.1 + NumRecords(d)) else (d.size, NumRecords(d))
  }

  predicate Fits(n: (int, int), d: DataSlice, limits: Limits) {
    n.0 + d.size <= limits.maxSize && n.1 + NumRecords(d) <= limits.maxRecords
  }

  /** The slice of block q is grouped with the one before it: no other kind of event stands
      between them, and the older one fits what is counted down to here. */
  predicate MergesDown(c: Hash, q: nat, limits: Limits)
    requires q < |c|
  {
    var p := QuietSince(c, q);
    p > 0 && HasData(c[p - 1].event) && Fits(Counters(c, p, limits), c[p - 1].event.stream.newData.value, limits)
  }

  predicate MergesInto(c: Hash, newer: Option<nat>, limits: Limits)
    requires newer.Some? ==> newer.value < |c|
  {
    newer.Some? && MergesDown(c, newer.value, limits)
  }

  /** The newest slice of the group of block q. */
  function GroupTop(c: Hash, q: nat, limits: Limits): (r: nat)
    requires q < |c| && HasData(c[q].event)
    ensures q <= r < |c| && HasData(c[r].event)
    decreases |c| - q
  {
    var newer := NextData(c, q + 1);
    if MergesInto(c, newer, limits) then GroupTop(c, newer.value, limits) else q
  }

  /** The lowest block that the group of block q takes in. */
  function GroupBottom(c: Hash, q: nat, limits: Limits): (r: nat)
    requires q < |c|
    ensures r <= q
  {
    if MergesDown(c, q, limits) then GroupBottom(c, QuietSince(c, q) - 1, limits) else QuietSince(c, q)
  }

  /** The blocks that the group with newest slice b takes in end here: what follows belongs to
      the next newer slice. */
  function GroupEnd(c: Hash, b: nat): (r: nat)
    requires b < |c|
    ensures r <= |c|
  {
    var newer := NextData(c, b + 1);
    if newer.Some? then QuietSince(c, newer.value) else |c|
  }

  /** What a data event says besides its data. */
  datatype Notes = Notes(sourceState: Option<SourceState>, watermark: Option<Time>, checkpoint: Option<Checkpoint>)

  const NO_NOTES := Notes(None, None, None)

  function NotesOf(e: Event): Notes {
    if e.AddData? then Notes(e.sourceState, e.stream.newWatermark, e.stream.newCheckpoint) else NO_NOTES
  }

  function UpperNotes(upper: UpperBound): Notes {
    Notes(upper.newSourceState, upper.newWatermark, upper.newCheckpoint)
  }

  /** Each note is taken from the first if it is set there, and else from the second. */
  function NotesOrElse(a: Notes, b: Notes): Notes {
    Notes(
      a.sourceState.OrElse(b.sourceState), a.watermark.OrElse(b.watermark), a.checkpoint.OrElse(b.checkpoint))
  }

  /** For each note, the newest that is set in blocks lo up to hi. */
  function NewestNotes(c: Hash, lo: nat, hi: nat): Notes
    requires hi <= |c|
    decreases hi
  {
    if hi <= lo then NO_NOTES else NotesOrElse(NotesOf(c[hi - 1].event), NewestNotes(c, lo, hi - 1))
  }

  /** What the group with newest slice b is committed with: a single slice keeps its own notes, a
      merged one takes the newest that are set anywhere in the group. */
  function GroupNotes(c: Hash, b: nat, limits: Limits): Notes
    requires b < |c| && HasData(c[b].event)
  {
    if MergesDown(c, b, limits) then NewestNotes(c, GroupBottom(c, b, limits), GroupEnd(c, b))
    else NotesOf(c[b].event)
  }

  function GroupCheckpoint(c: Hash, b: nat, limits: Limits): Option<nat>
    requires b < |c| && HasData(c[b].event)
  {
    CheckpointHash(GroupNotes(c, b, limits).checkpoint)
  }

  /** The checkpoint that the group below block a is committed with. */
  function CheckpointBelow(c: Hash, a: nat, limits: Limits): Option<nat>
    requires a <= |c|
  {
    var b := NewestData(c, a);
    if b.Some? then GroupCheckpoint(c, b.value, limits) else None
  }

  /******* Laws of the groups *******/

  lemma {:induction false} NewestIsLast(c: Hash, n: nat, k: nat)
    requires k < n <= |c| && HasData(c[k].event)
    ensures NewestData(c, n).Some? && NewestData(c, n).value >= k
  {
    if !HasData(c[n - 1].event) {
      NewestIsLast(c, n - 1, k);
    }
  }

  lemma {:induction false} NoDataBelow(c: Hash, n: nat)
    requires n <= |c| && NewestData(c, n).None?
    ensures forall k | 0 <= k < n :: !HasData(c[k].event)
  {
    if n == 0 {
    } else {
      NoDataBelow(c, n - 1);
    }
  }

  lemma {:induction false} QuietBlock(c: Hash, q: nat, k: nat)
    requires q <= |c| && QuietSince(c, q) <= k < q
    ensures c[k].event.AddData? && !HasData(c[k].event)
  {
    if k < q - 1 {
      QuietBlock(c, q - 1, k);
    }
  }

  lemma {:induction false} QuietStops(c: Hash, q: nat)
    requires q <= |c| && QuietSince(c, q) > 0
    ensures var e := c[QuietSince(c, q) - 1].event; HasData(e) || !e.AddData?
  {
    if QuietSince(c, q) < q {
      QuietStops(c, q - 1);
    }
  }

  lemma {:induction false} NewestNotesDown(c: Hash, lo: nat, hi: nat)
    requires lo < hi <= |c|
    ensures NewestNotes(c, lo, hi) == NotesOrElse(NewestNotes(c, lo + 1, hi), NotesOf(c[lo].event))
    decreases hi
  {
    if lo + 1 < hi {
      NewestNotesDown(c, lo, hi - 1);
    } else {
      assert NewestNotes(c, lo, lo) == NO_NOTES;
    }
  }

  lemma {:induction false} NextDataIsFirst(c: Hash, i: nat, k: nat)
    requires i <= k < |c| && HasData(c[k].event)
    ensures NextData(c, i).Some? && NextData(c, i).value <= k
    decreases k - i
  {
    if !HasData(c[i].event) {
      NextDataIsFirst(c, i + 1, k);
    }
  }

  /** A slice that is merged downwards stands right above the next older one. */
  lemma {:induction false} MergedNeighbour(c: Hash, q: nat, r: nat, limits: Limits)
    requires q < |c| && HasData(c[q].event) && NextData(c, q + 1) == Some(r) && MergesDown(c, r, limits)
    ensures QuietSince(c, r) == q + 1
  {
    var p := QuietSince(c, r) - 1;
    if p > q {
      NextDataIsFirst(c, q + 1, p);
    } else if p < q {
      QuietBlock(c, r, q);
    }
  }

  lemma {:induction false} GroupMerged(c: Hash, q: nat, limits: Limits, a: nat)
    requires q < |c| && HasData(c[q].event) && q < a <= GroupTop(c, q, limits) && a < |c| && HasData(c[a].event)
    ensures MergesDown(c, a, limits)
    decreases |c| - q
  {
    NextDataIsFirst(c, q + 1, a);
    var newer := NextData(c, q + 1).value;
    if newer < a {
      GroupMerged(c, newer, limits, a);
    }
  }

  lemma {:induction false} GroupAbove(c: Hash, q: nat, limits: Limits)
    requires q < |c| && HasData(c[q].event)
    ensures !MergesInto(c, NextData(c, GroupTop(c, q, limits) + 1), limits)
    decreases |c| - q
  {
    var newer := NextData(c, q + 1);
    if MergesInto(c, newer, limits) {
      GroupAbove(c, newer.value, limits);
    }
  }

  lemma {:induction false} GroupBottomSame(c: Hash, q: nat, limits: Limits)
    requires q < |c| && HasData(c[q].event)
    ensures GroupBottom(c, GroupTop(c, q, limits), limits) == GroupBottom(c, q, limits)
    decreases |c| - q
  {
    var newer := NextData(c, q + 1);
    if newer.Some? && MergesDown(c, newer.value, limits) {
      MergedNeighbour(c, q, newer.value, limits);
      GroupBottomSame(c, newer.value, limits);
    }
  }

  lemma {:induction false} NewestBelow(c: Hash, t: nat, r: nat)
    requires t < |c| && HasData(c[t].event) && NextData(c, t + 1) == Some(r)
    ensures NewestData(c, r) == Some(t)
  {
    NewestIsLast(c, r, t);
    var b := NewestData(c, r).value;
    if b > t {
      NextDataIsFirst(c, t + 1, b);
    }
  }
}
