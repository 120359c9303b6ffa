/**
 What a compacted chain shows at its head, and exactly when that is what the original
 showed: the last offset, the watermark, the checkpoint and the source state.
 */
module CompactionHead {
  import opened Wrappers
  import opened Odf
  import opened CompactionModel
  import opened CompactionMeaning
  import opened CompactionGroups
  import opened CompactionCheckpoints

  /** The chain d holds the seed and what the batches of c are committed as. */
  ghost predicate Rewritten(c: Hash, d: Hash, limits: Limits, encode: Encoder)
    requires c != []
  {
    && AllWellFormed(Scan(c, limits, false))
    && Events(d) == [c[0].event] + BatchEvents(Scan(c, limits, false), encode)
  }

  /** What the newest data event of the chain says besides its data. */
  function HeadNotes(c: Hash): Notes {
    var e := LastOf(c, AddDataKind);
    if e.Some? then NotesOf(e.value) else NO_NOTES
  }

  /** The same after compaction: what the group of the newest slice is committed with. */
  function NotesAfter(c: Hash, limits: Limits): Notes {
    var q := NewestData(c, |c|);
    if q.None? then NO_NOTES else GroupNotes(c, q.value, limits)
  }

  /******* Newest events *******/

  lemma {:induction false} NewestOfSnoc(es: seq<Event>, e: Event, k: EventKind)
    ensures NewestOf(es + [e], k) == if KindOf(e) == k then Some(e) else NewestOf(es, k)
    decreases |es|
  {
    if es == [] {
      assert ([e])[1..] == [] && es + [e] == [e];
    } else {
      assert (es + [e])[1..] == es[1..] + [e];
      NewestOfSnoc(es[1..], e, k);
    }
  }

  lemma {:induction false} NewestOfEvents(c: Hash, k: EventKind)
    ensures NewestOf(Events(c), k) == LastOf(c, k)
  {
    if c == [] {
    } else {
      var n := |c| - 1;
      NewestOfEvents(c[..n], k);
      assert Events(c) == Events(c[..n]) + [c[n].event];
      NewestOfSnoc(Events(c[..n]), c[n].event, k);
    }
  }

  lemma {:induction false} RootStream(c: Hash)
    requires IsRoot(c)
    ensures var e := LastOf(c, AddDataKind); LastStream(c) == if e.Some? then Some(e.value.stream) else None
  {
    if c == [] {
    } else {
      RootStream(c[..|c| - 1]);
    }
  }

  /******* The newest batch *******/

  lemma {:induction false} SomeData(c: Hash)
    requires c != [] && !HasData(c[0].event)
    ensures NewestData(c, |c|).Some? <==> NextData(c, 1).Some?
  {
    if NewestData(c, |c|).Some? {
      NextDataIsFirst(c, 1, NewestData(c, |c|).value);
    } else if NextData(c, 1).Some? {
      NewestIsLast(c, |c|, NextData(c, 1).value);
    }
  }

  /** The newest data event among the batches shows the group of the newest slice, and there is
      none if there is no data. */
  lemma {:induction false} NewestBatchShown(c: Hash, limits: Limits, encode: Encoder)
    requires Valid(c) && Intact(c) && IsRoot(c) && c != []
    ensures var bs := Scan(c, limits, false);
      && AllWellFormed(bs)
      && var es := BatchEvents(bs, encode);
         if NewestData(c, |c|).None? then NewestAdd(es).None? else Shown(c, limits, es)
  {
    SeedFirst(c);
    SeedSkipped(c, limits, false);
    NothingPendingAtSeed(c, limits);
    ScanTracked(c, 1, limits, encode);
    SomeData(c);
  }

  /** What the compacted chain shows at its head. */
  lemma {:induction false} HeadAfter(c: Hash, d: Hash, limits: Limits, encode: Encoder)
    requires Valid(c) && Intact(c) && IsRoot(c) && c != [] && Rewritten(c, d, limits, encode)
    ensures HeadNotes(d) == NotesAfter(c, limits)
    ensures var q, e := NewestData(c, |c|), LastOf(d, AddDataKind);
      if q.None? then e.None?
      else e.Some? && LastOffset(e.value.stream) == LastOffset(c[q.value].event.stream)
  {
    var es := BatchEvents(Scan(c, limits, false), encode);
    SeedFirst(c);
    NewestBatchShown(c, limits, encode);
    NewestOfEvents(d, AddDataKind);
    assert ([c[0].event] + es)[1..] == es;
  }

  /******* What is kept *******/

  /** The newest notes of a stretch that reaches the head and holds a data event are those at the
      head, as far as these are set. */
  lemma {:induction false} NotesReachHead(c: Hash, lo: nat, q: nat, hi: nat)
    requires lo <= q < hi <= |c| && c[q].event.AddData?
    ensures NewestNotes(c, lo, hi) == NotesOrElse(HeadNotes(c[..hi]), NewestNotes(c, lo, hi))
    decreases hi
  {
    KindStep(c, hi - 1, AddDataKind);
    if q < hi - 1 {
      NotesReachHead(c, lo, q, hi - 1);
    }
  }

  lemma {:induction false} NoWatermarks(c: Hash, lo: nat, hi: nat)
    requires Valid(c) && lo <= hi <= |c| && ChainWatermark(c[..hi]).None?
    ensures NewestNotes(c, lo, hi).watermark.None?
    decreases hi
  {
    if lo == hi {
    } else {
      StreamStep(c, hi - 1);
      WatermarkMonotone(c, hi - 1, hi);
      NoWatermarks(c, lo, hi - 1);
    }
  }

  /** A note at the head is kept: by a merged slice if it is set, or if no event of the group sets
      one; by a single slice if it is the slice's own. */
  predicate Kept<T(==)>(head: Option<T>, merges: bool, newest: Option<T>, own: Option<T>) {
    if merges then head.Some? || newest.None? else own == head
  }

  lemma KeptIff<T>(head: Option<T>, merges: bool, newest: Option<T>, own: Option<T>)
    requires merges ==> newest == head.OrElse(newest)
    ensures (if merges then newest else own) == head <==> Kept(head, merges, newest, own)
  {
  }

  /** The newest slice groups with everything up to the head. */
  lemma {:induction false} NewestGroup(c: Hash, q: nat, limits: Limits)
    requires IsRoot(c) && NewestData(c, |c|) == Some(q)
    ensures GroupEnd(c, q) == |c|
    ensures var newest := NewestNotes(c, GroupBottom(c, q, limits), |c|);
      newest == NotesOrElse(HeadNotes(c), newest)
  {
    if NextData(c, q + 1).Some? {
      NewestIsLast(c, |c|, NextData(c, q + 1).value);
    }
    assert c[..|c|] == c;
    NotesReachHead(c, GroupBottom(c, q, limits), q, |c|);
  }

  /** Source state, checkpoint and watermark after compaction are those at the original head
      exactly under these conditions. */
  lemma {:induction false} NotesKeptIff(c: Hash, d: Hash, limits: Limits, encode: Encoder)
    requires Valid(c) && Intact(c) && IsRoot(c) && c != [] && Rewritten(c, d, limits, encode)
    ensures var q, h, a := NewestData(c, |c|), HeadNotes(c), HeadNotes(d);
      if q.None? then a == NO_NOTES
      else
        var merges, own := MergesDown(c, q.value, limits), NotesOf(c[q.value].event);
        var newest := NewestNotes(c, GroupBottom(c, q.value, limits), |c|);
        && (a.sourceState == h.sourceState <==> Kept(h.sourceState, merges, newest.sourceState, own.sourceState))
        && (a.checkpoint == h.checkpoint <==> Kept(h.checkpoint, merges, newest.checkpoint, own.checkpoint))
        && (a.watermark == h.watermark <==> merges || own.watermark == h.watermark)
  {
    var q, h := NewestData(c, |c|), HeadNotes(c);
    HeadAfter(c, d, limits, encode);
    if q.Some? {
      var merges, own := MergesDown(c, q.value, limits), NotesOf(c[q.value].event);
      var newest := NewestNotes(c, GroupBottom(c, q.value, limits), |c|);
      NewestGroup(c, q.value, limits);
      KeptIff(h.sourceState, merges, newest.sourceState, own.sourceState);
      KeptIff(h.checkpoint, merges, newest.checkpoint, own.checkpoint);
      RootStream(c);
      if h.watermark.None? {
        assert c[..|c|] == c;
        NoWatermarks(c, GroupBottom(c, q.value, limits), |c|);
      }
    }
  }

  /** Compaction keeps the head watermark if and only if the newest slice is merged, or itself
      carries that watermark, or there is no data and no watermark either. */
  lemma {:induction false} WatermarkKeptIff(c: Hash, d: Hash, limits: Limits, encode: Encoder)
    requires Valid(c) && Intact(c) && IsRoot(c) && c != [] && Rewritten(c, d, limits, encode) && IsRoot(d)
    ensures var q := NewestData(c, |c|);
      ChainWatermark(d) == ChainWatermark(c) <==>
        if q.None? then ChainWatermark(c).None?
        else MergesDown(c, q.value, limits) || c[q.value].event.stream.newWatermark == ChainWatermark(c)
  {
    RootStream(c);
    RootStream(d);
    NotesKeptIff(c, d, limits, encode);
  }

  lemma {:induction false} OffsetSince(c: Hash, q: nat, hi: nat)
    requires Valid(c) && IsRoot(c) && q < hi <= |c| && HasData(c[q].event)
    requires forall k | q < k < hi :: !HasData(c[k].event)
    ensures ChainOffset(c[..hi]) == LastOffset(c[q].event.stream)
    decreases hi
  {
    StreamStep(c, hi - 1);
    if q < hi - 1 {
      OffsetSince(c, q, hi - 1);
      if c[hi - 1].event.AddData? {
        StreamLinked(c, hi - 1);
      }
    }
  }

  /** Compaction keeps the last offset if and only if there is data, or none was claimed. */
  lemma {:induction false} OffsetKeptIff(c: Hash, d: Hash, limits: Limits, encode: Encoder)
    requires Valid(c) && Intact(c) && IsRoot(c) && c != [] && Rewritten(c, d, limits, encode) && IsRoot(d)
    ensures ChainOffset(d) == ChainOffset(c) <==> NewestData(c, |c|).Some? || ChainOffset(c).None?
  {
    var q := NewestData(c, |c|);
    RootStream(d);
    HeadAfter(c, d, limits, encode);
    if q.Some? {
      NoDataAbove(c, q.value);
      assert c[..|c|] == c;
      OffsetSince(c, q.value, |c|);
    }
  }

  lemma {:induction false} NoDataAbove(c: Hash, q: nat)
    requires NewestData(c, |c|) == Some(q)
    ensures forall k | q < k < |c| :: !HasData(c[k].event)
  {
    forall k | q < k < |c| && HasData(c[k].event)
      ensures false
    {
      NewestIsLast(c, |c|, k);
    }
  }

  /******* Metadata *******/

  function NewestItem(items: seq<Item>, k: EventKind): Option<Event> {
    if items == [] then None
    else
      var last := items[|items| - 1];
      if last.Metadata? && KindOf(last.event) == k then Some(last.event) else NewestItem(items[..|items| - 1], k)
  }

  lemma {:induction false} NewestItemConcat(a: seq<Item>, b: seq<Item>, k: EventKind)
    ensures NewestItem(a + b, k) == NewestItem(b, k).OrElse(NewestItem(a, k))
  {
    if b == [] {
      assert a + b == a;
    } else {
      NewestItemConcat(a, b[..|b| - 1], k);
      assert (a + b)[..|a + b| - 1] == a + b[..|b| - 1];
    }
  }

  lemma {:induction false} NoItemInRecords(rows: seq<Row>, k: EventKind)
    ensures NewestItem(Records(rows), k).None?
  {
    if rows == [] {
    } else {
      NoItemInRecords(rows[..|rows| - 1], k);
      assert Records(rows)[..|rows| - 1] == Records(rows[..|rows| - 1]);
    }
  }

  lemma {:induction false} NewestItemOfEvent(e: Event, k: EventKind)
    requires k != AddDataKind
    ensures NewestItem(EventMeaning(e), k) == if KindOf(e) == k then Some(e) else None
  {
    if e.AddData? && e.stream.newData.Some? {
      NoItemInRecords(e.stream.newData.value.physicalHash.rows, k);
    }
  }

  lemma {:induction false} NewestItemOfMeaning(es: seq<Event>, k: EventKind)
    requires k != AddDataKind
    ensures NewestItem(Meaning(es), k) == NewestOf(es, k)
  {
    if es == [] {
    } else {
      NewestItemOfMeaning(es[1..], k);
      NewestItemConcat(EventMeaning(es[0]), Meaning(es[1..]), k);
      NewestItemOfEvent(es[0], k);
    }
  }

  /** Chains that mean the same have the same schema, vocabulary and so on in force. */
  lemma {:induction false} MetadataKept(c: Hash, d: Hash, k: EventKind)
    requires Meaning(Events(d)) == Meaning(Events(c)) && k != AddDataKind
    ensures LastOf(d, k) == LastOf(c, k)
  {
    NewestItemOfMeaning(Events(c), k);
    NewestItemOfMeaning(Events(d), k);
    NewestOfEvents(c, k);
    NewestOfEvents(d, k);
  }
}
