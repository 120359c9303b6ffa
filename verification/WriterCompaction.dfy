/** What a data writer sees of a dataset that has been compacted. */
module WriterCompaction {
  import opened Wrappers
  import opened Odf
  import opened CompactionModel
  import opened CompactionMeaning
  import opened CompactionGroups
  import opened CompactionHead
  import opened Compaction
  import opened WriterModel

  /******* The records in the files *******/

  function RowOf(item: Item): seq<Row> {
    if item.Record? then [item.row] else []
  }

  function RowsOf(items: seq<Item>): seq<Row> {
    if items == [] then [] else RowOf(items[0]) + RowsOf(items[1..])
  }

  lemma RowsCons(item: Item, items: seq<Item>)
    ensures RowsOf([item] + items) == RowOf(item) + RowsOf(items)
  {
    assert ([item] + items)[1..] == items;
  }

  lemma Regroup(a: seq<Row>, b: seq<Row>, c: seq<Row>)
    ensures a + (b + c) == a + b + c
  {
  }

  lemma {:induction false} RowsConcat(a: seq<Item>, b: seq<Item>)
    ensures RowsOf(a + b) == RowsOf(a) + RowsOf(b)
  {
    if a == [] {
      assert a + b == b;
    } else {
      RowsConcat(a[1..], b);
      assert a + b == [a[0]] + (a[1..] + b);
      RowsCons(a[0], a[1..] + b);
      Regroup(RowOf(a[0]), RowsOf(a[1..]), RowsOf(b));
    }
  }

  lemma {:induction false} RowsOfRecords(rows: seq<Row>)
    ensures RowsOf(Records(rows)) == rows
  {
    if rows == [] {
    } else {
      assert Records(rows)[1..] == Records(rows[1..]);
      RowsOfRecords(rows[1..]);
    }
  }

  lemma RowsOfEvent(e: Event)
    ensures RowsOf(EventMeaning(e)) ==
      if e.AddData? && e.stream.newData.Some? then e.stream.newData.value.physicalHash.rows else []
  {
    if e.AddData? && e.stream.newData.Some? {
      RowsOfRecords(e.stream.newData.value.physicalHash.rows);
    }
  }

  lemma {:induction false} MeaningSnoc(es: seq<Event>, e: Event)
    ensures Meaning(es + [e]) == Meaning(es) + EventMeaning(e)
  {
    if es == [] {
      assert es + [e] == [e] + es;
      MeaningCons(e, es);
    } else {
      assert (es + [e])[1..] == es[1..] + [e];
      MeaningSnoc(es[1..], e);
    }
  }

  /** The listed files, read oldest first, hold the records of the chain. */
  lemma {:induction false} FilesHoldRecords(c: Hash)
    ensures RowsOldestFirst(NewestSlices(c)) == RowsOf(Meaning(Events(c)))
  {
    if c == [] {
    } else {
      var n := |c| - 1;
      var e := c[n].event;
      FilesHoldRecords(c[..n]);
      assert Events(c) == Events(c[..n]) + [e];
      MeaningSnoc(Events(c[..n]), e);
      RowsConcat(Meaning(Events(c[..n])), EventMeaning(e));
      RowsOfEvent(e);
    }
  }

  /******* The state of a writer *******/

  lemma SameFacts(c: Hash, d: Hash)
    requires Meaning(Events(d)) == Meaning(Events(c))
    ensures ScanMeta(d).schema == ScanMeta(c).schema && ScanMeta(d).vocab == ScanMeta(c).vocab
    ensures RowsOldestFirst(ScanMeta(d).dataSlices) == RowsOldestFirst(ScanMeta(c).dataSlices)
  {
    MetadataKept(c, d, SchemaKind);
    MetadataKept(c, d, VocabKind);
    FilesHoldRecords(c);
    FilesHoldRecords(d);
  }

  lemma NotesScanned(c: Hash)
    ensures var m := ScanMeta(c);
      && m.prevWatermark == HeadNotes(c).watermark && m.prevSourceState == HeadNotes(c).sourceState
      && m.prevCheckpoint == CheckpointHash(HeadNotes(c).checkpoint)
    ensures IsRoot(c) ==> ScanMeta(c).prevOffset == ChainOffset(c)
  {
    if IsRoot(c) {
      RootStream(c);
    }
  }

  /** The state that a writer scans before and after compaction: schema, vocabulary and records
      are the same; the last offset, source state, watermark and checkpoint are the same exactly
      under the conditions given.  Without data nothing of these is left. */
  lemma {:induction false} ScanAfterCompaction(c: Hash, d: Hash, limits: Limits, encode: Encoder)
    requires Valid(c) && Intact(c) && IsRoot(c) && c != [] && Rewritten(c, d, limits, encode)
    ensures var m, n, q := ScanMeta(c), ScanMeta(d), NewestData(c, |c|);
      && n.schema == m.schema && n.vocab == m.vocab
      && RowsOldestFirst(n.dataSlices) == RowsOldestFirst(m.dataSlices)
      && (n.prevOffset == m.prevOffset <==> q.Some? || m.prevOffset.None?)
      && if q.None? then
           n.prevSourceState.None? && n.prevWatermark.None? && n.prevCheckpoint.None?
         else
           var merges, own := MergesDown(c, q.value, limits), NotesOf(c[q.value].event);
           var newest := NewestNotes(c, GroupBottom(c, q.value, limits), |c|);
           && (n.prevSourceState == m.prevSourceState <==>
                 Kept(m.prevSourceState, merges, newest.sourceState, own.sourceState))
           && (n.prevWatermark == m.prevWatermark <==> merges || own.watermark == m.prevWatermark)
           && (n.prevCheckpoint == m.prevCheckpoint <==>
                 Kept(m.prevCheckpoint, merges, CheckpointHash(newest.checkpoint), CheckpointHash(own.checkpoint)))
  {
    CompactionPreservesMeaning(c, limits, encode);
    SameFacts(c, d);
    QueriesDropped(c, d, limits, encode);
    OffsetKeptIff(c, d, limits, encode);
    NotesKeptIff(c, d, limits, encode);
    NotesScanned(c);
    NotesScanned(d);
    if NewestData(c, |c|).Some? {
      CheckpointScanned(c, d, limits, encode);
    }
  }

  lemma {:induction false} CheckpointScanned(c: Hash, d: Hash, limits: Limits, encode: Encoder)
    requires Valid(c) && Intact(c) && IsRoot(c) && c != [] && Rewritten(c, d, limits, encode)
    requires NewestData(c, |c|).Some?
    ensures var q := NewestData(c, |c|).value;
      var newest, head := NewestNotes(c, GroupBottom(c, q, limits), |c|), CheckpointHash(HeadNotes(c).checkpoint);
      CheckpointHash(HeadNotes(d).checkpoint) == head <==>
        Kept(head, MergesDown(c, q, limits), CheckpointHash(newest.checkpoint),
          CheckpointHash(NotesOf(c[q].event).checkpoint))
  {
    HeadAfter(c, d, limits, encode);
    NewestGroup(c, NewestData(c, |c|).value, limits);
  }
}
