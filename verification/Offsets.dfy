/** Counting the records of a chain by the offsets that its data events carry. */
module Offsets {
  import opened Odf

  function RecordsIn(blocks: seq<Block>): int {
    if blocks == [] then 0
    else
      var n := |blocks| - 1;
      RecordsIn(blocks[..n]) + if HasData(blocks[n].event) then NumRecords(blocks[n].event.stream.newData.value) else 0
  }

  lemma {:induction false} RecordsConcat(a: seq<Block>, b: seq<Block>)
    ensures RecordsIn(a + b) == RecordsIn(a) + RecordsIn(b)
  {
    if b == [] {
      assert a + b == a;
    } else {
      var n := |b| - 1;
      RecordsConcat(a, b[..n]);
      assert (a + b)[..|a + b| - 1] == a + b[..n];
    }
  }

  /** Offset of the first record of a chain: zero, unless its first data event carries an offset. */
  function BaseOffset(c: Hash): nat {
    if c == [] then 0
    else
      var n := |c| - 1;
      var s := AsStream(c[n].event);
      if s.Some? && LastStream(c[..n]).None? then NextOffset(s.value.prevOffset) else BaseOffset(c[..n])
  }

  lemma {:induction false} RecordsByOffset(c: Hash)
    requires Valid(c)
    ensures RecordsIn(c) == if LastStream(c).Some? then NextOffset(ChainOffset(c)) - BaseOffset(c) else 0
    ensures LastStream(c).None? ==> BaseOffset(c) == 0
    ensures LastStream(c).Some? && ChainOffset(c).None? ==> BaseOffset(c) == 0
  {
    if c == [] {
    } else {
      var n := |c| - 1;
      ValidPrefix(c, n);
      RecordsByOffset(c[..n]);
      if AsStream(c[n].event).Some? {
        StreamLinked(c, n);
      }
    }
  }

  /** Once a chain has an offset, it keeps having one; its base never changes. */
  lemma {:induction false} OffsetsPersist(c: Hash, n: nat)
    requires Valid(c) && n <= |c|
    ensures ChainOffset(c[..n]).Some? ==> ChainOffset(c).Some?
    ensures LastStream(c[..n]).Some? ==> LastStream(c).Some? && BaseOffset(c) == BaseOffset(c[..n])
    decreases |c| - n
  {
    if n == |c| {
      assert c[..n] == c;
    } else {
      OffsetsPersist(c, n + 1);
      StreamStep(c, n);
      Snoc(c, n);
      if AsStream(c[n].event).Some? {
        StreamLinked(c, n);
      }
    }
  }

  lemma {:induction false} IntervalRecords(h: Hash, n: nat)
    requires Valid(h) && n <= |h|
    ensures RecordsIn(h[n..]) == RecordsIn(h) - RecordsIn(h[..n])
  {
    RecordsConcat(h[..n], h[n..]);
    assert h[..n] + h[n..] == h;
  }
}
