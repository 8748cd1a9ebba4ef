/**
  What becomes of a leaf when a logical insert is redone and the insert before it is not:
  the position in the record was counted with the missing entry.
 */
module Skipped {
  import opened Keys
  import opened Nodes
  import opened Sizes
  import opened Codec
  import opened Redo

  lemma Positions(es: seq<Entry>, i: nat, e1: Entry, j: nat, e2: Entry, k: nat)
    requires i < j <= |es| && k <= |es| + 1
    ensures var f := InsertAt(InsertAt(es, i, e1), j, e2);
            && |f| == |es| + 2 && f[i] == e1 && f[j] == e2
            && (k < i ==> f[k] == es[k]) && (i < k < j ==> f[k] == es[k - 1]) && (j < k ==> f[k] == es[k - 2])
  {
  }

  /** The entry lands in key order, unless it steps over the entry that should follow it. */
  lemma SkippedOrder(es: seq<Entry>, i: nat, e1: Entry, j: nat, e2: Entry)
    requires i <= |es| && j <= |es| && KeysSorted(InsertAt(InsertAt(es, i, e1), j, e2))
    ensures KeysSorted(InsertAt(es, j, e2)) <==> j <= i || Rank(es[j - 1].key) <= Rank(e2.key)
  {
    var f, r := InsertAt(InsertAt(es, i, e1), j, e2), InsertAt(es, j, e2);
    if j <= i {
      forall a, b | 0 <= a < b < |r| ensures Rank(r[a].key) <= Rank(r[b].key) {
        var a', b' := if a <= i then a else a + 1, if b <= i then b else b + 1;
        assert f[a'] == r[a] && f[b'] == r[b];
      }
    } else {
      assert r[j - 1] == es[j - 1] && r[j] == e2;
      if Rank(es[j - 1].key) <= Rank(e2.key) { SteppedOver(es, i, e1, j, e2); }
    }
  }

  lemma SteppedOver(es: seq<Entry>, i: nat, e1: Entry, j: nat, e2: Entry)
    requires i < j <= |es| && KeysSorted(InsertAt(InsertAt(es, i, e1), j, e2)) && Rank(es[j - 1].key) <= Rank(e2.key)
    ensures KeysSorted(InsertAt(es, j, e2))
  {
    var f, r := InsertAt(InsertAt(es, i, e1), j, e2), InsertAt(es, j, e2);
    forall a, b | 0 <= a < b < |es| ensures Rank(es[a].key) <= Rank(es[b].key) {
      var a', b' := if a < i then a else if a < j - 1 then a + 1 else a + 2,
                    if b < i then b else if b < j - 1 then b + 1 else b + 2;
      Positions(es, i, e1, j, e2, a');
      Positions(es, i, e1, j, e2, b');
    }
    forall b | j <= b < |es| ensures Rank(e2.key) <= Rank(es[b].key) {
      Positions(es, i, e1, j, e2, b + 2);
    }
    hide InsertAt;
    InsertedIs(es, j, e2);
    forall a, b | 0 <= a < b < |r| ensures Rank(r[a].key) <= Rank(r[b].key) {
      if b == j { assert a < j - 1 ==> Rank(es[a].key) <= Rank(es[j - 1].key); }
    }
  }

  lemma InsertedIs(es: seq<Entry>, j: nat, e: Entry)
    requires j <= |es|
    ensures var r := InsertAt(es, j, e);
            |r| == |es| + 1
            && forall k :: 0 <= k < |r| ==> r[k] == if k < j then es[k] else if k == j then e else es[k - 1]
  {
  }

  lemma RedoOutOfRange(page: Bytes, n: Node, pid: PageId, size: nat, op: LeafOp)
    requires n.Leaf? && Fits(n, size) && SameNode(page, PageOf(n, pid, size)) && |n.entries| < op.pos < 65536
    ensures RedoInsert(page, RecordOf(op), size) == None
  {
    PageRound(n, pid, size);
    SameParse(page, PageOf(n, pid, size));
    CollapseLeaf(n);
    RecordIs(op);
    hide Parse;
    hide DecodeKey;
    hide LeafInsert;
    hide Fits;
    hide SameNode;
  }

  /** A leaf with room for two entries has room for the second alone. */
  lemma SecondFits(n: Node, op1: LeafOp, op2: LeafOp, size: nat)
    requires Admissible(n, op1, size) && Admissible(Forward(n, op1), op2, size) && op2.pos <= |n.entries|
    ensures Admissible(n, op2, size)
  {
    hide *;
    AdmissibleParts(n, op1, size);
    AdmissibleParts(Forward(n, op1), op2, size);
    OpIsWritable(Forward(n, op1), op2, size);
    FitsParts(n, size);
    FitsParts(Forward(n, op1), size);
    FitsParts(Forward(Forward(n, op1), op2), size);
    WritableForward(n, op2);
    SecondSize(n, op1, op2, size);
    AdmissibleIntro(n, op2, size);
  }

  lemma FitsParts(n: Node, size: nat)
    requires Fits(n, size)
    ensures PayloadsAligned(n) && AllWritable(n) && MIN_PAGE <= size <= MAX_PAGE && BodyLen(n) <= size - PAGE_HEADER
  {
    hide PayloadsAligned;
    hide AllWritable;
    hide BodyLen;
  }

  lemma AdmissibleIntro(n: Node, op: LeafOp, size: nat)
    requires n.Leaf? && Fits(n, size) && op.pos <= |n.entries| && Forward(n, op).Leaf?
    requires PayloadsAligned(Forward(n, op)) && AllWritable(Forward(n, op))
    requires BodyLen(Forward(n, op)) <= size - PAGE_HEADER
    ensures Admissible(n, op, size)
  {
    hide PayloadsAligned;
    hide AllWritable;
    hide BodyLen;
    hide Forward;
  }

  lemma SecondSize(n: Node, op1: LeafOp, op2: LeafOp, size: nat)
    requires n.Leaf? && PayloadsAligned(n) && op1.pos <= |n.entries| && op2.pos <= |n.entries|
    requires Forward(n, op1).Leaf? && PayloadsAligned(Forward(n, op1)) && op2.pos <= |Forward(n, op1).entries|
    ensures BodyLen(Forward(n, op2)) <= BodyLen(Forward(Forward(n, op1), op2)) && PayloadsAligned(Forward(n, op2))
  {
    CollapseLeaf(n);
    var c := Collapse(n);
    LeafInsertRows(c, op1.pos, op1.e, op1.payload);
    LeafInsertRows(c, op2.pos, op2.e, op2.payload);
    var n1 := Forward(n, op1);
    CollapseSize(n1);
    CollapseLeaf(n1);
    LeafInsertRows(Collapse(n1), op2.pos, op2.e, op2.payload);
    hide LeafInsert;
    hide Collapse;
    hide BodyLen;
    hide RowsOf;
    hide RowSet;
  }

  lemma CollapseSize(n: Node)
    requires n.Leaf? && PayloadsAligned(n)
    ensures BodyLen(Collapse(n)) == BodyLen(n)
  {
    assert RowsOf(Collapse(n).entries, Collapse(n).payloads) == RowsOf(n.entries, n.payloads);
  }

  /**
    Two inserts went into a leaf; redo has the second record but not the first. If the
    position is now out of range the second insert is dropped. Otherwise it is put at that
    position, and the leaf stays in key order if and only if the position does not lie
    beyond the missing entry's, or the entry before it is not greater.
   */
  lemma SecondInsertAlone(page: Bytes, n: Node, pid: PageId, size: nat, op1: LeafOp, op2: LeafOp)
    requires Admissible(n, op1, size) && Admissible(Forward(n, op1), op2, size) && SameNode(page, PageOf(n, pid, size))
    requires KeysSorted(InsertAt(InsertAt(n.entries, op1.pos, op1.e), op2.pos, op2.e))
    ensures op2.pos > |n.entries| <==> RedoInsert(page, RecordOf(op2), size) == None
    ensures op2.pos <= |n.entries| ==>
              && Admissible(n, op2, size)
              && RedoInsert(page, RecordOf(op2), size) == Some(PageOf(Forward(n, op2), pid, size))
              && Forward(n, op2).Leaf? && Forward(n, op2).entries == InsertAt(n.entries, op2.pos, op2.e)
              && (KeysSorted(Forward(n, op2).entries) <==>
                    op2.pos <= op1.pos || Rank(n.entries[op2.pos - 1].key) <= Rank(op2.e.key))
  {
    hide *;
    AdmissibleParts(n, op1, size);
    OpIsSmall(Forward(n, op1), op2, size);
    if op2.pos > |n.entries| {
      RedoOutOfRange(page, n, pid, size, op2);
    } else {
      SecondFits(n, op1, op2, size);
      AdmissibleParts(n, op2, size);
      RedoIsForward(page, n, pid, size, op2);
      ForwardEntries(n, op2);
      SkippedOrder(n.entries, op1.pos, op1.e, op2.pos, op2.e);
    }
  }

  lemma ForwardEntries(n: Node, op: LeafOp)
    requires n.Leaf?
    ensures Forward(n, op).Leaf? && Forward(n, op).entries == InsertAt(n.entries, op.pos, op.e)
  {
  }

  /** Keys 20 and 30 go between 10 and 40; redo of the second insert alone puts 30 behind 40. */
  lemma OrderCanBreak(r: RowId)
    ensures var es, e1, e2 := [Entry(IntKey(10), r), Entry(IntKey(40), r)], Entry(IntKey(20), r), Entry(IntKey(30), r);
            && KeysSorted(InsertAt(InsertAt(es, 1, e1), 2, e2)) && !KeysSorted(InsertAt(es, 2, e2))
  {
    var es, e1, e2 := [Entry(IntKey(10), r), Entry(IntKey(40), r)], Entry(IntKey(20), r), Entry(IntKey(30), r);
    var f := InsertAt(InsertAt(es, 1, e1), 2, e2);
    assert f == [es[0], e1, e2, es[1]];
    SkippedOrder(es, 1, e1, 2, e2);
  }
}
