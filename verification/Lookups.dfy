/**
  The lookups as loops over pages: descend to a leaf, then walk the leaf chain to the
  right. Each equals a filter of the rows in chain order.
 */
module Lookups {
  import opened Keys
  import opened Nodes
  import opened Shapes
  import opened Steps
  import opened Searches
  import opened Trees

  // ── facts about the chain ──────────────────────────────────────────────────

  /** Leaves left of a clear position contribute nothing. */
  lemma {:induction false} ClearPrefix(op: Op, pages: Pages, g: Shape, leaves: seq<PageId>, v: Key, x: real)
    requires LeftClear(op, pages, g, v, x)
    requires forall i :: 0 <= i < |leaves| ==> leaves[i] in g.spans && g.spans[leaves[i]].a < x
    ensures Admitted(op, Flat(pages, leaves), v) == []
  {
    if leaves != [] {
      var last := leaves[|leaves| - 1];
      ClearPrefix(op, pages, g, leaves[..|leaves| - 1], v, x);
      var rows := if last in pages then LeafRows(pages[last]) else [];
      AdmittedNone(op, rows, v);
      AdmittedConcat(op, Flat(pages, leaves[..|leaves| - 1]), rows, v);
    }
  }

  /** Where a descent that ends at leaf `p` stands in the chain. */
  lemma StartsAt(op: Op, pages: Pages, root: PageId, g: Shape, kind: Kind, p: PageId, v: Key, leaves: seq<PageId>)
    returns (i: nat)
    requires TreeInv(pages, root, g, {}, kind) && Tiling(g, leaves, 0.0, 1.0)
    requires p in g.spans && g.spans[p].level == 0 && LeftClear(op, pages, g, v, g.spans[p].a)
    ensures i < |leaves| && leaves[i] == p && Admitted(op, Flat(pages, leaves[..i]), v) == []
  {
    hide TreeInv;
    ShapeParts(pages, root, g, {}, kind);
    EndsInside(g, p);
    i := TilingComplete(g, leaves, 1.0, p);
    forall j | 0 <= j < |leaves[..i]| ensures leaves[..i][j] in g.spans && g.spans[leaves[..i][j]].a < g.spans[p].a {
      TilingOrder(g, leaves, 0.0, 1.0, j, i);
      EndsInside(g, leaves[j]);
    }
    ClearPrefix(op, pages, g, leaves[..i], v, g.spans[p].a);
  }

  /** Taking the hits of leaf `i` extends the result by one leaf. */
  lemma ScanOne(op: Op, pages: Pages, root: PageId, g: Shape, kind: Kind, leaves: seq<PageId>, i: nat, v: Key)
    requires TreeInv(pages, root, g, {}, kind) && Tiling(g, leaves, 0.0, 1.0) && i < |leaves|
    ensures leaves[i] in pages && pages[leaves[i]].Leaf?
    ensures Admitted(op, Flat(pages, leaves[..i + 1]), v) ==
              Admitted(op, Flat(pages, leaves[..i]), v) + Hits(op, pages[leaves[i]], v)
    ensures pages[leaves[i]].next == if i + 1 < |leaves| then leaves[i + 1] else NO_PAGE
  {
    hide TreeInv;
    TilingLink(pages, root, g, kind, leaves, i);
    var p := leaves[i];
    LeafLink(pages, root, g, {}, kind, p);
    HitsAll(op, pages[p], v);
    assert leaves[..i + 1][..i] == leaves[..i];
    AdmittedConcat(op, Flat(pages, leaves[..i]), LeafRows(pages[p]), v);
  }

  lemma SortedPast(op: Op, a: seq<Row>, b: seq<Row>, c: seq<Row>, v: Key, at: nat)
    requires RowsSorted(a + b + c) && at < |b| && Past(op, b[at].key, v)
    ensures Admitted(op, a + b + c, v) == Admitted(op, a + b, v)
  {
    hide Past;
    hide Admits;
    var rows := a + b + c;
    assert rows[|a| + at] == b[at];
    forall j | 0 <= j < |c| ensures !Admits(op, c[j].key, v) {
      assert c[j] == rows[|a| + |b| + j];
      PastEnds(op, b[at].key, c[j].key, v);
    }
    AdmittedNone(op, c, v);
    AdmittedConcat(op, a + b, c, v);
  }

  lemma FlatCut(pages: Pages, leaves: seq<PageId>, i: nat)
    requires i < |leaves| && leaves[i] in pages
    ensures Flat(pages, leaves[..i + 1]) == Flat(pages, leaves[..i]) + LeafRows(pages[leaves[i]])
    ensures Flat(pages, leaves) == Flat(pages, leaves[..i]) + LeafRows(pages[leaves[i]]) + Flat(pages, leaves[i + 1..])
  {
    hide LeafRows;
    assert leaves == leaves[..i + 1] + leaves[i + 1..];
    assert leaves[..i + 1][..i] == leaves[..i];
    FlatConcat(pages, leaves[..i + 1], leaves[i + 1..]);
  }

  lemma StopRow(op: Op, n: Node, v: Key)
    requires PastIn(op, n, v)
    ensures StopOf(op, n, v) < |LeafRows(n)| && Past(op, LeafRows(n)[StopOf(op, n, v)].key, v)
  {
    hide Past;
    hide LeafRows;
  }

  /** Once a scan is past its bound the rest of the chain holds nothing. */
  lemma ScanPast(op: Op, pages: Pages, root: PageId, g: Shape, kind: Kind, leaves: seq<PageId>, i: nat, v: Key)
    requires TreeInv(pages, root, g, {}, kind) && Tiling(g, leaves, 0.0, 1.0) && i < |leaves|
    requires leaves[i] in pages && PastIn(op, pages[leaves[i]], v)
    ensures Admitted(op, Flat(pages, leaves), v) == Admitted(op, Flat(pages, leaves[..i + 1]), v)
  {
    hide *;
    FlatSorted(pages, root, g, kind, leaves, 0.0, 1.0);
    FlatCut(pages, leaves, i);
    var n := pages[leaves[i]];
    StopRow(op, n, v);
    SortedPast(op, Flat(pages, leaves[..i]), LeafRows(n), Flat(pages, leaves[i + 1..]), v, StopOf(op, n, v));
  }

  lemma WholeChain(leaves: seq<PageId>, i: nat)
    requires i + 1 == |leaves|
    ensures leaves[..i + 1] == leaves
  {
  }

  // ── one leaf ───────────────────────────────────────────────────────────────

  lemma RowAt(n: Node, j: nat)
    requires n.Leaf? && j < |n.entries|
    ensures |LeafRows(n)| == |n.entries|
    ensures LeafRows(n)[j] == Row(n.entries[j].key, n.entries[j].rid, PayloadAt(n.payloads, j))
    ensures LeafRows(n)[..j + 1][..j] == LeafRows(n)[..j]
  {
  }

  lemma RowCount(n: Node)
    requires n.Leaf?
    ensures |LeafRows(n)| == |n.entries|
  {
  }

  lemma AdmittedNext(op: Op, rows: seq<Row>, v: Key, j: nat)
    requires j < |rows|
    ensures Admitted(op, rows[..j + 1], v) ==
              Admitted(op, rows[..j], v) + (if Admits(op, rows[j].key, v) then [rows[j]] else [])
  {
    hide Admits;
    assert rows[..j + 1][..j] == rows[..j];
  }

  lemma AdmittedNotPast(op: Op, k: Key, v: Key)
    ensures Admits(op, k, v) ==> !Past(op, k, v)
  {
  }

  /** The stop position is the first index past the bound. */
  lemma {:induction false} StopIs(op: Op, rows: seq<Row>, v: Key, i: nat, j: nat)
    requires i <= j <= |rows| && (forall k :: i <= k < j ==> !Past(op, rows[k].key, v))
    requires j < |rows| ==> Past(op, rows[j].key, v)
    ensures StopFrom(op, rows, v, i) == j
    decreases j - i
  {
    hide Past;
    if i < j { StopIs(op, rows, v, i + 1, j); }
  }

  lemma StoppedAt(op: Op, n: Node, v: Key, j: nat)
    requires n.Leaf? && j <= |LeafRows(n)| && (forall k :: 0 <= k < j ==> !Past(op, LeafRows(n)[k].key, v))
    requires j < |LeafRows(n)| ==> Past(op, LeafRows(n)[j].key, v)
    ensures Hits(op, n, v) == Admitted(op, LeafRows(n)[..j], v) && PastIn(op, n, v) == (j < |LeafRows(n)|)
  {
    hide Past;
    hide LeafRows;
    hide Admitted;
    StopIs(op, LeafRows(n), v, 0, j);
  }

  /** Collect the admitted rows of a leaf up to the first one past the bound. */
  method ScanLeaf(op: Op, n: Node, v: Key) returns (hits: seq<Row>, past: bool)
    requires n.Leaf?
    ensures hits == Hits(op, n, v) && past == PastIn(op, n, v)
  {
    hide *;
    hits, past := [], false;
    RowCount(n);
    ghost var rows := LeafRows(n);
    var j := 0;
    AdmittedEmpty(op, v);
    while j < |n.entries|
      invariant j <= |n.entries| == |rows| && rows == LeafRows(n) && !past
      invariant forall i :: 0 <= i < j ==> !Past(op, rows[i].key, v)
      invariant hits == Admitted(op, rows[..j], v)
    {
      var row := Row(n.entries[j].key, n.entries[j].rid, PayloadAt(n.payloads, j));
      RowAt(n, j);
      AdmittedNext(op, rows, v, j);
      AdmittedNotPast(op, row.key, v);
      if Admits(op, row.key, v) {
        hits := hits + [row];
      } else if Past(op, row.key, v) {
        past := true;
        break;
      }
      j := j + 1;
    }
    StoppedAt(op, n, v, j);
  }

  lemma AdmittedEmpty(op: Op, v: Key)
    ensures Admitted(op, [], v) == []
  {
  }

  /** As `ScanLeaf`, but stop as soon as `limit` rows are collected in all. */
  method ScanLeafLimit(op: Op, n: Node, v: Key, out: seq<Row>, limit: nat) returns (out': seq<Row>, done: bool)
    requires n.Leaf? && |out| < limit
    ensures var all := out + Hits(op, n, v);
            out' == (if |all| <= limit then all else all[..limit])
    ensures done == (PastIn(op, n, v) || |out + Hits(op, n, v)| >= limit)
  {
    hide *;
    out', done := out, false;
    RowCount(n);
    ghost var rows := LeafRows(n);
    var j := 0;
    AdmittedEmpty(op, v);
    while j < |n.entries|
      invariant j <= |n.entries| == |rows| && rows == LeafRows(n) && !done && |out'| < limit
      invariant forall i :: 0 <= i < j ==> !Past(op, rows[i].key, v)
      invariant out' == out + Admitted(op, rows[..j], v)
    {
      var row := Row(n.entries[j].key, n.entries[j].rid, PayloadAt(n.payloads, j));
      RowAt(n, j);
      AdmittedNext(op, rows, v, j);
      AdmittedNotPast(op, row.key, v);
      if Admits(op, row.key, v) {
        out' := out' + [row];
        if |out'| >= limit {
          done := true;
          AdmittedPrefix(op, n, v, j + 1);
          return;
        }
      } else if Past(op, row.key, v) {
        done := true;
        break;
      }
      j := j + 1;
    }
    StoppedAt(op, n, v, j);
  }

  /** What is collected from the first `j` rows is a prefix of the hits of the leaf. */
  lemma AdmittedPrefix(op: Op, n: Node, v: Key, j: nat)
    requires n.Leaf? && j <= |LeafRows(n)| && (forall k :: 0 <= k < j ==> !Past(op, LeafRows(n)[k].key, v))
    ensures Admitted(op, LeafRows(n)[..j], v) <= Hits(op, n, v)
  {
    hide Past;
    hide LeafRows;
    var rows := LeafRows(n);
    var stop := StopOf(op, n, v);
    assert j <= stop;
    assert rows[..stop] == rows[..j] + rows[j..stop];
    AdmittedConcat(op, rows[..j], rows[j..stop], v);
  }
}
