/**
  What the shape invariant means for the pages alone, once no page is pending: the
  textbook B+tree. All leaves are equally deep, each subtree stays between its
  separators, and the leaf chain is the in-order list of the leaves.
 */
module Trees {
  import opened Keys
  import opened Nodes
  import opened Shapes
  import opened Steps
  import opened Searches

  // ── the textbook definition ────────────────────────────────────────────────

  /** The leaves below `p`, left to right; `level` is the height of `p`. */
  function LeavesUnder(pages: Pages, p: PageId, level: nat): seq<PageId>
    decreases level, 0
  {
    if level == 0 then [p]
    else if p in pages && pages[p].Internal? then LeavesOfAll(pages, pages[p].children, level - 1)
    else []
  }

  function LeavesOfAll(pages: Pages, ps: seq<PageId>, level: nat): seq<PageId>
    decreases level, |ps| + 1
  {
    if ps == [] then []
    else LeavesOfAll(pages, ps[..|ps| - 1], level) + LeavesUnder(pages, ps[|ps| - 1], level)
  }

  /** The pages are leaves, each linked to the next, the last to `end`. */
  predicate Chained(pages: Pages, leaves: seq<PageId>, end: PageId) {
    && (forall i :: 0 <= i < |leaves| ==> leaves[i] in pages && pages[leaves[i]].Leaf?)
    && (forall i :: 0 <= i < |leaves| - 1 ==> pages[leaves[i]].next == leaves[i + 1])
    && (leaves != [] ==> pages[leaves[|leaves| - 1]].next == end)
  }

  /** The rows along a list of leaves. */
  function Flat(pages: Pages, leaves: seq<PageId>): seq<Row> {
    if leaves == [] then []
    else
      var last := leaves[|leaves| - 1];
      Flat(pages, leaves[..|leaves| - 1]) + (if last in pages then LeafRows(pages[last]) else [])
  }

  /** The key bounds of the `i`-th child of an internal node with bounds `lo` and `hi`. */
  ghost function LoOf(n: Node, lo: real, i: nat): real {
    if n.Internal? && 0 < i <= |n.keys| then Rank(n.keys[i - 1]) else lo
  }

  ghost function HiOf(n: Node, hi: real, i: nat): real {
    if n.Internal? && i < |n.keys| then Rank(n.keys[i]) else hi
  }

  /** A subtree of uniform depth whose keys lie between the separators around it. */
  ghost predicate Bounded(pages: Pages, p: PageId, level: nat, lo: real, hi: real)
    decreases level
  {
    && p in pages
    && if level == 0 then
         pages[p].Leaf? && KeysSorted(pages[p].entries) && EntriesWithin(pages[p].entries, lo, hi)
       else
         && pages[p].Internal? && |pages[p].children| == |pages[p].keys| + 1
         && (forall i :: 0 <= i < |pages[p].children| ==>
               Bounded(pages, pages[p].children[i], level - 1, LoOf(pages[p], lo, i), HiOf(pages[p], hi, i)))
  }

  /** A B+tree of the given depth whose rows, left to right, are `rows`. */
  ghost predicate WellFormed(pages: Pages, root: PageId, depth: nat, rows: seq<Row>) {
    var leaves := LeavesUnder(pages, root, depth);
    && Bounded(pages, root, depth, BOTTOM, TOP)
    && leaves != [] && Chained(pages, leaves, NO_PAGE)
    && (forall i, j :: 0 <= i < j < |leaves| ==> leaves[i] != leaves[j])
    && rows == Flat(pages, leaves) && RowsSorted(rows)
  }

  /** The pairs of a sequence of rows. */
  ghost function PairSet(rows: seq<Row>): set<Entry> {
    set r | r in rows :: Entry(r.key, r.rid)
  }

  // ── leaves tile the span of their subtree ──────────────────────────────────

  /** Leaves that cover [a, b) from left to right without gap or overlap. */
  ghost predicate Tiling(g: Shape, leaves: seq<PageId>, a: real, b: real) {
    && leaves != []
    && (forall i :: 0 <= i < |leaves| ==> leaves[i] in g.spans && g.spans[leaves[i]].level == 0)
    && g.spans[leaves[0]].a == a && g.spans[leaves[|leaves| - 1]].b == b
    && (forall i :: 0 <= i < |leaves| - 1 ==> g.spans[leaves[i]].b == g.spans[leaves[i + 1]].a)
  }

  lemma TilingAppend(g: Shape, l1: seq<PageId>, l2: seq<PageId>, a: real, m: real, b: real)
    requires Tiling(g, l1, a, m) && Tiling(g, l2, m, b)
    ensures Tiling(g, l1 + l2, a, b)
  {
    var l := l1 + l2;
    forall i | 0 <= i < |l| - 1 ensures g.spans[l[i]].b == g.spans[l[i + 1]].a {
      if i >= |l1| { assert l[i] == l2[i - |l1|] && l[i + 1] == l2[i + 1 - |l1|]; }
    }
  }

  /** With nothing pending every child reaches the next. */
  lemma NoPending(pages: Pages, root: PageId, g: Shape, kind: Kind, p: PageId)
    requires TreeInv(pages, root, g, {}, kind) && p in g.spans && g.spans[p].level > 0
    ensures p in pages && ChildrenOk(pages[p], p, g)
    ensures forall i :: 0 <= i < |pages[p].children| ==> g.spans[pages[p].children[i]].b == ChildEnd(pages[p], p, g, i)
  {
    hide TreeInv;
    TreePage(pages, root, g, {}, kind, p);
    forall i | 0 <= i < |pages[p].children|
      ensures g.spans[pages[p].children[i]].b == ChildEnd(pages[p], p, g, i)
    {
      assert Tiled(pages[p], p, g, {}, i);
    }
  }

  lemma {:induction false} LeavesTile(pages: Pages, root: PageId, g: Shape, kind: Kind, p: PageId, level: nat)
    requires TreeInv(pages, root, g, {}, kind) && p in g.spans && g.spans[p].level == level
    ensures Tiling(g, LeavesUnder(pages, p, level), g.spans[p].a, g.spans[p].b)
    decreases level, 0
  {
    hide TreeInv;
    if level > 0 {
      NoPending(pages, root, g, kind, p);
      var n := pages[p];
      assert n.children[..|n.children|] == n.children;
      ChildrenTile(pages, root, g, kind, p, level, |n.children|);
    }
  }

  lemma {:induction false} ChildrenTile(pages: Pages, root: PageId, g: Shape, kind: Kind, p: PageId, level: nat, k: nat)
    requires TreeInv(pages, root, g, {}, kind) && p in g.spans && g.spans[p].level == level > 0
    requires p in pages && ChildrenOk(pages[p], p, g) && 0 < k <= |pages[p].children|
    requires forall i :: 0 <= i < |pages[p].children| ==> g.spans[pages[p].children[i]].b == ChildEnd(pages[p], p, g, i)
    ensures Tiling(g, LeavesOfAll(pages, pages[p].children[..k], level - 1), g.spans[p].a,
                   ChildEnd(pages[p], p, g, k - 1))
    decreases level - 1, k + 1
  {
    hide TreeInv;
    hide Tiling;
    var n := pages[p];
    var child := n.children[k - 1];
    LeavesTile(pages, root, g, kind, child, level - 1);
    assert n.children[..k][..k - 1] == n.children[..k - 1];
    if k == 1 {
      assert LeavesOfAll(pages, n.children[..0], level - 1) == [];
      assert LeavesOfAll(pages, n.children[..1], level - 1) == [] + LeavesUnder(pages, child, level - 1);
      assert [] + LeavesUnder(pages, child, level - 1) == LeavesUnder(pages, child, level - 1);
    } else {
      ChildrenTile(pages, root, g, kind, p, level, k - 1);
      TilingAppend(g, LeavesOfAll(pages, n.children[..k - 1], level - 1), LeavesUnder(pages, child, level - 1),
                   g.spans[p].a, g.spans[child].a, g.spans[child].b);
    }
  }

  /** Starts of a tiling increase strictly. */
  lemma {:induction false} TilingOrder(g: Shape, leaves: seq<PageId>, a: real, b: real, i: nat, j: nat)
    requires SpansOk(g) && Tiling(g, leaves, a, b) && i < j < |leaves|
    ensures g.spans[leaves[i]].b <= g.spans[leaves[j]].a
    decreases j
  {
    if i + 1 < j {
      TilingOrder(g, leaves, a, b, i, j - 1);
      assert SpanOk(g, leaves[j - 1]);
    }
  }

  // ── the leaf chain is the in-order list ────────────────────────────────────

  /** Two leaves with the same start are the same leaf. */
  lemma StartUnique(g: Shape, p: PageId, q: PageId)
    requires ShapeOk(g) && p in g.spans && q in g.spans && g.spans[p].level == g.spans[q].level
    requires g.spans[p].a == g.spans[q].a
    ensures p == q
  {
    assert SpanOk(g, p) && SpanOk(g, q);
  }

  lemma LeafLink(pages: Pages, root: PageId, g: Shape, pend: set<PageId>, kind: Kind, p: PageId)
    requires TreeInv(pages, root, g, pend, kind) && p in g.spans && g.spans[p].level == 0
    ensures p in pages && pages[p].Leaf? && KeysSorted(pages[p].entries) && PayloadsAligned(pages[p])
    ensures g.spans[p].a in g.fence && g.spans[p].b in g.fence
    ensures EntriesWithin(pages[p].entries, g.fence[g.spans[p].a], g.fence[g.spans[p].b])
    ensures pages[p].next == NO_PAGE <==> g.spans[p].b == 1.0
    ensures pages[p].next != NO_PAGE ==>
              pages[p].next in g.spans && g.spans[pages[p].next].level == 0 && g.spans[pages[p].next].a == g.spans[p].b
    ensures ShapeOk(g)
  {
    hide TreeInv;
    TreePage(pages, root, g, pend, kind, p);
    ShapeParts(pages, root, g, pend, kind);
    if pages[p].next != NO_PAGE { assert SpanOk(g, pages[p].next); }
  }

  lemma TilingLink(pages: Pages, root: PageId, g: Shape, kind: Kind, leaves: seq<PageId>, i: nat)
    requires TreeInv(pages, root, g, {}, kind) && Tiling(g, leaves, 0.0, 1.0) && i < |leaves|
    ensures leaves[i] in pages && pages[leaves[i]].Leaf?
    ensures pages[leaves[i]].next == if i + 1 < |leaves| then leaves[i + 1] else NO_PAGE
  {
    hide TreeInv;
    LeafLink(pages, root, g, {}, kind, leaves[i]);
    if i + 1 < |leaves| {
      EndsInside(g, leaves[i + 1]);
      StartUnique(g, pages[leaves[i]].next, leaves[i + 1]);
    }
  }

  lemma TilingChained(pages: Pages, root: PageId, g: Shape, kind: Kind, leaves: seq<PageId>)
    requires TreeInv(pages, root, g, {}, kind) && Tiling(g, leaves, 0.0, 1.0)
    ensures Chained(pages, leaves, NO_PAGE)
    ensures forall i, j :: 0 <= i < j < |leaves| ==> leaves[i] != leaves[j]
  {
    ShapeParts(pages, root, g, {}, kind);
    TilingNonEmpty(g, leaves, 0.0, 1.0);
    forall i | 0 <= i < |leaves|
      ensures leaves[i] in pages && pages[leaves[i]].Leaf?
      ensures pages[leaves[i]].next == if i + 1 < |leaves| then leaves[i + 1] else NO_PAGE
    {
      TilingLink(pages, root, g, kind, leaves, i);
    }
    forall i, j | 0 <= i < j < |leaves| ensures leaves[i] != leaves[j] {
      TilingApart(g, leaves, i, j);
    }
    TilingLink(pages, root, g, kind, leaves, |leaves| - 1);
    hide TreeInv;
    hide Tiling;
    hide ShapeOk;
  }

  lemma TilingApart(g: Shape, leaves: seq<PageId>, i: nat, j: nat)
    requires SpansOk(g) && Tiling(g, leaves, 0.0, 1.0) && i < j < |leaves|
    ensures leaves[i] != leaves[j]
  {
    TilingOrder(g, leaves, 0.0, 1.0, i, j);
    assert SpanOk(g, leaves[i]);
  }

  lemma EndsInside(g: Shape, p: PageId)
    requires ShapeOk(g) && p in g.spans
    ensures 0.0 <= g.spans[p].a < g.spans[p].b <= 1.0
  {
    assert SpanOk(g, p);
  }

  /** A tiling of [0, 1) contains every leaf of the tree. */
  lemma {:induction false} TilingComplete(g: Shape, leaves: seq<PageId>, b: real, q: PageId) returns (i: nat)
    requires ShapeOk(g) && Tiling(g, leaves, 0.0, b) && q in g.spans && g.spans[q].level == 0 && g.spans[q].a < b
    ensures i < |leaves| && leaves[i] == q
    decreases |leaves|
  {
    var last := |leaves| - 1;
    EndsInside(g, q);
    EndsInside(g, leaves[last]);
    if leaves[last] == q {
      i := last;
    } else {
      assert g.spans[q].b <= g.spans[leaves[last]].a;
      assert last > 0;
      i := TilingComplete(g, leaves[..last], g.spans[leaves[last]].a, q);
    }
  }

  // ── rows along the chain ───────────────────────────────────────────────────

  lemma {:induction false} FlatIn(pages: Pages, leaves: seq<PageId>, r: Row)
    ensures r in Flat(pages, leaves) <==>
              exists i :: 0 <= i < |leaves| && leaves[i] in pages && r in LeafRows(pages[leaves[i]])
  {
    if leaves != [] {
      var last := |leaves| - 1;
      FlatIn(pages, leaves[..last], r);
      if r in Flat(pages, leaves[..last]) {
        var i :| 0 <= i < |leaves[..last]| && leaves[..last][i] in pages && r in LeafRows(pages[leaves[..last][i]]);
        assert leaves[i] == leaves[..last][i];
      }
      if i :| 0 <= i < |leaves| && leaves[i] in pages && r in LeafRows(pages[leaves[i]]) {
        if i < last { assert leaves[..last][i] == leaves[i]; }
      }
    }
  }

  lemma {:induction false} FlatConcat(pages: Pages, a: seq<PageId>, b: seq<PageId>)
    ensures Flat(pages, a + b) == Flat(pages, a) + Flat(pages, b)
  {
    if b == [] {
      assert a + b == a;
    } else {
      assert (a + b)[..|a + b| - 1] == a + b[..|b| - 1];
      FlatConcat(pages, a, b[..|b| - 1]);
    }
  }

  /** The rows along a tiling are exactly the rows of the tree. */
  lemma FlatIsRows(pages: Pages, root: PageId, g: Shape, kind: Kind, leaves: seq<PageId>)
    requires TreeInv(pages, root, g, {}, kind) && Tiling(g, leaves, 0.0, 1.0)
    ensures (set r | r in Flat(pages, leaves)) == Rows(pages, g)
  {
    hide TreeInv;
    ShapeParts(pages, root, g, {}, kind);
    forall r ensures r in Flat(pages, leaves) <==> r in Rows(pages, g) {
      FlatIn(pages, leaves, r);
      if r in Flat(pages, leaves) {
        var i :| 0 <= i < |leaves| && leaves[i] in pages && r in LeafRows(pages[leaves[i]]);
        assert r in RowSet(pages[leaves[i]]);
      }
      if r in Rows(pages, g) {
        var p :| p in g.spans && p in pages && r in RowSet(pages[p]);
        TreePage(pages, root, g, {}, kind, p);
        EndsInside(g, p);
        var i := TilingComplete(g, leaves, 1.0, p);
        assert r in LeafRows(pages[leaves[i]]);
      }
    }
  }

  ghost predicate RowsWithin(rows: seq<Row>, lo: real, hi: real) {
    forall i :: 0 <= i < |rows| ==> lo <= Rank(rows[i].key) <= hi
  }

  lemma SortedConcat(a: seq<Row>, b: seq<Row>, lo: real, m: real, hi: real)
    requires RowsSorted(a) && RowsSorted(b) && RowsWithin(a, lo, m) && RowsWithin(b, m, hi) && lo <= m <= hi
    ensures RowsSorted(a + b) && RowsWithin(a + b, lo, hi)
  {
  }

  lemma LeafRowsWithin(pages: Pages, root: PageId, g: Shape, pend: set<PageId>, kind: Kind, p: PageId)
    requires TreeInv(pages, root, g, pend, kind) && p in g.spans && g.spans[p].level == 0
    ensures p in pages && RowsSorted(LeafRows(pages[p])) && SpanOk(g, p)
    ensures RowsWithin(LeafRows(pages[p]), g.fence[g.spans[p].a], g.fence[g.spans[p].b])
  {
    hide TreeInv;
    LeafLink(pages, root, g, pend, kind, p);
    assert SpanOk(g, p);
  }

  lemma FenceOrder(g: Shape, x: real, y: real)
    requires ShapeOk(g) && x in g.fence && y in g.fence && x <= y
    ensures g.fence[x] <= g.fence[y]
  {
  }

  lemma TilingLast(g: Shape, leaves: seq<PageId>, a: real, b: real)
    requires SpansOk(g) && Tiling(g, leaves, a, b)
    ensures leaves != [] && leaves[|leaves| - 1] in g.spans && SpanOk(g, leaves[|leaves| - 1])
    ensures g.spans[leaves[|leaves| - 1]].level == 0 && g.spans[leaves[|leaves| - 1]].b == b
    ensures |leaves| == 1 ==> g.spans[leaves[0]].a == a
    ensures |leaves| > 1 ==> Tiling(g, leaves[..|leaves| - 1], a, g.spans[leaves[|leaves| - 1]].a)
    ensures SpanOk(g, leaves[0]) && a in g.fence
  {
    assert SpanOk(g, leaves[|leaves| - 1]);
    assert SpanOk(g, leaves[0]);
  }

  /** Keys never decrease along the chain, and stay between the fences at its ends. */
  lemma {:induction false} FlatSorted(pages: Pages, root: PageId, g: Shape, kind: Kind, leaves: seq<PageId>, a: real,
                                      b: real)
    requires TreeInv(pages, root, g, {}, kind) && Tiling(g, leaves, a, b)
    ensures a in g.fence && b in g.fence && a <= b
    ensures RowsSorted(Flat(pages, leaves)) && RowsWithin(Flat(pages, leaves), g.fence[a], g.fence[b])
    decreases |leaves|
  {
    hide TreeInv;
    hide Tiling;
    hide RowsSorted;
    hide RowsWithin;
    hide LeafRows;
    ShapeParts(pages, root, g, {}, kind);
    hide ShapeOk;
    TilingLast(g, leaves, a, b);
    var last := |leaves| - 1;
    var p := leaves[last];
    LeafRowsWithin(pages, root, g, {}, kind, p);
    var rows := LeafRows(pages[p]);
    if last > 0 {
      var m := g.spans[p].a;
      FlatSorted(pages, root, g, kind, leaves[..last], a, m);
      FenceOrder(g, a, m);
      FenceOrder(g, m, b);
      SortedConcat(Flat(pages, leaves[..last]), rows, g.fence[a], g.fence[m], g.fence[b]);
    } else {
      assert Flat(pages, leaves[..last]) == [];
      assert Flat(pages, leaves) == [] + rows;
      assert [] + rows == rows;
    }
  }

  // ── subtrees between separators ────────────────────────────────────────────

  lemma {:induction false} SpanBounded(pages: Pages, root: PageId, g: Shape, kind: Kind, p: PageId, level: nat)
    requires TreeInv(pages, root, g, {}, kind) && p in g.spans && g.spans[p].level == level
    ensures g.spans[p].a in g.fence && g.spans[p].b in g.fence
    ensures Bounded(pages, p, level, g.fence[g.spans[p].a], g.fence[g.spans[p].b])
    decreases level
  {
    hide TreeInv;
    hide Bounded;
    ShapeParts(pages, root, g, {}, kind);
    hide ShapeOk;
    FenceAt(g, p);
    hide SpansOk;
    if level == 0 {
      LeafBounded(pages, root, g, kind, p);
    } else {
      NoPending(pages, root, g, kind, p);
      var n := pages[p];
      forall i | 0 <= i < |n.children|
        ensures Bounded(pages, n.children[i], level - 1, LoOf(n, g.fence[g.spans[p].a], i),
                        HiOf(n, g.fence[g.spans[p].b], i))
      {
        SpanBounded(pages, root, g, kind, n.children[i], level - 1);
        ChildBounds(n, p, g, i);
      }
      hide LoOf;
      hide HiOf;
      InnerBounded(pages, p, level, g.fence[g.spans[p].a], g.fence[g.spans[p].b]);
    }
  }

  lemma FenceAt(g: Shape, p: PageId)
    requires SpansOk(g) && p in g.spans
    ensures g.spans[p].a in g.fence && g.spans[p].b in g.fence
  {
    assert SpanOk(g, p);
  }

  lemma LeafBounded(pages: Pages, root: PageId, g: Shape, kind: Kind, p: PageId)
    requires TreeInv(pages, root, g, {}, kind) && p in g.spans && g.spans[p].level == 0
    requires g.spans[p].a in g.fence && g.spans[p].b in g.fence
    ensures Bounded(pages, p, 0, g.fence[g.spans[p].a], g.fence[g.spans[p].b])
  {
    hide TreeInv;
    LeafLink(pages, root, g, {}, kind, p);
  }

  lemma InnerBounded(pages: Pages, p: PageId, level: nat, lo: real, hi: real)
    requires level > 0 && p in pages && pages[p].Internal? && |pages[p].children| == |pages[p].keys| + 1
    requires forall i :: 0 <= i < |pages[p].children| ==>
               Bounded(pages, pages[p].children[i], level - 1, LoOf(pages[p], lo, i), HiOf(pages[p], hi, i))
    ensures Bounded(pages, p, level, lo, hi)
  {
  }

  lemma ChildBounds(n: Node, p: PageId, g: Shape, i: nat)
    requires SpansOk(g) && ChildrenOk(n, p, g) && i < |n.children| && g.spans[n.children[i]].b == ChildEnd(n, p, g, i)
    ensures SpanOk(g, p) && SpanOk(g, n.children[i])
    ensures g.fence[g.spans[n.children[i]].a] == LoOf(n, g.fence[g.spans[p].a], i)
    ensures g.fence[g.spans[n.children[i]].b] == HiOf(n, g.fence[g.spans[p].b], i)
  {
    assert SpanOk(g, p) && SpanOk(g, n.children[i]);
    if i + 1 < |n.children| { assert n.children[i + 1] in g.spans; }
  }

  /** A shape without pending pages is a well-formed B+tree holding exactly its rows. */
  lemma ShapeMeansTree(pages: Pages, root: PageId, g: Shape, kind: Kind) returns (depth: nat, rows: seq<Row>)
    requires TreeInv(pages, root, g, {}, kind)
    ensures WellFormed(pages, root, depth, rows) && (set r | r in rows) == Rows(pages, g)
    ensures root in g.spans && depth == g.spans[root].level && Tiling(g, LeavesUnder(pages, root, depth), 0.0, 1.0)
  {
    hide TreeInv;
    hide Tiling;
    hide Chained;
    hide Bounded;
    ShapeParts(pages, root, g, {}, kind);
    RootSpans(g, root);
    depth := g.spans[root].level;
    var leaves := LeavesUnder(pages, root, depth);
    LeavesTile(pages, root, g, kind, root, depth);
    rows := Flat(pages, leaves);
    TilingNonEmpty(g, leaves, 0.0, 1.0);
    TilingChained(pages, root, g, kind, leaves);
    FlatSorted(pages, root, g, kind, leaves, 0.0, 1.0);
    FlatIsRows(pages, root, g, kind, leaves);
    SpanBounded(pages, root, g, kind, root, depth);
  }

  lemma TilingNonEmpty(g: Shape, leaves: seq<PageId>, a: real, b: real)
    requires Tiling(g, leaves, a, b)
    ensures leaves != []
  {
  }

  lemma RootSpans(g: Shape, root: PageId)
    requires RootOk(g, root, {}) && ShapeOk(g)
    ensures root in g.spans && g.spans[root].a == 0.0 && g.spans[root].b == 1.0
    ensures 0.0 in g.fence && 1.0 in g.fence && g.fence[0.0] == BOTTOM && g.fence[1.0] == TOP
  {
  }

  /** A new tree: one empty leaf. */
  ghost function FreshShape(root: PageId): Shape {
    Shape(map[root := Span(0, 0.0, 1.0)], map[0.0 := BOTTOM, 1.0 := TOP])
  }

  lemma FreshTree(root: PageId, kind: Kind)
    requires root != NO_PAGE
    ensures TreeInv(map[root := Leaf([], [], NO_PAGE)], root, FreshShape(root), {}, kind)
    ensures Rows(map[root := Leaf([], [], NO_PAGE)], FreshShape(root)) == {}
  {
    var g := FreshShape(root);
    var pages: Pages := map[root := Leaf([], [], NO_PAGE)];
    assert SpanOk(g, root);
    assert PageOk(pages, root, g, {}, kind);
  }
}
