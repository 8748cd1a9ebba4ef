/**
  What it means for a set of pages to be a B+tree, stated so that it still holds
  after every single page write of an insert.

  Each page of the tree owns a `Span`: its level above the leaves and a half-open
  interval of positions in [0, 1). A page never changes its level or where its span
  starts; a split only cuts the end off. `fence` gives the key bound at each
  position where some span starts or ends. Pages in `pend` are right halves that
  the level above does not point to yet.
 */
module Shapes {
  import opened Keys
  import opened Nodes

  type Pages = map<PageId, Node>

  datatype Span = Span(level: nat, a: real, b: real)

  datatype Shape = Shape(spans: map<PageId, Span>, fence: map<real, real>)

  // ── the invariant, node by node ────────────────────────────────────────────

  ghost predicate FenceOk(g: Shape) {
    && 0.0 in g.fence && g.fence[0.0] == BOTTOM
    && 1.0 in g.fence && g.fence[1.0] == TOP
    && (forall x :: x in g.fence ==> 0.0 <= x <= 1.0)
    && (forall x, y :: x in g.fence && y in g.fence && x <= y ==> g.fence[x] <= g.fence[y])
  }

  ghost predicate SpanOk(g: Shape, p: PageId) {
    && p in g.spans && p != NO_PAGE
    && g.spans[p].a in g.fence && g.spans[p].b in g.fence && g.spans[p].a < g.spans[p].b
  }

  ghost predicate SpansOk(g: Shape) {
    forall p :: p in g.spans ==> SpanOk(g, p)
  }

  /** Pages of one level own disjoint spans. */
  ghost predicate Disjoint(g: Shape) {
    forall p, q :: p in g.spans && q in g.spans && p != q && g.spans[p].level == g.spans[q].level ==>
      g.spans[p].b <= g.spans[q].a || g.spans[q].b <= g.spans[p].a
  }

  /** Every fence lies on a leaf boundary. */
  ghost predicate FencesAtLeaves(g: Shape) {
    forall p, x :: p in g.spans && x in g.fence && g.spans[p].level == 0 ==>
      x <= g.spans[p].a || g.spans[p].b <= x
  }

  ghost predicate EntriesWithin(entries: seq<Entry>, lo: real, hi: real) {
    forall i :: 0 <= i < |entries| ==> lo <= Rank(entries[i].key) <= hi
  }

  ghost predicate LeafOk(n: Node, p: PageId, g: Shape) {
    && n.Leaf? && PayloadsAligned(n) && KeysSorted(n.entries)
    && p in g.spans && g.spans[p].a in g.fence && g.spans[p].b in g.fence
    && EntriesWithin(n.entries, g.fence[g.spans[p].a], g.fence[g.spans[p].b])
    && (n.next == NO_PAGE ==> g.spans[p].b == 1.0)
    && (n.next != NO_PAGE ==>
          n.next in g.spans && g.spans[n.next].level == 0 && g.spans[n.next].a == g.spans[p].b)
  }

  /** Where the span of the `i`-th child must end: at the next child, or with the node itself. */
  ghost function ChildEnd(n: Node, p: PageId, g: Shape, i: nat): real {
    if n.Internal? && i + 1 < |n.children| && n.children[i + 1] in g.spans then g.spans[n.children[i + 1]].a
    else if p in g.spans then g.spans[p].b
    else 1.0
  }

  /** A pending page covers exactly [x, y) on the given level. */
  ghost predicate Covered(g: Shape, pend: set<PageId>, level: nat, x: real, y: real) {
    exists q :: q in pend && q in g.spans && g.spans[q] == Span(level, x, y)
  }

  /** Key `i` is the fence where child `i + 1` starts. */
  ghost predicate Fenced(n: Node, g: Shape, i: nat) {
    && n.Internal? && i < |n.keys| && i + 1 < |n.children| && n.children[i + 1] in g.spans
    && g.spans[n.children[i + 1]].a in g.fence && g.fence[g.spans[n.children[i + 1]].a] == Rank(n.keys[i])
  }

  ghost predicate ChildrenOk(n: Node, p: PageId, g: Shape) {
    && p in g.spans && n.Internal? && |n.children| == |n.keys| + 1
    && (forall i :: 0 <= i < |n.children| ==>
          n.children[i] in g.spans && g.spans[n.children[i]].level + 1 == g.spans[p].level)
    && g.spans[n.children[0]].a == g.spans[p].a
    && (forall i, j :: 0 <= i < j < |n.children| ==> g.spans[n.children[i]].a < g.spans[n.children[j]].a)
    && (forall i :: 0 <= i < |n.children| ==> g.spans[n.children[i]].a < g.spans[p].b)
    && (forall i {:trigger Fenced(n, g, i)} {:trigger n.keys[i]} :: 0 <= i < |n.keys| ==> Fenced(n, g, i))
  }

  /** The `i`-th child is no pending page, and reaches the next one or has a pending page fill the rest. */
  ghost predicate Tiled(n: Node, p: PageId, g: Shape, pend: set<PageId>, i: nat) {
    && n.Internal? && i < |n.children| && n.children[i] in g.spans && n.children[i] !in pend
    && var c := g.spans[n.children[i]];
       var end := ChildEnd(n, p, g, i);
       c.b == end || Covered(g, pend, c.level, c.b, end)
  }

  ghost predicate InnerOk(n: Node, p: PageId, g: Shape, pend: set<PageId>) {
    && ChildrenOk(n, p, g)
    && (forall i :: 0 <= i < |n.children| ==> Tiled(n, p, g, pend, i))
  }

  ghost predicate NodeOk(n: Node, p: PageId, g: Shape, pend: set<PageId>) {
    p in g.spans && if g.spans[p].level == 0 then LeafOk(n, p, g) else InnerOk(n, p, g, pend)
  }

  ghost predicate RootOk(g: Shape, root: PageId, pend: set<PageId>) {
    && root in g.spans && g.spans[root].a == 0.0 && root !in pend
    && (g.spans[root].b == 1.0 || Covered(g, pend, g.spans[root].level, g.spans[root].b, 1.0))
    && (forall p :: p in g.spans ==> g.spans[p].level <= g.spans[root].level)
    && (forall p :: p in g.spans && g.spans[p].level == g.spans[root].level ==> p == root || p in pend)
  }

  ghost predicate NodeKind(n: Node, kind: Kind) {
    match n
    case Leaf(entries, _, _) => forall i :: 0 <= i < |entries| ==> KindOf(entries[i].key) == kind
    case Internal(keys, _) => forall i :: 0 <= i < |keys| ==> KindOf(keys[i]) == kind
  }

  lemma KindInsert(n: Node, at: nat, sep: Key, q: PageId, kind: Kind)
    requires n.Internal? && at <= |n.keys| && |n.children| == |n.keys| + 1 && NodeKind(n, kind) && KindOf(sep) == kind
    ensures NodeKind(InternalInsert(n, at, sep, q), kind)
  {
  }

  lemma KindHalves(n: Node, kind: Kind)
    requires Branching(n) && NodeKind(n, kind)
    ensures NodeKind(InternalLeft(n), kind) && NodeKind(InternalRight(n), kind)
  {
  }

  ghost predicate PageOk(pages: Pages, p: PageId, g: Shape, pend: set<PageId>, kind: Kind) {
    p in g.spans && p in pages && NodeOk(pages[p], p, g, pend) && NodeKind(pages[p], kind)
  }

  ghost predicate ShapeOk(g: Shape) {
    FenceOk(g) && SpansOk(g) && Disjoint(g) && FencesAtLeaves(g)
  }

  /** The pages form a B+tree, some of whose right halves still wait for their parent. */
  ghost predicate TreeInv(pages: Pages, root: PageId, g: Shape, pend: set<PageId>, kind: Kind) {
    && ShapeOk(g)
    && RootOk(g, root, pend)
    && pend <= g.spans.Keys <= pages.Keys
    && (forall p {:trigger PageOk(pages, p, g, pend, kind)} :: p in g.spans ==> PageOk(pages, p, g, pend, kind))
  }

  /** All rows held by the leaves of the tree. */
  ghost function Rows(pages: Pages, g: Shape): set<Row> {
    set p, r | p in g.spans && p in pages && r in RowSet(pages[p]) :: r
  }

  ghost function Pairs(rows: set<Row>): set<Entry> {
    set r | r in rows :: Entry(r.key, r.rid)
  }

  // ── what each page write does ──────────────────────────────────────────────

  lemma PageFrame(pages: Pages, pages': Pages, p: PageId, g: Shape, pend: set<PageId>, kind: Kind)
    requires SpansOk(g) && PageOk(pages, p, g, pend, kind) && p in pages' && pages'[p] == pages[p]
    ensures PageOk(pages', p, g, pend, kind)
  {
  }

  lemma PageIn(pages: Pages, p: PageId, g: Shape, pend: set<PageId>, kind: Kind)
    requires SpansOk(g) && PageOk(pages, p, g, pend, kind)
    ensures p in pages && p in g.spans
  {
  }

  lemma LeafPage(pages: Pages, p: PageId, g: Shape, pend: set<PageId>, kind: Kind)
    requires SpansOk(g) && p in g.spans && p in pages && g.spans[p].level == 0
    requires LeafOk(pages[p], p, g) && NodeKind(pages[p], kind)
    ensures PageOk(pages, p, g, pend, kind)
  {
    hide LeafOk;
    hide NodeKind;
  }

  lemma InnerPage(pages: Pages, p: PageId, g: Shape, pend: set<PageId>, kind: Kind)
    requires SpansOk(g) && p in g.spans && p in pages && g.spans[p].level > 0
    requires ChildrenOk(pages[p], p, g) && NodeKind(pages[p], kind)
    requires forall i :: 0 <= i < |pages[p].children| ==> Tiled(pages[p], p, g, pend, i)
    ensures PageOk(pages, p, g, pend, kind)
  {
    hide ChildrenOk;
    hide Tiled;
    hide NodeKind;
  }

  lemma PageFromInner(pages: Pages, p: PageId, g: Shape, pend: set<PageId>, kind: Kind)
    requires SpansOk(g) && p in g.spans && p in pages && g.spans[p].level > 0
    requires InnerOk(pages[p], p, g, pend) && NodeKind(pages[p], kind)
    ensures PageOk(pages, p, g, pend, kind)
  {
    hide InnerOk;
    hide NodeKind;
  }

  /** A page outside the tree can be written freely. */
  lemma WriteOutside(pages: Pages, root: PageId, g: Shape, pend: set<PageId>, kind: Kind, q: PageId, n: Node)
    requires TreeInv(pages, root, g, pend, kind) && q !in g.spans
    ensures TreeInv(pages[q := n], root, g, pend, kind)
    ensures Rows(pages[q := n], g) == Rows(pages, g)
  {
    hide PageOk;
    var pages' := pages[q := n];
    forall p | p in g.spans
      ensures PageOk(pages', p, g, pend, kind)
    {
      PageFrame(pages, pages', p, g, pend, kind);
    }
  }

  /** Writing a page that keeps its rows and adds more adds exactly those. */
  lemma RowsGrow(pages: Pages, g: Shape, p: PageId, n: Node)
    requires p in g.spans && p in pages && RowSet(pages[p]) <= RowSet(n)
    ensures Rows(pages[p := n], g) == Rows(pages, g) + RowSet(n)
  {
    hide RowSet;
    var pages' := pages[p := n];
    forall r ensures r in Rows(pages', g) <==> r in Rows(pages, g) + RowSet(n) {
      if r in Rows(pages', g) {
        var x :| x in g.spans && x in pages' && r in RowSet(pages'[x]);
        assert x != p ==> r in RowSet(pages[x]);
      }
      if r in Rows(pages, g) {
        var x :| x in g.spans && x in pages && r in RowSet(pages[x]);
        assert r in RowSet(pages'[x]);
      }
      if r in RowSet(n) { assert r in RowSet(pages'[p]); }
    }
  }

  /** Rewriting a leaf inside its fences keeps the tree. */
  lemma RewriteLeaf(pages: Pages, root: PageId, g: Shape, pend: set<PageId>, kind: Kind, p: PageId, n: Node)
    requires TreeInv(pages, root, g, pend, kind) && p in g.spans
    requires g.spans[p].level == 0 && LeafOk(n, p, g) && NodeKind(n, kind)
    ensures TreeInv(pages[p := n], root, g, pend, kind)
  {
    var pages' := pages[p := n];
    LeafPage(pages', p, g, pend, kind);
    hide PageOk;
    hide LeafOk;
    forall x | x in g.spans
      ensures PageOk(pages', x, g, pend, kind)
    {
      if x != p { PageFrame(pages, pages', x, g, pend, kind); }
    }
  }

  // ── cutting a span in two ──────────────────────────────────────────────────

  /** `g'` is `g` with the span of `p` cut at `m`; the right part goes to the new page `q`. */
  ghost predicate Cut(g: Shape, g': Shape, p: PageId, q: PageId, m: real) {
    && p in g.spans && q !in g.spans && q != NO_PAGE
    && g.spans[p].a < m < g.spans[p].b
    && g'.spans == g.spans[p := Span(g.spans[p].level, g.spans[p].a, m)][q := Span(g.spans[p].level, m, g.spans[p].b)]
    && m in g'.fence
    && (forall x :: x in g.fence ==> x in g'.fence && g'.fence[x] == g.fence[x])
  }

  /** The leaves of the tree. */
  ghost function LeafPages(g: Shape): set<PageId> {
    set p | p in g.spans && g.spans[p].level == 0
  }

  lemma CutLeaves(g: Shape, g': Shape, p: PageId, q: PageId, m: real)
    requires Cut(g, g', p, q, m)
    ensures LeafPages(g') == LeafPages(g) + if g.spans[p].level == 0 then {q} else {}
  {
  }

  /** No pending page starts where the span of `p` ends. */
  ghost predicate NoGapAfter(g: Shape, pend: set<PageId>, p: PageId) {
    forall x :: x in pend && x in g.spans && p in g.spans && g.spans[x].level == g.spans[p].level ==>
      g.spans[x].a != g.spans[p].b
  }

  lemma CutSpans(g: Shape, g': Shape, p: PageId, q: PageId, m: real)
    requires SpansOk(g) && Disjoint(g) && Cut(g, g', p, q, m)
    ensures SpansOk(g') && Disjoint(g')
  {
  }

  lemma CutTiled(n: Node, x: PageId, g: Shape, g': Shape, p: PageId, q: PageId, m: real, pend: set<PageId>, i: nat)
    requires SpansOk(g) && SpansOk(g') && Cut(g, g', p, q, m) && x in g.spans && x != p
    requires p !in pend && NoGapAfter(g, pend, p)
    requires ChildrenOk(n, x, g) && ChildrenOk(n, x, g') && i <= |n.keys| && Tiled(n, x, g, pend, i)
    ensures Tiled(n, x, g', pend + {q}, i)
  {
    var c := n.children[i];
    assert ChildEnd(n, x, g', i) == ChildEnd(n, x, g, i);
    if c == p {
      assert g'.spans[q] == Span(g.spans[p].level, m, g.spans[p].b);
    } else if g.spans[c].b != ChildEnd(n, x, g, i) {
      var y :| y in pend && y in g.spans && g.spans[y] == Span(g.spans[c].level, g.spans[c].b, ChildEnd(n, x, g, i));
      assert g'.spans[y] == g.spans[y];
    }
  }

  lemma CutChildren(n: Node, x: PageId, g: Shape, g': Shape, p: PageId, q: PageId, m: real)
    requires SpansOk(g) && SpansOk(g') && Cut(g, g', p, q, m) && x in g.spans && x != p
    requires ChildrenOk(n, x, g)
    ensures ChildrenOk(n, x, g')
  {
    forall i | 0 <= i < |n.children|
      ensures n.children[i] in g'.spans
      ensures g'.spans[n.children[i]].level == g.spans[n.children[i]].level
      ensures g'.spans[n.children[i]].a == g.spans[n.children[i]].a
    {
    }
  }

  /** A cut leaves every other page sound. */
  lemma CutFrame(pages: Pages, pages': Pages, x: PageId, g: Shape, g': Shape, p: PageId, q: PageId, m: real,
                 pend: set<PageId>, kind: Kind)
    requires SpansOk(g) && SpansOk(g') && Cut(g, g', p, q, m) && x != p
    requires p !in pend && NoGapAfter(g, pend, p)
    requires PageOk(pages, x, g, pend, kind) && x in pages' && pages'[x] == pages[x]
    ensures PageOk(pages', x, g', pend + {q}, kind)
  {
    hide NodeKind;
    var n := pages[x];
    if g.spans[x].level == 0 {
      assert LeafOk(n, x, g);
      assert SpanOk(g, x);
      assert LeafOk(n, x, g');
    } else {
      hide LeafOk;
      CutChildren(n, x, g, g', p, q, m);
      hide ChildrenOk;
      forall i | 0 <= i < |n.children| ensures Tiled(n, x, g', pend + {q}, i) {
        CutTiled(n, x, g, g', p, q, m, pend, i);
      }
    }
  }

  lemma CutRoot(g: Shape, g': Shape, root: PageId, p: PageId, q: PageId, m: real, pend: set<PageId>)
    requires SpansOk(g) && Cut(g, g', p, q, m) && RootOk(g, root, pend)
    requires p !in pend && NoGapAfter(g, pend, p)
    ensures RootOk(g', root, pend + {q})
  {
    if root == p {
      assert g'.spans[q] == Span(g.spans[p].level, m, 1.0);
    } else if g.spans[root].b != 1.0 {
      var y :| y in pend && y in g.spans && g.spans[y] == Span(g.spans[root].level, g.spans[root].b, 1.0);
      assert g'.spans[y] == g.spans[y];
    }
  }

  /** Once both halves of a cut page are sound, so is the tree. */
  lemma CutTree(pages: Pages, pages': Pages, root: PageId, g: Shape, g': Shape, pend: set<PageId>, kind: Kind,
                p: PageId, q: PageId, m: real)
    requires TreeInv(pages, root, g, pend, kind) && Cut(g, g', p, q, m) && ShapeOk(g')
    requires p !in pend && NoGapAfter(g, pend, p)
    requires forall x :: x in pages && x != p ==> x in pages' && pages'[x] == pages[x]
    requires PageOk(pages', p, g', pend + {q}, kind) && PageOk(pages', q, g', pend + {q}, kind)
    ensures TreeInv(pages', root, g', pend + {q}, kind)
  {
    hide PageOk;
    hide FenceOk;
    hide FencesAtLeaves;
    hide Disjoint;
    hide SpansOk;
    hide RootOk;
    hide NoGapAfter;
    CutRoot(g, g', root, p, q, m, pend);
    PageIn(pages', p, g', pend + {q}, kind);
    PageIn(pages', q, g', pend + {q}, kind);
    forall x | x in g'.spans ensures PageOk(pages', x, g', pend + {q}, kind) {
      if x != p && x != q {
        CutFrame(pages, pages', x, g, g', p, q, m, pend, kind);
      }
    }
  }

  // ── splitting a leaf ───────────────────────────────────────────────────────

  ghost function Middle(g: Shape, p: PageId): real
    requires p in g.spans
  {
    (g.spans[p].a + g.spans[p].b) / 2.0
  }

  ghost function LeafSplitShape(g: Shape, p: PageId, q: PageId, sep: Key): Shape
    requires p in g.spans
  {
    var s := g.spans[p];
    var m := Middle(g, p);
    Shape(g.spans[p := Span(s.level, s.a, m)][q := Span(s.level, m, s.b)], g.fence[m := Rank(sep)])
  }

  lemma LeafCutFence(g: Shape, p: PageId, q: PageId, sep: Key)
    requires ShapeOk(g) && p in g.spans && g.spans[p].level == 0
    requires g.fence[g.spans[p].a] <= Rank(sep) <= g.fence[g.spans[p].b]
    ensures g.spans[p].a < Middle(g, p) < g.spans[p].b && Middle(g, p) !in g.fence
    ensures FenceOk(LeafSplitShape(g, p, q, sep))
  {
    hide Disjoint;
    var m := Middle(g, p);
    assert SpanOk(g, p);
    forall x | x in g.fence
      ensures x < m ==> g.fence[x] <= Rank(sep)
      ensures m < x ==> Rank(sep) <= g.fence[x]
    {
    }
  }

  lemma LeafCut(g: Shape, p: PageId, q: PageId, sep: Key)
    requires ShapeOk(g) && p in g.spans && g.spans[p].level == 0 && q !in g.spans && q != NO_PAGE
    requires g.fence[g.spans[p].a] <= Rank(sep) <= g.fence[g.spans[p].b]
    ensures Cut(g, LeafSplitShape(g, p, q, sep), p, q, Middle(g, p))
    ensures ShapeOk(LeafSplitShape(g, p, q, sep))
  {
    var g' := LeafSplitShape(g, p, q, sep);
    var m := Middle(g, p);
    LeafCutFence(g, p, q, sep);
    hide FenceOk;
    CutSpans(g, g', p, q, m);
    hide SpansOk;
    hide Disjoint;
  }

  lemma SplitHalves(n: Node, p: PageId, q: PageId, g: Shape, g': Shape, kind: Kind)
    requires ShapeOk(g) && SpansOk(g') && p in g.spans && g.spans[p].level == 0 && LeafOk(n, p, g) && NodeKind(n, kind)
    requires n.entries != [] && q !in g.spans && q != NO_PAGE && g' == LeafSplitShape(g, p, q, LeafSep(n))
    requires Cut(g, g', p, q, Middle(g, p))
    ensures LeafOk(LeafLeft(n, q), p, g') && NodeKind(LeafLeft(n, q), kind)
    ensures LeafOk(LeafRight(n), q, g') && NodeKind(LeafRight(n), kind)
  {
    var left, right := LeafLeft(n, q), LeafRight(n);
    var mid := |n.entries| / 2;
    assert g'.fence[Middle(g, p)] == Rank(n.entries[mid].key);
    assert g'.fence[g.spans[p].a] == g.fence[g.spans[p].a];
    assert g'.fence[g.spans[p].b] == g.fence[g.spans[p].b];
    forall i | 0 <= i < |left.entries| ensures Rank(left.entries[i].key) <= Rank(n.entries[mid].key) {
    }
    forall i | 0 <= i < |right.entries| ensures Rank(n.entries[mid].key) <= Rank(right.entries[i].key) {
      assert right.entries[i] == n.entries[mid + i];
    }
    assert SpanOk(g', p) && SpanOk(g', q);
  }

  /** Writing the left half over a split leaf links in the right half written before it. */
  lemma SplitLeaf(pages: Pages, root: PageId, g: Shape, pend: set<PageId>, kind: Kind, p: PageId, q: PageId, n: Node)
    requires TreeInv(pages, root, g, pend, kind) && p in g.spans && g.spans[p].level == 0
    requires LeafOk(n, p, g) && NodeKind(n, kind) && n.entries != []
    requires p !in pend && NoGapAfter(g, pend, p)
    requires q !in g.spans && q != NO_PAGE && q in pages && pages[q] == LeafRight(n)
    ensures TreeInv(pages[p := LeafLeft(n, q)], root, LeafSplitShape(g, p, q, LeafSep(n)), pend + {q}, kind)
    ensures Cut(g, LeafSplitShape(g, p, q, LeafSep(n)), p, q, Middle(g, p))
  {
    var pages' := pages[p := LeafLeft(n, q)];
    var g' := LeafSplitShape(g, p, q, LeafSep(n));
    LeafCut(g, p, q, LeafSep(n));
    SplitHalves(n, p, q, g, g', kind);
    hide LeafOk;
    hide NodeKind;
    hide PageOk;
    hide RootOk;
    hide FenceOk;
    hide FencesAtLeaves;
    hide Disjoint;
    hide SpansOk;
    hide NoGapAfter;
    LeafPage(pages', p, g', pend + {q}, kind);
    LeafPage(pages', q, g', pend + {q}, kind);
    CutTree(pages, pages', root, g, g', pend, kind, p, q, Middle(g, p));
  }

  /** The two halves of a split hold exactly the rows of the unsplit leaf. */
  lemma RowsSplit(pages: Pages, g: Shape, g': Shape, p: PageId, q: PageId, n: Node)
    requires n.Leaf? && PayloadsAligned(n) && p in g.spans && p in pages && RowSet(pages[p]) <= RowSet(n)
    requires q in pages && q !in g.spans && pages[q] == LeafRight(n) && g'.spans.Keys == g.spans.Keys + {q}
    ensures Rows(pages[p := LeafLeft(n, q)], g') == Rows(pages, g) + RowSet(n)
  {
    LeafSplitRows(n, q);
    hide RowSet;
    var pages' := pages[p := LeafLeft(n, q)];
    forall r ensures r in Rows(pages', g') <==> r in Rows(pages, g) + RowSet(n) {
      if r in Rows(pages', g') {
        var x :| x in g'.spans && x in pages' && r in RowSet(pages'[x]);
        assert x != p && x != q ==> r in RowSet(pages[x]);
      }
      if r in Rows(pages, g) && r !in RowSet(n) {
        var x :| x in g.spans && x in pages && r in RowSet(pages[x]);
        assert x != p && r in RowSet(pages'[x]) && x in g'.spans;
      }
      if r in RowSet(n) { assert r in RowSet(pages'[p]) || r in RowSet(pages'[q]); }
    }
  }

  // ── absorbing a separator ──────────────────────────────────────────────────

  /** On one level, a span is determined by where it ends. */
  lemma EndUnique(g: Shape, x: PageId, y: PageId)
    requires SpansOk(g) && Disjoint(g) && x in g.spans && y in g.spans
    requires g.spans[x].level == g.spans[y].level && g.spans[x].b == g.spans[y].b
    ensures x == y
  {
    assert SpanOk(g, x) && SpanOk(g, y);
  }

  /** A page has at most one parent, at one child index. */
  lemma ParentUnique(g: Shape, p1: PageId, n1: Node, i1: nat, p2: PageId, n2: Node, i2: nat)
    requires SpansOk(g) && Disjoint(g) && p1 in g.spans && p2 in g.spans
    requires ChildrenOk(n1, p1, g) && ChildrenOk(n2, p2, g)
    requires i1 <= |n1.keys| && i2 <= |n2.keys| && n1.children[i1] == n2.children[i2]
    ensures p1 == p2 && (n1 == n2 ==> i1 == i2)
  {
    var c := n1.children[i1];
    assert g.spans[p1].a <= g.spans[c].a < g.spans[p1].b;
    assert g.spans[p2].a <= g.spans[c].a < g.spans[p2].b;
  }

  /** The pending page `q` fills the gap after the `at`-th child of `p`. */
  ghost predicate Fills(g: Shape, p: PageId, n: Node, at: nat, q: PageId) {
    && n.Internal? && at < |n.children| && n.children[at] in g.spans && q in g.spans
    && g.spans[q] == Span(g.spans[n.children[at]].level, g.spans[n.children[at]].b, ChildEnd(n, p, g, at))
  }

  /** Two parents cannot both wait for the same pending page. */
  lemma FillsUnique(g: Shape, p1: PageId, n1: Node, i1: nat, p2: PageId, n2: Node, i2: nat, q: PageId)
    requires SpansOk(g) && Disjoint(g) && p1 in g.spans && p2 in g.spans
    requires ChildrenOk(n1, p1, g) && ChildrenOk(n2, p2, g)
    requires Fills(g, p1, n1, i1, q) && Fills(g, p2, n2, i2, q)
    ensures p1 == p2 && (n1 == n2 ==> i1 == i2)
  {
    EndUnique(g, n1.children[i1], n2.children[i2]);
    ParentUnique(g, p1, n1, i1, p2, n2, i2);
  }

  lemma TiledWithout(n: Node, x: PageId, g: Shape, pend: set<PageId>, q: PageId, i: nat)
    requires SpansOk(g) && x in g.spans && ChildrenOk(n, x, g) && i <= |n.keys| && Tiled(n, x, g, pend, i)
    requires !Fills(g, x, n, i, q)
    ensures Tiled(n, x, g, pend - {q}, i)
  {
    var c := g.spans[n.children[i]];
    var end := ChildEnd(n, x, g, i);
    if c.b != end {
      var y :| y in pend && y in g.spans && g.spans[y] == Span(c.level, c.b, end);
      assert y in pend - {q};
    }
  }

  lemma AbsorbFrame(pages: Pages, pages': Pages, x: PageId, g: Shape, pend: set<PageId>, kind: Kind,
                    p: PageId, n: Node, at: nat, q: PageId)
    requires SpansOk(g) && Disjoint(g) && p in g.spans && x != p
    requires ChildrenOk(n, p, g) && Fills(g, p, n, at, q)
    requires PageOk(pages, x, g, pend, kind) && x in pages' && pages'[x] == pages[x]
    ensures PageOk(pages', x, g, pend - {q}, kind)
  {
    hide LeafOk;
    hide NodeKind;
    var nx := pages[x];
    if g.spans[x].level != 0 {
      assert ChildrenOk(nx, x, g);
      hide ChildrenOk;
      forall i | 0 <= i < |nx.children| ensures Tiled(nx, x, g, pend - {q}, i) {
        assert Tiled(nx, x, g, pend, i);
        if Fills(g, x, nx, i, q) { FillsUnique(g, x, nx, i, p, n, at, q); }
        TiledWithout(nx, x, g, pend, q, i);
      }
    }
  }

  lemma InsertedChildren(n: Node, at: nat, sep: Key, q: PageId)
    requires n.Internal? && at <= |n.keys| && |n.children| == |n.keys| + 1
    ensures var n' := InternalInsert(n, at, sep, q);
            && n'.Internal? && |n'.keys| == |n.keys| + 1 && |n'.children| == |n.children| + 1
            && (forall i :: 0 <= i < |n'.children| ==>
                  n'.children[i] == if i <= at then n.children[i] else if i == at + 1 then q else n.children[i - 1])
            && (forall i :: 0 <= i < |n'.keys| ==>
                  n'.keys[i] == if i < at then n.keys[i] else if i == at then sep else n.keys[i - 1])
  {
  }

  lemma AbsorbOrder(g: Shape, p: PageId, n: Node, at: nat, sep: Key, q: PageId, i: nat, j: nat)
    requires SpansOk(g) && p in g.spans && ChildrenOk(n, p, g) && Fills(g, p, n, at, q) && i < j < |n.children| + 1
    ensures var cs := InternalInsert(n, at, sep, q).children;
            && cs[i] in g.spans && cs[j] in g.spans
            && g.spans[cs[i]].a < g.spans[cs[j]].a < g.spans[p].b
  {
    InsertedChildren(n, at, sep, q);
    assert SpanOk(g, q) && SpanOk(g, n.children[at]);
    assert i < at ==> g.spans[n.children[i]].a < g.spans[n.children[at]].a;
    assert j > at + 2 ==> g.spans[n.children[at + 1]].a < g.spans[n.children[j - 1]].a;
  }

  lemma AbsorbKeys(g: Shape, p: PageId, n: Node, at: nat, sep: Key, q: PageId, i: nat)
    requires ChildrenOk(n, p, g) && Fills(g, p, n, at, q) && i <= |n.keys|
    requires g.spans[q].a in g.fence && g.fence[g.spans[q].a] == Rank(sep)
    ensures var n' := InternalInsert(n, at, sep, q);
            && i < |n'.keys| && i + 1 < |n'.children| && n'.children[i + 1] in g.spans
            && g.spans[n'.children[i + 1]].a in g.fence
            && g.fence[g.spans[n'.children[i + 1]].a] == Rank(n'.keys[i])
  {
    InsertedChildren(n, at, sep, q);
    hide InternalInsert;
    assert i < at ==> Rank(n.keys[i]) == g.fence[g.spans[n.children[i + 1]].a];
    assert i > at ==> Rank(n.keys[i - 1]) == g.fence[g.spans[n.children[i]].a];
  }

  lemma AbsorbMember(g: Shape, p: PageId, n: Node, at: nat, sep: Key, q: PageId, i: nat)
    requires ChildrenOk(n, p, g) && Fills(g, p, n, at, q) && i <= |n.children|
    ensures var n' := InternalInsert(n, at, sep, q);
            i < |n'.children| && n'.children[i] in g.spans && g.spans[n'.children[i]].level + 1 == g.spans[p].level
  {
    InsertedChildren(n, at, sep, q);
    hide InternalInsert;
    var cs := InternalInsert(n, at, sep, q).children;
    assert cs[i] == if i <= at then n.children[i] else if i == at + 1 then q else n.children[i - 1];
  }

  lemma AbsorbChildren(g: Shape, p: PageId, n: Node, at: nat, sep: Key, q: PageId)
    requires SpansOk(g) && p in g.spans
    requires ChildrenOk(n, p, g) && Fills(g, p, n, at, q)
    requires g.spans[q].a in g.fence && g.fence[g.spans[q].a] == Rank(sep)
    ensures ChildrenOk(InternalInsert(n, at, sep, q), p, g)
  {
    hide SpansOk;
    var n' := InternalInsert(n, at, sep, q);
    ChildrenCount(n, p, g);
    FillsParts(g, p, n, at, q);
    InsertedChildren(n, at, sep, q);
    FirstChild(n, p, g);
    assert n'.children[0] == n.children[0];
    hide InternalInsert;
    hide Fills;
    hide ChildrenOk;
    forall i | 0 <= i < |n'.children|
      ensures n'.children[i] in g.spans && g.spans[n'.children[i]].level + 1 == g.spans[p].level
    {
      AbsorbMember(g, p, n, at, sep, q, i);
    }
    forall i, j | 0 <= i < j < |n'.children|
      ensures g.spans[n'.children[i]].a < g.spans[n'.children[j]].a
    {
      AbsorbOrder(g, p, n, at, sep, q, i, j);
    }
    forall i | 0 <= i < |n'.children|
      ensures g.spans[n'.children[i]].a < g.spans[p].b
    {
      AbsorbOrder(g, p, n, at, sep, q, if i == 0 then 0 else i - 1, if i == 0 then 1 else i);
    }
    forall i | 0 <= i < |n'.keys| ensures Fenced(n', g, i) {
      AbsorbKeys(g, p, n, at, sep, q, i);
    }
    ChildrenIntro(n', p, g);
  }

  lemma FirstChild(n: Node, p: PageId, g: Shape)
    requires ChildrenOk(n, p, g)
    ensures p in g.spans && n.children[0] in g.spans && g.spans[n.children[0]].a == g.spans[p].a
  {
  }

  lemma ChildrenIntro(n: Node, p: PageId, g: Shape)
    requires p in g.spans && n.Internal? && |n.children| == |n.keys| + 1
    requires forall i :: 0 <= i < |n.children| ==>
               n.children[i] in g.spans && g.spans[n.children[i]].level + 1 == g.spans[p].level
    requires g.spans[n.children[0]].a == g.spans[p].a
    requires forall i, j :: 0 <= i < j < |n.children| ==> g.spans[n.children[i]].a < g.spans[n.children[j]].a
    requires forall i :: 0 <= i < |n.children| ==> g.spans[n.children[i]].a < g.spans[p].b
    requires forall i :: 0 <= i < |n.keys| ==> Fenced(n, g, i)
    ensures ChildrenOk(n, p, g)
  {
  }

  lemma ChildrenCount(n: Node, p: PageId, g: Shape)
    requires ChildrenOk(n, p, g)
    ensures n.Internal? && |n.children| == |n.keys| + 1
  {
  }

  lemma FillsParts(g: Shape, p: PageId, n: Node, at: nat, q: PageId)
    requires Fills(g, p, n, at, q)
    ensures n.Internal? && at < |n.children| && q in g.spans
  {
  }

  /** Children away from the insertion point end where they ended before. */
  lemma AbsorbEnds(g: Shape, p: PageId, n: Node, at: nat, sep: Key, q: PageId, i: nat, k: nat)
    requires ChildrenOk(n, p, g) && at < |n.children| && i <= |n.children| && i != at && i != at + 1
    requires k == if i < at then i else i - 1
    ensures var n' := InternalInsert(n, at, sep, q);
            && n'.Internal? && i < |n'.children| && n'.children[i] == n.children[k]
            && ChildEnd(n', p, g, i) == ChildEnd(n, p, g, k)
  {
    InsertedChildren(n, at, sep, q);
    hide InternalInsert;
  }

  lemma AbsorbTiledAway(g: Shape, pend: set<PageId>, p: PageId, n: Node, at: nat, sep: Key, q: PageId, i: nat)
    requires SpansOk(g) && Disjoint(g) && p in g.spans
    requires ChildrenOk(n, p, g) && Fills(g, p, n, at, q) && i <= |n.children| && i != at && i != at + 1
    requires Tiled(n, p, g, pend, if i < at then i else i - 1)
    ensures Tiled(InternalInsert(n, at, sep, q), p, g, pend - {q}, i)
  {
    hide SpansOk;
    hide Disjoint;
    hide InternalInsert;
    hide ChildEnd;
    var k := if i < at then i else i - 1;
    ChildrenCount(n, p, g);
    AbsorbEnds(g, p, n, at, sep, q, i, k);
    hide ChildrenOk;
    if Fills(g, p, n, k, q) { FillsUnique(g, p, n, k, p, n, at, q); }
    TiledWithout(n, p, g, pend, q, k);
  }

  lemma AbsorbTiled(g: Shape, pend: set<PageId>, p: PageId, n: Node, at: nat, sep: Key, q: PageId, i: nat)
    requires SpansOk(g) && Disjoint(g) && p in g.spans
    requires InnerOk(n, p, g, pend) && ChildrenOk(n, p, g) && Fills(g, p, n, at, q) && i <= |n.children|
    ensures Tiled(InternalInsert(n, at, sep, q), p, g, pend - {q}, i)
  {
    hide SpansOk;
    hide Disjoint;
    ChildrenCount(n, p, g);
    InsertedChildren(n, at, sep, q);
    hide InternalInsert;
    hide ChildrenOk;
    assert Tiled(n, p, g, pend, at);
    if i != at && i != at + 1 {
      hide Tiled;
      assert Tiled(n, p, g, pend, if i < at then i else i - 1);
      AbsorbTiledAway(g, pend, p, n, at, sep, q, i);
    }
  }

  lemma AbsorbPage(pages: Pages, pages': Pages, g: Shape, pend: set<PageId>, kind: Kind,
                   p: PageId, n: Node, at: nat, sep: Key, q: PageId)
    requires SpansOk(g) && Disjoint(g) && p in g.spans && g.spans[p].level > 0
    requires p in pages && pages[p] == n && PageOk(pages, p, g, pend, kind)
    requires ChildrenOk(n, p, g) && Fills(g, p, n, at, q) && g.fence[g.spans[q].a] == Rank(sep) && KindOf(sep) == kind
    requires p in pages' && pages'[p] == InternalInsert(n, at, sep, q)
    ensures PageOk(pages', p, g, pend - {q}, kind)
  {
    var n' := InternalInsert(n, at, sep, q);
    InsertedChildren(n, at, sep, q);
    AbsorbChildren(g, p, n, at, sep, q);
    KindInsert(n, at, sep, q, kind);
    hide ChildrenOk;
    hide NodeKind;
    forall i | 0 <= i < |n'.children| ensures Tiled(n', p, g, pend - {q}, i) {
      AbsorbTiled(g, pend, p, n, at, sep, q, i);
    }
    InnerPage(pages', p, g, pend - {q}, kind);
  }

  lemma RootWithout(g: Shape, root: PageId, pend: set<PageId>, q: PageId)
    requires RootOk(g, root, pend) && q in g.spans && g.spans[q].level < g.spans[root].level
    ensures RootOk(g, root, pend - {q})
  {
    if g.spans[root].b != 1.0 {
      var y :| y in pend && y in g.spans && g.spans[y] == Span(g.spans[root].level, g.spans[root].b, 1.0);
      assert y in pend - {q};
    }
  }

  /** Writing a separator into the parent ends the wait of its pending page. */
  lemma Absorb(pages: Pages, root: PageId, g: Shape, pend: set<PageId>, kind: Kind,
               p: PageId, at: nat, sep: Key, q: PageId)
    requires TreeInv(pages, root, g, pend, kind) && p in g.spans && g.spans[p].level > 0
    requires ChildrenOk(pages[p], p, g) && Fills(g, p, pages[p], at, q)
    requires g.fence[g.spans[q].a] == Rank(sep) && KindOf(sep) == kind
    ensures TreeInv(pages[p := InternalInsert(pages[p], at, sep, q)], root, g, pend - {q}, kind)
  {
    var n := pages[p];
    var pages' := pages[p := InternalInsert(n, at, sep, q)];
    assert g.spans[q].level < g.spans[root].level;
    RootWithout(g, root, pend, q);
    hide RootOk;
    hide PageOk;
    hide ChildrenOk;
    AbsorbPage(pages, pages', g, pend, kind, p, n, at, sep, q);
    hide InternalInsert;
    forall x | x in g.spans ensures PageOk(pages', x, g, pend - {q}, kind) {
      if x != p {
        AbsorbFrame(pages, pages', x, g, pend, kind, p, n, at, q);
      }
    }
  }

  // ── splitting an internal node ─────────────────────────────────────────────

  /** Where an internal split cuts the span: the start of the child right of the rising key. */
  ghost function InnerMiddle(g: Shape, n: Node): real {
    if Branching(n) && n.children[|n.keys| / 2 + 1] in g.spans then g.spans[n.children[|n.keys| / 2 + 1]].a else 0.0
  }

  ghost function InnerSplitShape(g: Shape, p: PageId, q: PageId, m: real): Shape
    requires p in g.spans
  {
    var s := g.spans[p];
    Shape(g.spans[p := Span(s.level, s.a, m)][q := Span(s.level, m, s.b)], g.fence)
  }

  lemma InnerCut(g: Shape, p: PageId, q: PageId, n: Node)
    requires ShapeOk(g) && p in g.spans && g.spans[p].level > 0 && ChildrenOk(n, p, g) && n.keys != []
    requires q !in g.spans && q != NO_PAGE
    ensures var g' := InnerSplitShape(g, p, q, InnerMiddle(g, n));
            Cut(g, g', p, q, InnerMiddle(g, n)) && ShapeOk(g')
  {
    var m := InnerMiddle(g, n);
    var g' := InnerSplitShape(g, p, q, m);
    var c := n.children[|n.keys| / 2 + 1];
    assert SpanOk(g, c);
    assert g.spans[n.children[0]].a < g.spans[c].a;
    assert Cut(g, g', p, q, m);
    hide ChildrenOk;
    CutSpans(g, g', p, q, m);
    hide SpansOk;
    hide Disjoint;
    hide Cut;
  }

  /** Every child of `n` ends where the next one starts. */
  ghost predicate NoGaps(n: Node, p: PageId, g: Shape) {
    n.Internal? &&
    forall i :: 0 <= i < |n.children| && n.children[i] in g.spans ==> g.spans[n.children[i]].b == ChildEnd(n, p, g, i)
  }

  /** `h` is the part of `n` whose children start at index `from`; it goes to page `x`. */
  ghost predicate IsHalf(n: Node, h: Node, from: nat, p: PageId, x: PageId, g: Shape, g': Shape) {
    && n.Internal? && |n.children| == |n.keys| + 1 && p in g.spans
    && (forall i :: 0 <= i < |n.children| ==> n.children[i] in g.spans)
    && x in g'.spans && h.Internal? && |h.children| == |h.keys| + 1 && from + |h.children| <= |n.children|
    && h.keys == n.keys[from..from + |h.keys|] && h.children == n.children[from..from + |h.children|]
    && (forall i :: 0 <= i < |n.children| ==>
          n.children[i] in g'.spans && g'.spans[n.children[i]] == g.spans[n.children[i]])
    && g'.fence == g.fence && g'.spans[x].level == g.spans[p].level
    && g'.spans[x].a == g.spans[n.children[from]].a
    && g'.spans[x].b == ChildEnd(n, p, g, from + |h.keys|)
  }

  lemma HalfChildren(n: Node, h: Node, from: nat, p: PageId, x: PageId, g: Shape, g': Shape)
    requires SpansOk(g) && SpansOk(g') && p in g.spans && ChildrenOk(n, p, g) && IsHalf(n, h, from, p, x, g, g')
    ensures ChildrenOk(h, x, g')
  {
    var last := from + |h.keys|;
    assert SpanOk(g, n.children[last]);
    forall i | 0 <= i < |h.children|
      ensures h.children[i] == n.children[from + i]
      ensures g'.spans[h.children[i]].a < g'.spans[x].b
    {
      assert from + i < last ==> g.spans[n.children[from + i]].a < g.spans[n.children[last]].a;
      assert last < |n.keys| ==> g.spans[n.children[last]].a < g.spans[n.children[last + 1]].a;
    }
    forall i | 0 <= i < |h.keys|
      ensures g'.fence[g'.spans[h.children[i + 1]].a] == Rank(h.keys[i])
    {
      assert g.fence[g.spans[n.children[from + i + 1]].a] == Rank(n.keys[from + i]);
    }
  }

  lemma HalfTiledAt(n: Node, h: Node, from: nat, p: PageId, x: PageId, g: Shape, g': Shape, pend: set<PageId>, i: nat)
    requires NoGaps(n, p, g) && IsHalf(n, h, from, p, x, g, g') && i < |h.children|
    requires forall j :: 0 <= j < |n.children| ==> n.children[j] !in pend
    ensures Tiled(h, x, g', pend, i)
  {
    assert h.children[i] == n.children[from + i];
    var end := ChildEnd(n, p, g, from + i);
    assert g.spans[n.children[from + i]].b == end;
    if i + 1 < |h.children| {
      assert h.children[i + 1] == n.children[from + i + 1];
      assert ChildEnd(h, x, g', i) == end;
    } else {
      assert ChildEnd(h, x, g', i) == g'.spans[x].b;
    }
  }

  lemma HalfTiled(n: Node, h: Node, from: nat, p: PageId, x: PageId, g: Shape, g': Shape, pend: set<PageId>)
    requires SpansOk(g) && SpansOk(g') && p in g.spans && ChildrenOk(n, p, g) && NoGaps(n, p, g)
    requires IsHalf(n, h, from, p, x, g, g') && (forall j :: 0 <= j < |n.children| ==> n.children[j] !in pend)
    ensures InnerOk(h, x, g', pend)
  {
    hide SpansOk;
    hide NoGaps;
    HalfChildren(n, h, from, p, x, g, g');
    assert |h.children| == |h.keys| + 1;
    hide ChildrenOk;
    hide IsHalf;
    hide Tiled;
    forall i | 0 <= i < |h.children| ensures Tiled(h, x, g', pend, i) {
      HalfTiledAt(n, h, from, p, x, g, g', pend, i);
    }
  }

  lemma IsSplitHalf(g: Shape, g': Shape, p: PageId, q: PageId, n: Node)
    requires SpansOk(g) && p in g.spans && ChildrenOk(n, p, g) && n.keys != []
    requires q !in g.spans && g' == InnerSplitShape(g, p, q, InnerMiddle(g, n))
    ensures IsHalf(n, InternalLeft(n), 0, p, p, g, g')
    ensures IsHalf(n, InternalRight(n), |n.keys| / 2 + 1, p, q, g, g')
  {
    hide SpansOk;
    forall i | 0 <= i < |n.children|
      ensures n.children[i] in g'.spans && g'.spans[n.children[i]] == g.spans[n.children[i]]
    {
    }
  }

  lemma SplitInnerHalves(g: Shape, g': Shape, p: PageId, q: PageId, n: Node, pend: set<PageId>)
    requires SpansOk(g) && SpansOk(g') && p in g.spans && ChildrenOk(n, p, g) && NoGaps(n, p, g) && n.keys != []
    requires q !in g.spans && g' == InnerSplitShape(g, p, q, InnerMiddle(g, n))
    requires forall j :: 0 <= j < |n.children| ==> n.children[j] !in pend
    ensures InnerOk(InternalLeft(n), p, g', pend) && InnerOk(InternalRight(n), q, g', pend)
  {
    hide *;
    ChildrenCount(n, p, g);
    IsSplitHalf(g, g', p, q, n);
    HalfTiled(n, InternalLeft(n), 0, p, p, g, g', pend);
    HalfTiled(n, InternalRight(n), |n.keys| / 2 + 1, p, q, g, g', pend);
  }

  lemma NotPending(n: Node, p: PageId, g: Shape, pend: set<PageId>, q: PageId)
    requires InnerOk(n, p, g, pend) && q !in g.spans
    ensures n.Internal? && (forall j :: 0 <= j < |n.children| ==> n.children[j] !in pend + {q})
  {
    forall j | 0 <= j < |n.children| ensures n.children[j] !in pend + {q} {
      assert Tiled(n, p, g, pend, j);
    }
  }

  lemma ShapeParts(pages: Pages, root: PageId, g: Shape, pend: set<PageId>, kind: Kind)
    requires TreeInv(pages, root, g, pend, kind)
    ensures ShapeOk(g) && SpansOk(g) && Disjoint(g) && RootOk(g, root, pend) && pend <= g.spans.Keys <= pages.Keys
  {
    hide PageOk;
  }

  lemma ShapeOkParts(g: Shape)
    requires ShapeOk(g)
    ensures SpansOk(g) && Disjoint(g) && FenceOk(g) && FencesAtLeaves(g)
  {
  }

  lemma SplitInnerPages(pages': Pages, g: Shape, g': Shape, pend: set<PageId>, kind: Kind, p: PageId, q: PageId,
                        n: Node)
    requires SpansOk(g) && SpansOk(g') && p in g.spans && g.spans[p].level > 0 && ChildrenOk(n, p, g)
    requires NoGaps(n, p, g) && NodeKind(n, kind) && n.keys != []
    requires q !in g.spans && g' == InnerSplitShape(g, p, q, InnerMiddle(g, n))
    requires forall j :: 0 <= j < |n.children| ==> n.children[j] !in pend
    requires p in pages' && q in pages' && pages'[p] == InternalLeft(n) && pages'[q] == InternalRight(n)
    ensures PageOk(pages', p, g', pend, kind) && PageOk(pages', q, g', pend, kind)
  {
    hide SpansOk;
    hide NoGaps;
    KindHalves(n, kind);
    SplitInnerHalves(g, g', p, q, n, pend);
    hide NodeKind;
    hide InnerOk;
    hide ChildrenOk;
    PageFromInner(pages', p, g', pend, kind);
    PageFromInner(pages', q, g', pend, kind);
    hide PageOk;
  }

  /** Writing the left half over a split internal node links in the right half written before it. */
  lemma SplitInner(pages: Pages, pages': Pages, root: PageId, g: Shape, g': Shape, pend: set<PageId>, kind: Kind,
                   p: PageId, q: PageId, n: Node)
    requires TreeInv(pages, root, g, pend, kind) && p in g.spans && g.spans[p].level > 0
    requires ChildrenOk(n, p, g) && NoGaps(n, p, g) && NodeKind(n, kind) && n.keys != []
    requires InnerOk(n, p, g, pend) && p !in pend && NoGapAfter(g, pend, p)
    requires q !in g.spans && q != NO_PAGE && q in pages && pages[q] == InternalRight(n)
    requires pages' == pages[p := InternalLeft(n)] && g' == InnerSplitShape(g, p, q, InnerMiddle(g, n))
    ensures TreeInv(pages', root, g', pend + {q}, kind)
    ensures Cut(g, g', p, q, InnerMiddle(g, n))
  {
    hide *;
    var m := InnerMiddle(g, n);
    ShapeParts(pages, root, g, pend, kind);
    NotPending(n, p, g, pend, q);
    InnerCut(g, p, q, n);
    ShapeOkParts(g');
    SplitInnerPages(pages', g, g', pend + {q}, kind, p, q, n);
    CutTree(pages, pages', root, g, g', pend, kind, p, q, m);
  }

  // ── a new root ─────────────────────────────────────────────────────────────

  ghost function GrownShape(g: Shape, root: PageId, top: PageId): Shape
    requires root in g.spans
  {
    Shape(g.spans[top := Span(g.spans[root].level + 1, 0.0, 1.0)], g.fence)
  }

  lemma GrowFrame(pages: Pages, x: PageId, root: PageId, g: Shape, g': Shape, pend: set<PageId>, kind: Kind, q: PageId,
                  top: PageId)
    requires SpansOk(g) && SpansOk(g') && PageOk(pages, x, g, pend, kind) && RootOk(g, root, pend)
    requires q in g.spans && g.spans[q].level == g.spans[root].level
    requires top !in g.spans && top != NO_PAGE && g' == GrownShape(g, root, top)
    ensures PageOk(pages, x, g', pend - {q}, kind)
  {
    hide NodeKind;
    var n := pages[x];
    if g.spans[x].level == 0 {
      assert LeafOk(n, x, g');
    } else {
      assert ChildrenOk(n, x, g');
      forall i | 0 <= i < |n.children| ensures Tiled(n, x, g', pend - {q}, i) {
        assert Tiled(n, x, g, pend, i);
        TiledWithout(n, x, g, pend, q, i);
        assert ChildEnd(n, x, g', i) == ChildEnd(n, x, g, i);
        var c := g.spans[n.children[i]];
        var end := ChildEnd(n, x, g, i);
        if c.b != end {
          var y :| y in pend - {q} && y in g.spans && g.spans[y] == Span(c.level, c.b, end);
          assert g'.spans[y] == g.spans[y];
        }
      }
    }
  }

  lemma GrownShapeOk(g: Shape, root: PageId, pend: set<PageId>, q: PageId, top: PageId)
    requires ShapeOk(g) && RootOk(g, root, pend) && q in g.spans && top !in g.spans && top != NO_PAGE
    requires (forall x :: x in pend && x in g.spans && g.spans[x].level == g.spans[root].level ==> x == q)
    requires top !in pend
    ensures ShapeOk(GrownShape(g, root, top)) && RootOk(GrownShape(g, root, top), top, pend - {q})
  {
  }

  lemma TopPage(g: Shape, root: PageId, pend: set<PageId>, q: PageId, sep: Key, top: PageId)
    requires ShapeOk(g) && root in g.spans && g.spans[root].a == 0.0 && root !in pend && q !in pend
    requires q in g.spans && top !in g.spans && top != NO_PAGE
    requires g.spans[q] == Span(g.spans[root].level, g.spans[root].b, 1.0) && g.fence[g.spans[q].a] == Rank(sep)
    requires SpansOk(GrownShape(g, root, top))
    ensures InnerOk(Internal([sep], [root, q]), top, GrownShape(g, root, top), pend)
  {
    var n := Internal([sep], [root, q]);
    var g' := GrownShape(g, root, top);
    hide *;
    ShapeOkParts(g);
    TopSpans(g, root, q, top);
    TopInner(g', g.spans[root].level, g.spans[q].a, pend, root, q, sep, top);
  }

  lemma TopSpans(g: Shape, root: PageId, q: PageId, top: PageId)
    requires SpansOk(g) && root in g.spans && q in g.spans && top !in g.spans && g.spans[root].a == 0.0
    ensures var g' := GrownShape(g, root, top);
            && root in g'.spans && q in g'.spans && g'.spans[root] == g.spans[root] && g'.spans[q] == g.spans[q]
            && top in g'.spans && g'.spans[top] == Span(g.spans[root].level + 1, 0.0, 1.0) && g'.fence == g.fence
    ensures g.spans[root].a < g.spans[root].b && g.spans[q].a < g.spans[q].b && g.spans[q].a in g.fence
  {
    assert SpanOk(g, root) && SpanOk(g, q);
  }

  lemma TopInner(g: Shape, level: nat, m: real, pend: set<PageId>, root: PageId, q: PageId, sep: Key, top: PageId)
    requires root in g.spans && q in g.spans && top in g.spans && root !in pend && q !in pend
    requires g.spans[root] == Span(level, 0.0, m) && g.spans[q] == Span(level, m, 1.0)
    requires g.spans[top] == Span(level + 1, 0.0, 1.0)
    requires 0.0 < m < 1.0 && m in g.fence && g.fence[m] == Rank(sep)
    ensures InnerOk(Internal([sep], [root, q]), top, g, pend)
  {
    var n := Internal([sep], [root, q]);
    hide Rank;
    assert Fenced(n, g, 0);
    ChildrenIntro(n, top, g);
    hide ChildrenOk;
    assert Tiled(n, top, g, pend, 0) && Tiled(n, top, g, pend, 1);
  }

  /** Repointing the meta page to a root over both halves ends a root split. */
  lemma GrowRoot(pages: Pages, root: PageId, g: Shape, pend: set<PageId>, kind: Kind, q: PageId, sep: Key, top: PageId)
    requires TreeInv(pages, root, g, pend, kind) && q in pend
    requires g.spans[q] == Span(g.spans[root].level, g.spans[root].b, 1.0)
    requires forall x :: x in pend && x in g.spans && g.spans[x].level == g.spans[root].level ==> x == q
    requires g.fence[g.spans[q].a] == Rank(sep) && KindOf(sep) == kind
    requires top !in g.spans && top != NO_PAGE && top in pages && pages[top] == Internal([sep], [root, q])
    ensures TreeInv(pages, top, GrownShape(g, root, top), pend - {q}, kind)
    ensures Rows(pages, GrownShape(g, root, top)) == Rows(pages, g)
  {
    hide PageOk;
    hide FenceOk;
    hide FencesAtLeaves;
    hide Disjoint;
    hide SpansOk;
    hide InnerOk;
    var g' := GrownShape(g, root, top);
    GrownShapeOk(g, root, pend, q, top);
    TopPage(g, root, pend - {q}, q, sep, top);
    TopNode(root, q, sep, kind);
    hide RootOk;
    hide NodeKind;
    PageFromInner(pages, top, g', pend - {q}, kind);
    hide RowSet;
    forall x | x in g'.spans ensures SpansOk(g') && PageOk(pages, x, g', pend - {q}, kind) {
      if x != top {
        GrowFrame(pages, x, root, g, g', pend, kind, q, top);
      }
    }
    forall r ensures r in Rows(pages, g') <==> r in Rows(pages, g) {
    }
  }

  lemma TopNode(root: PageId, q: PageId, sep: Key, kind: Kind)
    requires KindOf(sep) == kind
    ensures NodeKind(Internal([sep], [root, q]), kind) && RowSet(Internal([sep], [root, q])) == {}
  {
  }
}
