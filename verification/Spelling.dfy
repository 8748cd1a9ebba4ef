/**
  The rows a tree spells from left to right, and what each page write does to them.
 */
module Spelling {
  import opened Keys
  import opened Nodes
  import opened Shapes
  import opened Steps
  import opened Searches
  import opened Trees

  /** Reading the leaves from left to right gives `rows`. */
  ghost predicate Spells(pages: Pages, g: Shape, rows: seq<Row>) {
    exists leaves :: Tiling(g, leaves, 0.0, 1.0) && Flat(pages, leaves) == rows
  }

  /** There is only one way to tile [0, b) with the leaves of a shape. */
  lemma {:induction false} TilingUnique(g: Shape, l1: seq<PageId>, l2: seq<PageId>, b: real)
    requires ShapeOk(g) && Tiling(g, l1, 0.0, b) && Tiling(g, l2, 0.0, b)
    ensures l1 == l2
    decreases |l1| + |l2|
  {
    ShapeOkParts(g);
    hide ShapeOk;
    TilingLast(g, l1, 0.0, b);
    TilingLast(g, l2, 0.0, b);
    hide Tiling;
    var k1, k2 := |l1| - 1, |l2| - 1;
    EndUnique(g, l1[k1], l2[k2]);
    hide SpansOk;
    var a := g.spans[l1[k1]].a;
    if k1 > 0 { TilingStart(g, l1[..k1], a); }
    if k2 > 0 { TilingStart(g, l2[..k2], a); }
    if k1 > 0 && k2 > 0 { TilingUnique(g, l1[..k1], l2[..k2], a); }
    assert l1 == l1[..k1] + [l1[k1]] && l2 == l2[..k2] + [l2[k2]];
  }

  /** A tiling that ends somewhere ends strictly right of 0. */
  lemma {:induction false} TilingStart(g: Shape, leaves: seq<PageId>, b: real)
    requires SpansOk(g) && Tiling(g, leaves, 0.0, b)
    ensures 0.0 < b
    decreases |leaves|
  {
    TilingLast(g, leaves, 0.0, b);
    if |leaves| > 1 { TilingStart(g, leaves[..|leaves| - 1], g.spans[leaves[|leaves| - 1]].a); }
  }

  lemma SpellsUnique(pages: Pages, g: Shape, r1: seq<Row>, r2: seq<Row>)
    requires ShapeOk(g) && Spells(pages, g, r1) && Spells(pages, g, r2)
    ensures r1 == r2
  {
    hide Tiling;
    hide ShapeOk;
    hide Flat;
    var l1 :| Tiling(g, l1, 0.0, 1.0) && Flat(pages, l1) == r1;
    var l2 :| Tiling(g, l2, 0.0, 1.0) && Flat(pages, l2) == r2;
    TilingUnique(g, l1, l2, 1.0);
  }

  // ── writes that touch no leaf ──────────────────────────────────────────────

  lemma {:induction false} FlatSame(pages: Pages, pages': Pages, leaves: seq<PageId>)
    requires forall i :: 0 <= i < |leaves| ==>
               leaves[i] in pages && leaves[i] in pages' && pages'[leaves[i]] == pages[leaves[i]]
    ensures Flat(pages', leaves) == Flat(pages, leaves)
  {
    if leaves != [] { FlatSame(pages, pages', leaves[..|leaves| - 1]); }
  }

  /** Only internal pages changed, and no leaf was cut. */
  lemma SpellsInner(pages: Pages, pages': Pages, g: Shape, g': Shape, rows: seq<Row>)
    requires Spells(pages, g, rows) && g.spans.Keys <= pages.Keys
    requires forall p :: p in g.spans && g.spans[p].level == 0 ==>
               p in g'.spans && g'.spans[p] == g.spans[p] && p in pages' && pages'[p] == pages[p]
    ensures Spells(pages', g', rows)
  {
    hide Flat;
    var leaves :| Tiling(g, leaves, 0.0, 1.0) && Flat(pages, leaves) == rows;
    assert Tiling(g', leaves, 0.0, 1.0);
    FlatSame(pages, pages', leaves);
  }

  // ── writes that change one leaf ────────────────────────────────────────────

  function Splice<T>(s: seq<T>, k: nat, mid: seq<T>, k': nat): seq<T>
    requires k <= k' <= |s|
  {
    s[..k] + mid + s[k'..]
  }

  lemma FlatAround(pages: Pages, leaves: seq<PageId>, i: nat)
    requires i < |leaves| && leaves[i] in pages
    ensures Flat(pages, leaves) == Flat(pages, leaves[..i]) + LeafRows(pages[leaves[i]]) + Flat(pages, leaves[i + 1..])
  {
    assert leaves == leaves[..i] + [leaves[i]] + leaves[i + 1..];
    FlatConcat(pages, leaves[..i] + [leaves[i]], leaves[i + 1..]);
    FlatConcat(pages, leaves[..i], [leaves[i]]);
    FlatOne(pages, leaves[i]);
  }

  lemma FlatOne(pages: Pages, p: PageId)
    requires p in pages
    ensures Flat(pages, [p]) == LeafRows(pages[p])
  {
    assert [p][..0] == [];
    assert Flat(pages, [p]) == Flat(pages, []) + LeafRows(pages[p]);
  }

  /** The rows of leaf `p` occupy a contiguous stretch starting at `k`. */
  ghost predicate LeafSpells(pages: Pages, g: Shape, p: PageId, rows: seq<Row>, k: nat) {
    && p in pages && k + |LeafRows(pages[p])| <= |rows|
    && rows[k..k + |LeafRows(pages[p])|] == LeafRows(pages[p])
  }

  lemma SpellsLeaves(pages: Pages, g: Shape, rows: seq<Row>) returns (leaves: seq<PageId>)
    requires Spells(pages, g, rows)
    ensures Tiling(g, leaves, 0.0, 1.0) && Flat(pages, leaves) == rows
  {
    hide Tiling;
    hide Flat;
    leaves :| Tiling(g, leaves, 0.0, 1.0) && Flat(pages, leaves) == rows;
  }

  lemma SpellsIntro(pages: Pages, g: Shape, leaves: seq<PageId>)
    requires Tiling(g, leaves, 0.0, 1.0)
    ensures Spells(pages, g, Flat(pages, leaves))
  {
    hide Tiling;
    hide Flat;
  }

  lemma SpliceAround(a: seq<Row>, b: seq<Row>, c: seq<Row>, b': seq<Row>)
    ensures Splice(a + b + c, |a|, b', |a| + |b|) == a + b' + c
    ensures (a + b + c)[|a|..|a| + |b|] == b
  {
  }

  lemma LeafSpellsIntro(pages: Pages, g: Shape, p: PageId, a: seq<Row>, c: seq<Row>)
    requires p in pages
    ensures LeafSpells(pages, g, p, a + LeafRows(pages[p]) + c, |a|)
  {
    hide LeafRows;
    SpliceAround(a, LeafRows(pages[p]), c, []);
  }

  lemma TilingIn(pages: Pages, g: Shape, leaves: seq<PageId>)
    requires Tiling(g, leaves, 0.0, 1.0) && g.spans.Keys <= pages.Keys
    ensures forall j :: 0 <= j < |leaves| ==> leaves[j] in g.spans && leaves[j] in pages
  {
  }

  /** So many rows lie in the leaves before `p`. */
  ghost predicate StartsRows(pages: Pages, g: Shape, p: PageId, k: nat) {
    forall leaves, i: nat ::
      Tiling(g, leaves, 0.0, 1.0) && i < |leaves| && leaves[i] == p ==> k == |Flat(pages, leaves[..i])|
  }

  lemma StartsRowsIntro(pages: Pages, g: Shape, leaves: seq<PageId>, i: nat)
    requires ShapeOk(g) && Tiling(g, leaves, 0.0, 1.0) && i < |leaves|
    requires forall j :: 0 <= j < |leaves| && j != i ==> leaves[j] != leaves[i]
    ensures StartsRows(pages, g, leaves[i], |Flat(pages, leaves[..i])|)
  {
    hide Tiling;
    hide ShapeOk;
    forall other, j: nat | Tiling(g, other, 0.0, 1.0) && j < |other| && other[j] == leaves[i]
      ensures |Flat(pages, leaves[..i])| == |Flat(pages, other[..j])|
    {
      TilingUnique(g, leaves, other, 1.0);
    }
  }

  /** Rewriting one leaf replaces its stretch of rows. */
  lemma SpellsLeaf(pages: Pages, g: Shape, rows: seq<Row>, p: PageId, n: Node) returns (k: nat)
    requires ShapeOk(g) && Spells(pages, g, rows) && g.spans.Keys <= pages.Keys
    requires p in g.spans && g.spans[p].level == 0
    ensures LeafSpells(pages, g, p, rows, k) && k + |LeafRows(pages[p])| <= |rows|
    ensures Spells(pages[p := n], g, Splice(rows, k, LeafRows(n), k + |LeafRows(pages[p])|))
    ensures StartsRows(pages, g, p, k)
  {
    hide *;
    var leaves := SpellsLeaves(pages, g, rows);
    var pages' := pages[p := n];
    var i := LeafIndex(g, leaves, p);
    StartsRowsIntro(pages, g, leaves, i);
    TilingIn(pages, g, leaves);
    FlatAround(pages, leaves, i);
    FlatAround(pages', leaves, i);
    var a, c := Flat(pages, leaves[..i]), Flat(pages, leaves[i + 1..]);
    k := |a|;
    FlatOthers(g, pages, pages', leaves, i, p);
    SpliceAround(a, LeafRows(pages[p]), c, LeafRows(n));
    LeafSpellsIntro(pages, g, p, a, c);
    SpellsIntro(pages', g, leaves);
  }

  lemma LeafIndex(g: Shape, leaves: seq<PageId>, p: PageId) returns (i: nat)
    requires ShapeOk(g) && Tiling(g, leaves, 0.0, 1.0) && p in g.spans && g.spans[p].level == 0
    ensures i < |leaves| && leaves[i] == p
    ensures forall j :: 0 <= j < |leaves| && j != i ==> leaves[j] != p
  {
    EndsInside(g, p);
    i := TilingComplete(g, leaves, 1.0, p);
    ShapeOkParts(g);
    forall j | 0 <= j < |leaves| && j != i ensures leaves[j] != p {
      if j < i { TilingApart(g, leaves, j, i); } else { TilingApart(g, leaves, i, j); }
    }
  }

  lemma FlatOthers(g: Shape, pages: Pages, pages': Pages, leaves: seq<PageId>, i: nat, p: PageId)
    requires i < |leaves| && leaves[i] == p && (forall j :: 0 <= j < |leaves| && j != i ==> leaves[j] != p)
    requires forall j :: 0 <= j < |leaves| ==> leaves[j] in pages
    requires forall x :: x in pages && x != p ==> x in pages' && pages'[x] == pages[x]
    ensures Flat(pages', leaves[..i]) == Flat(pages, leaves[..i])
    ensures Flat(pages', leaves[i + 1..]) == Flat(pages, leaves[i + 1..])
  {
    FlatSame(pages, pages', leaves[..i]);
    FlatSame(pages, pages', leaves[i + 1..]);
  }

  lemma TilingPrefix(g: Shape, leaves: seq<PageId>, i: nat)
    requires Tiling(g, leaves, 0.0, 1.0) && 0 < i < |leaves|
    ensures leaves[i] in g.spans && Tiling(g, leaves[..i], 0.0, g.spans[leaves[i]].a)
  {
  }

  lemma TilingSuffix(g: Shape, leaves: seq<PageId>, i: nat)
    requires Tiling(g, leaves, 0.0, 1.0) && i + 1 < |leaves|
    ensures leaves[i] in g.spans && Tiling(g, leaves[i + 1..], g.spans[leaves[i]].b, 1.0)
  {
    var l := leaves[i + 1..];
    forall j | 0 <= j < |l| - 1 ensures g.spans[l[j]].b == g.spans[l[j + 1]].a {
      assert l[j] == leaves[i + 1 + j] && l[j + 1] == leaves[i + 2 + j];
    }
  }

  lemma TilingEnds(g: Shape, leaves: seq<PageId>, i: nat)
    requires Tiling(g, leaves, 0.0, 1.0) && i < |leaves|
    ensures leaves[i] in g.spans && (i == 0 ==> g.spans[leaves[i]].a == 0.0)
    ensures i + 1 == |leaves| ==> g.spans[leaves[i]].b == 1.0
  {
  }

  lemma TilingKept(g: Shape, g': Shape, leaves: seq<PageId>, a: real, b: real)
    requires Tiling(g, leaves, a, b)
    requires forall j :: 0 <= j < |leaves| && leaves[j] in g.spans ==>
               leaves[j] in g'.spans && g'.spans[leaves[j]] == g.spans[leaves[j]]
    ensures Tiling(g', leaves, a, b)
  {
  }

  lemma CutPair(g: Shape, g': Shape, p: PageId, q: PageId, m: real)
    requires Cut(g, g', p, q, m) && g.spans[p].level == 0
    ensures Tiling(g', [p, q], g.spans[p].a, g.spans[p].b)
    ensures forall x :: x in g.spans && x != p ==> x in g'.spans && g'.spans[x] == g.spans[x]
  {
  }

  /** A split puts the new leaf right after the old one. */
  lemma TilingCut(g: Shape, g': Shape, leaves: seq<PageId>, i: nat, p: PageId, q: PageId, m: real)
    requires ShapeOk(g) && Tiling(g, leaves, 0.0, 1.0) && i < |leaves| && leaves[i] == p
    requires forall j :: 0 <= j < |leaves| && j != i ==> leaves[j] != p
    requires Cut(g, g', p, q, m) && g.spans[p].level == 0
    ensures Tiling(g', leaves[..i] + [p, q] + leaves[i + 1..], 0.0, 1.0)
  {
    hide *;
    CutPair(g, g', p, q, m);
    TilingEnds(g, leaves, i);
    var l := [p, q];
    if i > 0 {
      TilingPrefix(g, leaves, i);
      TilingKept(g, g', leaves[..i], 0.0, g.spans[p].a);
      TilingAppend(g', leaves[..i], l, 0.0, g.spans[p].a, g.spans[p].b);
    } else {
      assert leaves[..i] + l == l;
    }
    l := leaves[..i] + l;
    if i + 1 < |leaves| {
      TilingSuffix(g, leaves, i);
      TilingKept(g, g', leaves[i + 1..], g.spans[p].b, 1.0);
      TilingAppend(g', l, leaves[i + 1..], 0.0, g.spans[p].b, 1.0);
    } else {
      assert l + leaves[i + 1..] == l;
    }
  }

  lemma FlatPair(pages: Pages, a: seq<PageId>, p: PageId, q: PageId, c: seq<PageId>)
    requires p in pages && q in pages
    ensures Flat(pages, a + [p, q] + c) == Flat(pages, a) + (LeafRows(pages[p]) + LeafRows(pages[q])) + Flat(pages, c)
  {
    hide *;
    FlatConcat(pages, a + [p, q], c);
    FlatConcat(pages, a, [p, q]);
    assert [p, q] == [p] + [q];
    FlatConcat(pages, [p], [q]);
    FlatOne(pages, p);
    FlatOne(pages, q);
  }

  /** Splitting leaf `p` into `p` and `q` replaces its stretch by the rows of both halves. */
  lemma SpellsSplit(pages: Pages, pages': Pages, g: Shape, g': Shape, rows: seq<Row>, p: PageId, q: PageId, m: real)
    returns (k: nat)
    requires ShapeOk(g) && Spells(pages, g, rows) && g.spans.Keys <= pages.Keys
    requires p in g.spans && g.spans[p].level == 0 && Cut(g, g', p, q, m)
    requires p in pages' && q in pages'
    requires forall x :: x in g.spans && x != p ==> x in pages' && pages'[x] == pages[x]
    ensures LeafSpells(pages, g, p, rows, k) && k + |LeafRows(pages[p])| <= |rows|
    ensures Spells(pages', g', Splice(rows, k, LeafRows(pages'[p]) + LeafRows(pages'[q]), k + |LeafRows(pages[p])|))
  {
    hide *;
    var leaves := SpellsLeaves(pages, g, rows);
    var i := LeafIndex(g, leaves, p);
    TilingIn(pages, g, leaves);
    TilingCut(g, g', leaves, i, p, q, m);
    FlatAround(pages, leaves, i);
    var a, c := Flat(pages, leaves[..i]), Flat(pages, leaves[i + 1..]);
    k := |a|;
    FlatSame(pages, pages', leaves[..i]);
    FlatSame(pages, pages', leaves[i + 1..]);
    FlatPair(pages', leaves[..i], p, q, leaves[i + 1..]);
    SpliceAround(a, LeafRows(pages[p]), c, LeafRows(pages'[p]) + LeafRows(pages'[q]));
    LeafSpellsIntro(pages, g, p, a, c);
    SpellsIntro(pages', g', leaves[..i] + [p, q] + leaves[i + 1..]);
  }

  /** A tree without pending pages spells the rows of its in-order leaves. */
  lemma TreeSpells(pages: Pages, root: PageId, g: Shape, kind: Kind) returns (rows: seq<Row>)
    requires TreeInv(pages, root, g, {}, kind)
    ensures root in g.spans && Spells(pages, g, rows) && WellFormed(pages, root, g.spans[root].level, rows)
    ensures rows == Flat(pages, LeavesUnder(pages, root, g.spans[root].level))
    ensures (set r | r in rows) == Rows(pages, g)
  {
    hide TreeInv;
    var depth;
    depth, rows := ShapeMeansTree(pages, root, g, kind);
  }
}
