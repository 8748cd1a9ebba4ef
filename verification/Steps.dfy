/**
  The page writes of an insert, each with what it keeps and what a reader that is
  already under way can rely on. Shared by the sequential tree and by the model of
  concurrent inserters.
 */
module Steps {
  import opened Keys
  import opened Nodes
  import opened Shapes

  // ── what readers can rely on ───────────────────────────────────────────────

  /** No page leaves the tree, changes level or moves its start; no fence changes. */
  ghost predicate Extends(g: Shape, g': Shape) {
    && (forall p :: p in g.spans ==>
          p in g'.spans && g'.spans[p].level == g.spans[p].level && g'.spans[p].a == g.spans[p].a)
    && (forall x :: x in g.fence ==> x in g'.fence && g'.fence[x] == g.fence[x])
  }

  /** Row `r` sits in a leaf that starts at or right of position `x`. */
  ghost predicate FoundFrom(pages: Pages, g: Shape, r: Row, x: real) {
    exists p :: p in g.spans && p in pages && x <= g.spans[p].a && r in RowSet(pages[p])
  }

  /** Rows are kept and only ever move right. */
  ghost predicate RowsMoveRight(pages: Pages, g: Shape, pages': Pages, g': Shape) {
    forall p, r :: p in g.spans && p in pages && r in RowSet(pages[p]) ==>
      FoundFrom(pages', g', r, g.spans[p].a)
  }

  ghost predicate Evolves(pages: Pages, g: Shape, pages': Pages, g': Shape) {
    Extends(g, g') && RowsMoveRight(pages, g, pages', g')
  }

  /** The same, except for rows whose pair is in `lost`. */
  ghost predicate EvolvesBut(pages: Pages, g: Shape, pages': Pages, g': Shape, lost: set<Entry>) {
    && Extends(g, g')
    && (forall p, r :: p in g.spans && p in pages && r in RowSet(pages[p]) && Entry(r.key, r.rid) !in lost ==>
          FoundFrom(pages', g', r, g.spans[p].a))
  }

  lemma EvolvesAnyway(pages: Pages, g: Shape, pages': Pages, g': Shape, lost: set<Entry>)
    requires Evolves(pages, g, pages', g')
    ensures EvolvesBut(pages, g, pages', g', lost)
  {
    hide RowSet;
    hide FoundFrom;
  }

  lemma FoundAt(pages: Pages, g: Shape, p: PageId, r: Row, x: real)
    requires p in g.spans && p in pages && r in RowSet(pages[p]) && x <= g.spans[p].a
    ensures FoundFrom(pages, g, r, x)
  {
  }

  /** Pages that keep their rows keep them in place. */
  lemma EvolvesInPlace(pages: Pages, g: Shape, pages': Pages, g': Shape)
    requires Extends(g, g') && g.spans.Keys <= pages'.Keys
    requires forall p :: p in g.spans && p in pages ==> RowSet(pages[p]) <= RowSet(pages'[p])
    ensures Evolves(pages, g, pages', g')
  {
    hide RowSet;
    forall p, r | p in g.spans && p in pages && r in RowSet(pages[p])
      ensures FoundFrom(pages', g', r, g.spans[p].a)
    {
      FoundAt(pages', g', p, r, g.spans[p].a);
    }
  }

  lemma CutExtends(g: Shape, g': Shape, p: PageId, q: PageId, m: real)
    requires Cut(g, g', p, q, m)
    ensures Extends(g, g')
  {
  }

  /** Splitting a leaf moves the upper rows to a page further right. */
  lemma EvolvesSplit(pages: Pages, g: Shape, pages': Pages, g': Shape, p: PageId, q: PageId, m: real)
    requires Cut(g, g', p, q, m) && p in pages && g.spans.Keys <= pages'.Keys && q in pages'
    requires forall x :: x in g.spans && x in pages && x != p ==> RowSet(pages[x]) <= RowSet(pages'[x])
    requires RowSet(pages[p]) <= RowSet(pages'[p]) + RowSet(pages'[q])
    ensures Evolves(pages, g, pages', g')
  {
    CutExtends(g, g', p, q, m);
    hide RowSet;
    forall x, r | x in g.spans && x in pages && r in RowSet(pages[x])
      ensures FoundFrom(pages', g', r, g.spans[x].a)
    {
      if r in RowSet(pages'[x]) {
        FoundAt(pages', g', x, r, g.spans[x].a);
      } else {
        FoundAt(pages', g', q, r, g.spans[x].a);
      }
    }
  }

  // ── routing ────────────────────────────────────────────────────────────────

  /** `v` may be stored under page `p`. */
  ghost predicate InRange(g: Shape, p: PageId, v: Key) {
    && p in g.spans && g.spans[p].a in g.fence && g.spans[p].b in g.fence
    && g.fence[g.spans[p].a] <= Rank(v) <= g.fence[g.spans[p].b]
  }

  /** The child an insert routes to may store the value, if that child has no gap after it. */
  lemma RouteStaysInRange(g: Shape, p: PageId, n: Node, v: Key)
    requires SpansOk(g) && ChildrenOk(n, p, g) && InRange(g, p, v)
    requires g.spans[n.children[RouteInsert(n.keys, v)]].b == ChildEnd(n, p, g, RouteInsert(n.keys, v))
    ensures InRange(g, n.children[RouteInsert(n.keys, v)], v)
  {
    var i := RouteInsert(n.keys, v);
    var c := n.children[i];
    assert SpanOk(g, c);
    if i > 0 { assert !Less(v, n.keys[i - 1]) && g.fence[g.spans[n.children[i]].a] == Rank(n.keys[i - 1]); }
    if i < |n.keys| { assert g.fence[g.spans[n.children[i + 1]].a] == Rank(n.keys[i]); }
  }

  /** The new right page `q` starts at its separator. */
  ghost predicate Rose(g: Shape, q: PageId, sep: Key, kind: Kind) {
    q in g.spans && g.spans[q].a in g.fence && g.fence[g.spans[q].a] == Rank(sep) && KindOf(sep) == kind
  }

  // ── the leaf ───────────────────────────────────────────────────────────────

  /** The leaf with one more entry is still a sound leaf of its page. */
  lemma InsertedLeaf(g: Shape, p: PageId, n: Node, pos: nat, e: Entry, payload: seq<byte>, kind: Kind)
    requires LeafOk(n, p, g) && NodeKind(n, kind) && KindOf(e.key) == kind
    requires InRange(g, p, e.key) && IsInsertPos(n.entries, e, pos)
    ensures LeafOk(LeafInsert(n, pos, e, payload), p, g) && NodeKind(LeafInsert(n, pos, e, payload), kind)
    ensures RowSet(LeafInsert(n, pos, e, payload)) == RowSet(n) + {Row(e.key, e.rid, payload)}
  {
    InsertPosKeepsOrder(n.entries, e, pos);
    LeafInsertRows(n, pos, e, payload);
    EntriesInserted(n.entries, pos, e, g.fence[g.spans[p].a], g.fence[g.spans[p].b], kind);
    hide RowSet;
    hide RowsOf;
    hide BodyLen;
    hide KeysSorted;
    hide EntriesWithin;
    hide InsertPayload;
  }

  lemma EntriesInserted(entries: seq<Entry>, pos: nat, e: Entry, lo: real, hi: real, kind: Kind)
    requires pos <= |entries| && EntriesWithin(entries, lo, hi) && lo <= Rank(e.key) <= hi && KindOf(e.key) == kind
    requires forall i :: 0 <= i < |entries| ==> KindOf(entries[i].key) == kind
    ensures var es := InsertAt(entries, pos, e);
            EntriesWithin(es, lo, hi) && forall i :: 0 <= i < |es| ==> KindOf(es[i].key) == kind
  {
  }

  /** One page write inserts an entry that fits. */
  lemma WriteLeaf(pages: Pages, root: PageId, g: Shape, pend: set<PageId>, kind: Kind, p: PageId, n: Node)
    requires TreeInv(pages, root, g, pend, kind) && p in g.spans && g.spans[p].level == 0
    requires LeafOk(n, p, g) && NodeKind(n, kind) && RowSet(pages[p]) <= RowSet(n)
    ensures TreeInv(pages[p := n], root, g, pend, kind)
    ensures Rows(pages[p := n], g) == Rows(pages, g) + RowSet(n)
    ensures Evolves(pages, g, pages[p := n], g)
  {
    hide LeafOk;
    hide NodeKind;
    hide RowSet;
    hide PageOk;
    RewriteLeaf(pages, root, g, pend, kind, p, n);
    RowsGrow(pages, g, p, n);
    EvolvesInPlace(pages, g, pages[p := n], g);
  }

  /** The left-half write of a leaf split; the right half was written before. */
  lemma WriteLeafLeft(pages: Pages, root: PageId, g: Shape, pend: set<PageId>, kind: Kind, p: PageId, q: PageId,
                      n: Node)
    returns (g': Shape)
    requires TreeInv(pages, root, g, pend, kind) && p in g.spans && g.spans[p].level == 0
    requires LeafOk(n, p, g) && NodeKind(n, kind) && n.entries != [] && RowSet(pages[p]) <= RowSet(n)
    requires p !in pend && NoGapAfter(g, pend, p)
    requires q !in g.spans && q != NO_PAGE && q in pages && pages[q] == LeafRight(n)
    ensures TreeInv(pages[p := LeafLeft(n, q)], root, g', pend + {q}, kind)
    ensures Rose(g', q, LeafSep(n), kind) && q in g'.spans && Cut(g, g', p, q, g'.spans[q].a)
    ensures Rows(pages[p := LeafLeft(n, q)], g') == Rows(pages, g) + RowSet(n)
    ensures Evolves(pages, g, pages[p := LeafLeft(n, q)], g')
  {
    hide *;
    g' := LeafSplitShape(g, p, q, LeafSep(n));
    var pages' := pages[p := LeafLeft(n, q)];
    var m := Middle(g, p);
    LeafParts(g, p, n, kind);
    LeafSplitParts(g, p, q, LeafSep(n), kind);
    ShapeParts(pages, root, g, pend, kind);
    SplitLeaf(pages, root, g, pend, kind, p, q, n);
    LeafSplitRows(n, q);
    RowsSplit(pages, g, g', p, q, n);
    EvolvesSplit(pages, g, pages', g', p, q, m);
  }

  lemma LeafSplitParts(g: Shape, p: PageId, q: PageId, sep: Key, kind: Kind)
    requires p in g.spans && q !in g.spans && KindOf(sep) == kind
    ensures var g' := LeafSplitShape(g, p, q, sep);
            g'.spans.Keys == g.spans.Keys + {q} && g'.spans[q].a == Middle(g, p) && Rose(g', q, sep, kind)
  {
  }

  lemma LeafParts(g: Shape, p: PageId, n: Node, kind: Kind)
    requires LeafOk(n, p, g) && NodeKind(n, kind)
    ensures n.Leaf? && PayloadsAligned(n) && (n.entries != [] ==> KindOf(LeafSep(n)) == kind)
  {
  }

  // ── internal nodes ─────────────────────────────────────────────────────────

  /** Cutting a child that had no gap after it makes its new page fill the gap. */
  lemma CutFills(g: Shape, g': Shape, c: PageId, q: PageId, m: real, p: PageId, n: Node, at: nat)
    requires Cut(g, g', c, q, m) && p != c && ChildrenOk(n, p, g) && at < |n.children| && n.children[at] == c
    requires g.spans[c].b == ChildEnd(n, p, g, at)
    ensures Fills(g', p, n, at, q)
  {
    if at + 1 < |n.children| {
      assert g.spans[n.children[at]].a < g.spans[n.children[at + 1]].a;
      assert n.children[at + 1] != c && n.children[at + 1] in g.spans;
    }
  }

  /** No child of `n` other than the `at`-th has a gap after it. */
  ghost predicate OnlyGapAt(n: Node, p: PageId, g: Shape, at: nat) {
    n.Internal? &&
    forall i :: 0 <= i < |n.children| && n.children[i] in g.spans && i != at ==>
      g.spans[n.children[i]].b == ChildEnd(n, p, g, i)
  }

  lemma AbsorbedHasNoGaps(g: Shape, p: PageId, n: Node, at: nat, sep: Key, q: PageId)
    requires ChildrenOk(n, p, g) && Fills(g, p, n, at, q) && OnlyGapAt(n, p, g, at)
    ensures NoGaps(InternalInsert(n, at, sep, q), p, g)
  {
    InsertedChildren(n, at, sep, q);
    var n' := InternalInsert(n, at, sep, q);
    hide InternalInsert;
    forall i | 0 <= i < |n'.children| && n'.children[i] in g.spans
      ensures g.spans[n'.children[i]].b == ChildEnd(n', p, g, i)
    {
      if i < at {
        assert g.spans[n.children[i]].b == ChildEnd(n, p, g, i);
      } else if i > at + 1 {
        assert g.spans[n.children[i - 1]].b == ChildEnd(n, p, g, i - 1);
      }
    }
  }

  /** A sound, pending `q` waits for `p` with separator `sep`. */
  ghost predicate Waiting(g: Shape, pend: set<PageId>, kind: Kind, p: PageId, n: Node, at: nat, sep: Key, q: PageId) {
    && q in pend && Fills(g, p, n, at, q) && KindOf(sep) == kind
    && q in g.spans && g.spans[q].a in g.fence && g.fence[g.spans[q].a] == Rank(sep)
  }

  lemma RowsOfInner(pages: Pages, g: Shape, p: PageId, n: Node)
    requires p in pages && pages[p].Internal? && n.Internal?
    ensures Rows(pages[p := n], g) == Rows(pages, g)
    ensures g.spans.Keys <= pages.Keys ==> Evolves(pages, g, pages[p := n], g)
  {
    if g.spans.Keys <= pages.Keys { EvolvesInPlace(pages, g, pages[p := n], g); }
    forall r ensures r in Rows(pages[p := n], g) <==> r in Rows(pages, g) {
      if r in Rows(pages, g) {
        var x :| x in g.spans && x in pages && r in RowSet(pages[x]);
        assert r in RowSet(pages[p := n][x]);
      }
    }
  }

  /** One page write absorbs a separator that fits. */
  lemma WriteParent(pages: Pages, root: PageId, g: Shape, pend: set<PageId>, kind: Kind,
                    p: PageId, at: nat, sep: Key, q: PageId)
    requires TreeInv(pages, root, g, pend, kind) && p in g.spans && g.spans[p].level > 0
    requires ChildrenOk(pages[p], p, g) && Waiting(g, pend, kind, p, pages[p], at, sep, q)
    ensures var pages' := pages[p := InternalInsert(pages[p], at, sep, q)];
            && TreeInv(pages', root, g, pend - {q}, kind)
            && Rows(pages', g) == Rows(pages, g) && Evolves(pages, g, pages', g)
  {
    var n' := InternalInsert(pages[p], at, sep, q);
    hide PageOk;
    hide ShapeOk;
    hide RootOk;
    Absorb(pages, root, g, pend, kind, p, at, sep, q);
    RowsOfInner(pages, g, p, n');
  }

  lemma RowsUnderCut(pages: Pages, g: Shape, pages': Pages, g': Shape, p: PageId, q: PageId, m: real)
    requires Cut(g, g', p, q, m) && p in pages && pages[p].Internal? && q in pages'
    requires forall x :: x in pages && x != p ==> x in pages' && pages'[x] == pages[x]
    requires pages'.Keys == pages.Keys && pages'[p].Internal? && pages'[q].Internal?
    requires g.spans.Keys <= pages.Keys
    ensures Rows(pages', g') == Rows(pages, g) && Evolves(pages, g, pages', g')
  {
    EvolvesSplit(pages, g, pages', g', p, q, m);
    forall r ensures r in Rows(pages', g') <==> r in Rows(pages, g) {
      if r in Rows(pages, g) {
        var x :| x in g.spans && x in pages && r in RowSet(pages[x]);
        assert x in g'.spans && x in pages' && r in RowSet(pages'[x]);
      }
      if r in Rows(pages', g') {
        var x :| x in g'.spans && x in pages' && r in RowSet(pages'[x]);
        assert x != p && x != q;
        assert r in RowSet(pages[x]);
      }
    }
  }

  lemma InnerLeftTree(pages: Pages, root: PageId, g: Shape, pend: set<PageId>, kind: Kind,
                      p: PageId, at: nat, sep: Key, q: PageId, full: Node, r: PageId, pages': Pages, g': Shape)
    requires TreeInv(pages, root, g, pend, kind) && p in g.spans && g.spans[p].level > 0
    requires ChildrenOk(pages[p], p, g) && Waiting(g, pend, kind, p, pages[p], at, sep, q)
    requires OnlyGapAt(pages[p], p, g, at) && p !in pend && NoGapAfter(g, pend, p)
    requires full == InternalInsert(pages[p], at, sep, q) && Branching(full)
    requires r !in g.spans && r != NO_PAGE && r in pages && pages[r] == InternalRight(full)
    requires pages' == pages[p := InternalLeft(full)] && g' == InnerSplitShape(g, p, r, InnerMiddle(g, full))
    ensures TreeInv(pages', root, g', pend - {q} + {r}, kind) && Cut(g, g', p, r, InnerMiddle(g, full))
    ensures ChildrenOk(full, p, g) && NodeKind(full, kind)
  {
    hide *;
    ShapeParts(pages, root, g, pend, kind);
    var n := pages[p];
    var virtual := pages[p := full];
    Absorb(pages, root, g, pend, kind, p, at, sep, q) by { WaitingParts(g, pend, kind, p, n, at, sep, q); }
    AbsorbedHasNoGaps(g, p, n, at, sep, q) by { WaitingParts(g, pend, kind, p, n, at, sep, q); }
    NoGapAfterFewer(g, pend, p, q);
    TreePage(virtual, root, g, pend - {q}, kind, p);
    BranchingParts(full);
    assert pages' == virtual[p := InternalLeft(full)];
    SplitInner(virtual, pages', root, g, g', pend - {q}, kind, p, r, full);
  }

  lemma WaitingParts(g: Shape, pend: set<PageId>, kind: Kind, p: PageId, n: Node, at: nat, sep: Key, q: PageId)
    requires Waiting(g, pend, kind, p, n, at, sep, q)
    ensures q in pend && Fills(g, p, n, at, q) && KindOf(sep) == kind
    ensures q in g.spans && g.spans[q].a in g.fence && g.fence[g.spans[q].a] == Rank(sep)
  {
  }

  lemma BranchingParts(n: Node)
    requires Branching(n)
    ensures n.Internal? && n.keys != [] && InternalLeft(n).Internal? && InternalRight(n).Internal?
  {
  }

  lemma RisingKey(g: Shape, g': Shape, p: PageId, full: Node, r: PageId, kind: Kind)
    requires ChildrenOk(full, p, g) && NodeKind(full, kind) && Branching(full) && p != r
    requires g' == InnerSplitShape(g, p, r, InnerMiddle(g, full))
    ensures r in g'.spans && g'.spans[r].a == InnerMiddle(g, full) && Rose(g', r, InternalSep(full), kind)
  {
  }

  /** The left-half write of an internal split that also absorbs a separator. */
  lemma WriteInnerLeft(pages: Pages, root: PageId, g: Shape, pend: set<PageId>, kind: Kind,
                       p: PageId, at: nat, sep: Key, q: PageId, full: Node, r: PageId)
    returns (g': Shape)
    requires TreeInv(pages, root, g, pend, kind) && p in g.spans && g.spans[p].level > 0
    requires ChildrenOk(pages[p], p, g) && Waiting(g, pend, kind, p, pages[p], at, sep, q)
    requires OnlyGapAt(pages[p], p, g, at) && p !in pend && NoGapAfter(g, pend, p)
    requires full == InternalInsert(pages[p], at, sep, q) && Branching(full)
    requires r !in g.spans && r != NO_PAGE && r in pages && pages[r] == InternalRight(full)
    ensures TreeInv(pages[p := InternalLeft(full)], root, g', pend - {q} + {r}, kind)
    ensures Rose(g', r, InternalSep(full), kind) && r in g'.spans && Cut(g, g', p, r, g'.spans[r].a)
    ensures Rows(pages[p := InternalLeft(full)], g') == Rows(pages, g)
    ensures Evolves(pages, g, pages[p := InternalLeft(full)], g')
  {
    hide *;
    g' := InnerSplitShape(g, p, r, InnerMiddle(g, full));
    var pages' := pages[p := InternalLeft(full)];
    ShapeParts(pages, root, g, pend, kind);
    BranchingParts(full);
    ChildrenParts(pages[p], p, g);
    InnerLeftTree(pages, root, g, pend, kind, p, at, sep, q, full, r, pages', g');
    RowsUnderCut(pages, g, pages', g', p, r, InnerMiddle(g, full));
    RisingKey(g, g', p, full, r, kind);
  }

  lemma ChildrenParts(n: Node, p: PageId, g: Shape)
    requires ChildrenOk(n, p, g)
    ensures n.Internal? && |n.children| == |n.keys| + 1
  {
  }

  lemma NoGapAfterFewer(g: Shape, pend: set<PageId>, p: PageId, q: PageId)
    requires NoGapAfter(g, pend, p)
    ensures NoGapAfter(g, pend - {q}, p)
  {
  }

  /** What the invariant says about one internal or leaf page. */
  lemma TreePage(pages: Pages, root: PageId, g: Shape, pend: set<PageId>, kind: Kind, p: PageId)
    requires TreeInv(pages, root, g, pend, kind) && p in g.spans
    ensures p in pages && NodeKind(pages[p], kind)
    ensures g.spans[p].level == 0 ==> LeafOk(pages[p], p, g)
    ensures g.spans[p].level > 0 ==> InnerOk(pages[p], p, g, pend) && ChildrenOk(pages[p], p, g)
    ensures SpansOk(g) && Disjoint(g)
  {
    assert PageOk(pages, p, g, pend, kind);
  }

  /** Repointing the meta page to the new root moves no row. */
  lemma WriteMeta(pages: Pages, root: PageId, g: Shape, pend: set<PageId>, kind: Kind, q: PageId, sep: Key, top: PageId)
    returns (g': Shape)
    requires TreeInv(pages, root, g, pend, kind) && q in pend && q in g.spans && root in g.spans
    requires g.spans[q] == Span(g.spans[root].level, g.spans[root].b, 1.0)
    requires forall x :: x in pend && x in g.spans && g.spans[x].level == g.spans[root].level ==> x == q
    requires g.spans[q].a in g.fence && g.fence[g.spans[q].a] == Rank(sep) && KindOf(sep) == kind
    requires top !in g.spans && top != NO_PAGE && top in pages && pages[top] == Internal([sep], [root, q])
    ensures g' == GrownShape(g, root, top)
    ensures TreeInv(pages, top, g', pend - {q}, kind)
    ensures Rows(pages, g') == Rows(pages, g) && Evolves(pages, g, pages, g')
  {
    hide *;
    g' := GrownShape(g, root, top);
    ShapeParts(pages, root, g, pend, kind);
    GrowRoot(pages, root, g, pend, kind, q, sep, top);
    GrownExtends(g, root, top);
    EvolvesInPlace(pages, g, pages, g');
  }

  lemma GrownExtends(g: Shape, root: PageId, top: PageId)
    requires root in g.spans && top !in g.spans
    ensures Extends(g, GrownShape(g, root, top))
  {
  }
}
