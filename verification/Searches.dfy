/**
  Lookups: where a read descends, what it collects from a leaf, and why the rest of
  the leaf chain to the right holds everything it still has to find.
 */
module Searches {
  import opened Keys
  import opened Nodes
  import opened Shapes
  import opened Steps

  datatype Op = Eq | Lt | Le | Gt | Ge

  predicate Admits(op: Op, k: Key, v: Key) {
    match op
    case Eq => k == v
    case Lt => Less(k, v)
    case Le => AtMost(k, v)
    case Gt => Less(v, k)
    case Ge => AtMost(v, k)
  }

  /** An entry that ends an ascending scan. */
  predicate Past(op: Op, k: Key, v: Key) {
    match op
    case Eq => Less(v, k)
    case Lt => AtMost(v, k)
    case Le => Less(v, k)
    case Gt => false
    case Ge => false
  }

  /** Scans bounded above start at the leftmost leaf. */
  predicate FromLeft(op: Op) {
    op.Lt? || op.Le?
  }

  // ── routing a read ─────────────────────────────────────────────────────────

  function RouteReadFrom(keys: seq<Key>, v: Key, i: nat): (r: nat)
    requires i <= |keys|
    ensures i <= r <= |keys|
    ensures forall j :: i <= j < r ==> !AtMost(v, keys[j])
    ensures r < |keys| ==> AtMost(v, keys[r])
    decreases |keys| - i
  {
    if i == |keys| || AtMost(v, keys[i]) then i else RouteReadFrom(keys, v, i + 1)
  }

  /** The child a read descends to: `<=` goes left, so no duplicate is passed by. */
  function RouteRead(op: Op, keys: seq<Key>, v: Key): (r: nat)
    ensures r <= |keys|
    ensures r > 0 ==> !FromLeft(op) && !AtMost(v, keys[r - 1])
  {
    if FromLeft(op) then 0 else RouteReadFrom(keys, v, 0)
  }

  // ── what a scan takes from one leaf ────────────────────────────────────────

  function StopFrom(op: Op, rows: seq<Row>, v: Key, i: nat): (r: nat)
    requires i <= |rows|
    ensures i <= r <= |rows|
    ensures forall j :: i <= j < r ==> !Past(op, rows[j].key, v)
    ensures r < |rows| ==> Past(op, rows[r].key, v)
    decreases |rows| - i
  {
    if i == |rows| || Past(op, rows[i].key, v) then i else StopFrom(op, rows, v, i + 1)
  }

  /** The rows an operator admits, in order. */
  function Admitted(op: Op, rows: seq<Row>, v: Key): seq<Row> {
    if rows == [] then []
    else
      var last := rows[|rows| - 1];
      Admitted(op, rows[..|rows| - 1], v) + (if Admits(op, last.key, v) then [last] else [])
  }

  function LeafRows(n: Node): seq<Row> {
    if n.Leaf? then RowsOf(n.entries, n.payloads) else []
  }

  function StopOf(op: Op, n: Node, v: Key): nat {
    StopFrom(op, LeafRows(n), v, 0)
  }

  predicate PastIn(op: Op, n: Node, v: Key) {
    StopOf(op, n, v) < |LeafRows(n)|
  }

  function Hits(op: Op, n: Node, v: Key): seq<Row> {
    Admitted(op, LeafRows(n)[..StopOf(op, n, v)], v)
  }

  lemma {:induction false} AdmittedIn(op: Op, rows: seq<Row>, v: Key, r: Row)
    ensures r in Admitted(op, rows, v) <==> r in rows && Admits(op, r.key, v)
  {
    if rows != [] {
      var last := |rows| - 1;
      AdmittedIn(op, rows[..last], v, r);
      assert rows == rows[..last] + [rows[last]];
    }
  }

  lemma {:induction false} AdmittedNone(op: Op, rows: seq<Row>, v: Key)
    requires forall i :: 0 <= i < |rows| ==> !Admits(op, rows[i].key, v)
    ensures Admitted(op, rows, v) == []
  {
    if rows != [] {
      AdmittedNone(op, rows[..|rows| - 1], v);
    }
  }

  lemma {:induction false} AdmittedConcat(op: Op, a: seq<Row>, b: seq<Row>, v: Key)
    ensures Admitted(op, a + b, v) == Admitted(op, a, v) + Admitted(op, b, v)
  {
    if b == [] {
      assert a + b == a;
    } else {
      var last := |b| - 1;
      assert (a + b)[..|a + b| - 1] == a + b[..last];
      AdmittedConcat(op, a, b[..last], v);
    }
  }

  ghost predicate RowsSorted(rows: seq<Row>) {
    forall i, j :: 0 <= i < j < |rows| ==> Rank(rows[i].key) <= Rank(rows[j].key)
  }

  /** Beyond a key that ends the scan nothing is admitted. */
  lemma PastEnds(op: Op, k: Key, k': Key, v: Key)
    requires Past(op, k, v) && Rank(k) <= Rank(k')
    ensures !Admits(op, k', v) && Past(op, k', v)
  {
  }

  /** On a sorted leaf stopping early loses nothing. */
  lemma StopLosesNothing(op: Op, rows: seq<Row>, v: Key)
    requires RowsSorted(rows)
    ensures Admitted(op, rows[..StopFrom(op, rows, v, 0)], v) == Admitted(op, rows, v)
  {
    var stop := StopFrom(op, rows, v, 0);
    forall i | 0 <= i < |rows[stop..]| ensures !Admits(op, rows[stop..][i].key, v) {
      PastEnds(op, rows[stop].key, rows[stop + i].key, v);
    }
    AdmittedNone(op, rows[stop..], v);
    AdmittedConcat(op, rows[..stop], rows[stop..], v);
    assert rows == rows[..stop] + rows[stop..];
  }

  lemma HitsAll(op: Op, n: Node, v: Key)
    requires n.Leaf? && KeysSorted(n.entries)
    ensures RowsSorted(LeafRows(n)) && Hits(op, n, v) == Admitted(op, LeafRows(n), v)
  {
    StopLosesNothing(op, LeafRows(n), v);
  }

  // ── the five searches divide the rows ──────────────────────────────────────

  ghost predicate Below(rows: seq<Row>, v: Key) {
    forall k :: 0 <= k < |rows| ==> Rank(rows[k].key) < Rank(v)
  }

  predicate Same(rows: seq<Row>, v: Key) {
    forall k :: 0 <= k < |rows| ==> rows[k].key == v
  }

  ghost predicate Above(rows: seq<Row>, v: Key) {
    forall k :: 0 <= k < |rows| ==> Rank(v) < Rank(rows[k].key)
  }

  /** Rows up to `i` have keys below `v`, rows from `j` on keys above it, and those between have the key itself. */
  ghost predicate DividedAt(rows: seq<Row>, v: Key, i: nat, j: nat) {
    i <= j <= |rows| && Below(rows[..i], v) && Same(rows[i..j], v) && Above(rows[j..], v)
  }

  lemma DivideAt(rows: seq<Row>, v: Key) returns (i: nat, j: nat)
    requires RowsSorted(rows)
    ensures DividedAt(rows, v, i, j)
  {
    hide *;
    i := 0;
    while i < |rows| && Rank(rows[i].key) < Rank(v)
      invariant i <= |rows| && forall k :: 0 <= k < i ==> Rank(rows[k].key) < Rank(v)
    {
      i := i + 1;
    }
    j := i;
    while j < |rows| && rows[j].key == v
      invariant i <= j <= |rows| && forall k :: i <= k < j ==> rows[k].key == v
    {
      j := j + 1;
    }
    if j < |rows| && Rank(rows[j].key) == Rank(v) { RankInjective(rows[j].key, v); }
    if i < j < |rows| { SortedPair(rows, i, j); }
    DivideIntro(rows, v, i, j);
  }

  lemma SortedPair(rows: seq<Row>, i: nat, j: nat)
    requires RowsSorted(rows) && i < j < |rows|
    ensures Rank(rows[i].key) <= Rank(rows[j].key)
  {
  }

  lemma DivideIntro(rows: seq<Row>, v: Key, i: nat, j: nat)
    requires RowsSorted(rows) && i <= j <= |rows| && (forall k :: 0 <= k < i ==> Rank(rows[k].key) < Rank(v))
    requires (forall k :: i <= k < j ==> rows[k].key == v) && (j < |rows| ==> Rank(v) < Rank(rows[j].key))
    ensures DividedAt(rows, v, i, j)
  {
    hide Rank;
    forall k | 0 <= k < |rows[j..]| ensures Rank(v) < Rank(rows[j..][k].key) {
      assert k > 0 ==> Rank(rows[j].key) <= Rank(rows[j + k].key);
    }
  }

  /** The part of the rows a search is for. */
  function Part(op: Op, rows: seq<Row>, i: nat, j: nat): seq<Row>
    requires i <= j <= |rows|
  {
    match op
    case Lt => rows[..i]
    case Le => rows[..j]
    case Eq => rows[i..j]
    case Gt => rows[j..]
    case Ge => rows[i..]
  }

  lemma {:induction false} AdmittedAll(op: Op, rows: seq<Row>, v: Key)
    requires forall i :: 0 <= i < |rows| ==> Admits(op, rows[i].key, v)
    ensures Admitted(op, rows, v) == rows
  {
    if rows != [] {
      AdmittedAll(op, rows[..|rows| - 1], v);
    }
  }

  lemma AdmittedBelow(op: Op, rows: seq<Row>, v: Key)
    requires Below(rows, v)
    ensures Admitted(op, rows, v) == if op.Lt? || op.Le? then rows else []
  {
    if op.Lt? || op.Le? { AdmittedAll(op, rows, v); } else { AdmittedNone(op, rows, v); }
  }

  lemma AdmittedSame(op: Op, rows: seq<Row>, v: Key)
    requires Same(rows, v)
    ensures Admitted(op, rows, v) == if op.Eq? || op.Le? || op.Ge? then rows else []
  {
    if op.Eq? || op.Le? || op.Ge? { AdmittedAll(op, rows, v); } else { AdmittedNone(op, rows, v); }
  }

  lemma AdmittedAbove(op: Op, rows: seq<Row>, v: Key)
    requires Above(rows, v)
    ensures Admitted(op, rows, v) == if op.Gt? || op.Ge? then rows else []
  {
    if op.Gt? || op.Ge? { AdmittedAll(op, rows, v); } else { AdmittedNone(op, rows, v); }
  }

  lemma AdmittedPart(op: Op, rows: seq<Row>, v: Key, i: nat, j: nat)
    requires DividedAt(rows, v, i, j)
    ensures Admitted(op, rows, v) == Part(op, rows, i, j)
  {
    hide Admitted;
    hide Below;
    hide Same;
    hide Above;
    var a, b, c := rows[..i], rows[i..j], rows[j..];
    assert rows == a + (b + c) && rows[..j] == a + b && rows[i..] == b + c;
    AdmittedConcat(op, a, b + c, v);
    AdmittedConcat(op, b, c, v);
    AdmittedBelow(op, a, v);
    AdmittedSame(op, b, v);
    AdmittedAbove(op, c, v);
  }

  /** `out` is the part of the rows whose keys stand to `v` as the operator says. */
  ghost predicate Answers(op: Op, rows: seq<Row>, v: Key, out: seq<Row>) {
    exists i, j :: DividedAt(rows, v, i, j) && out == Part(op, rows, i, j)
  }

  lemma SortedAnswers(op: Op, rows: seq<Row>, v: Key)
    requires RowsSorted(rows)
    ensures Answers(op, rows, v, Admitted(op, rows, v))
  {
    hide Admitted;
    hide DividedAt;
    var i, j := DivideAt(rows, v);
    AdmittedPart(op, rows, v, i, j);
  }

  /** Below, equal and above make up all rows in order; the weak bounds are the strict ones and the equal rows. */
  lemma SearchesDivide(rows: seq<Row>, v: Key)
    requires RowsSorted(rows)
    ensures Admitted(Lt, rows, v) + Admitted(Eq, rows, v) + Admitted(Gt, rows, v) == rows
    ensures Admitted(Le, rows, v) == Admitted(Lt, rows, v) + Admitted(Eq, rows, v)
    ensures Admitted(Ge, rows, v) == Admitted(Eq, rows, v) + Admitted(Gt, rows, v)
    ensures Below(Admitted(Lt, rows, v), v) && Same(Admitted(Eq, rows, v), v) && Above(Admitted(Gt, rows, v), v)
  {
    hide Admitted;
    hide RowsSorted;
    hide Below;
    hide Same;
    hide Above;
    var i, j := DivideAt(rows, v);
    AdmittedPart(Lt, rows, v, i, j);
    AdmittedPart(Le, rows, v, i, j);
    AdmittedPart(Eq, rows, v, i, j);
    AdmittedPart(Gt, rows, v, i, j);
    AdmittedPart(Ge, rows, v, i, j);
  }

  // ── everything still to be found lies to the right ─────────────────────────

  /** A leaf that stores an admitted key cannot end left of the child a read descends to. */
  lemma DescendKeepsAhead(op: Op, pages: Pages, root: PageId, g: Shape, pend: set<PageId>, kind: Kind, p: PageId,
                          v: Key, r: Row)
    requires TreeInv(pages, root, g, pend, kind) && p in g.spans && g.spans[p].level > 0
    requires Admits(op, r.key, v) && FoundFrom(pages, g, r, g.spans[p].a)
    ensures p in pages && pages[p].Internal? && RouteRead(op, pages[p].keys, v) < |pages[p].children|
    ensures var child := pages[p].children[RouteRead(op, pages[p].keys, v)];
            child in g.spans && FoundFrom(pages, g, r, g.spans[child].a)
  {
    ReadTarget(op, pages, root, g, pend, kind, p, v);
    var q := RowHome(pages, root, g, pend, kind, r, g.spans[p].a);
    var idx := RouteRead(op, pages[p].keys, v);
    var child := pages[p].children[idx];
    hide TreeInv;
    hide FoundFrom;
    if idx > 0 {
      LeftOfChild(g, q, child, r.key, v);
    }
    FoundAt(pages, g, q, r, g.spans[child].a);
  }

  lemma ReadTarget(op: Op, pages: Pages, root: PageId, g: Shape, pend: set<PageId>, kind: Kind, p: PageId, v: Key)
    requires TreeInv(pages, root, g, pend, kind) && p in g.spans && g.spans[p].level > 0
    ensures p in pages && pages[p].Internal? && RouteRead(op, pages[p].keys, v) < |pages[p].children| && ShapeOk(g)
    ensures var idx := RouteRead(op, pages[p].keys, v);
            var child := pages[p].children[idx];
            && child in g.spans && g.spans[child].level + 1 == g.spans[p].level
            && (idx == 0 ==> g.spans[child].a == g.spans[p].a)
            && (idx > 0 ==> !FromLeft(op) && g.spans[child].a in g.fence && g.fence[g.spans[child].a] < Rank(v))
  {
    hide TreeInv;
    TreePage(pages, root, g, pend, kind, p);
    ShapeParts(pages, root, g, pend, kind);
  }

  /** The leaf a row sits in, and the key bounds of that leaf. */
  lemma RowHome(pages: Pages, root: PageId, g: Shape, pend: set<PageId>, kind: Kind, r: Row, x: real)
    returns (q: PageId)
    requires TreeInv(pages, root, g, pend, kind) && FoundFrom(pages, g, r, x)
    ensures q in g.spans && q in pages && x <= g.spans[q].a && r in RowSet(pages[q]) && g.spans[q].level == 0
    ensures g.spans[q].a in g.fence && g.spans[q].b in g.fence
    ensures g.fence[g.spans[q].a] <= Rank(r.key) <= g.fence[g.spans[q].b]
  {
    q :| q in g.spans && q in pages && x <= g.spans[q].a && r in RowSet(pages[q]);
    hide TreeInv;
    TreePage(pages, root, g, pend, kind, q);
  }

  lemma LeftOfChild(g: Shape, q: PageId, child: PageId, k: Key, v: Key)
    requires ShapeOk(g) && q in g.spans && g.spans[q].level == 0 && child in g.spans
    requires g.spans[q].b in g.fence && Rank(k) <= g.fence[g.spans[q].b]
    requires g.spans[child].a in g.fence && g.fence[g.spans[child].a] < Rank(v) <= Rank(k)
    ensures g.spans[child].a <= g.spans[q].a
  {
  }

  /** Reading a leaf finds the row there, or the row lies right of it and the scan goes on. */
  lemma LeafKeepsAhead(op: Op, pages: Pages, root: PageId, g: Shape, pend: set<PageId>, kind: Kind, p: PageId, v: Key,
                       r: Row)
    requires TreeInv(pages, root, g, pend, kind) && p in g.spans && g.spans[p].level == 0
    requires Admits(op, r.key, v) && FoundFrom(pages, g, r, g.spans[p].a)
    ensures p in pages && pages[p].Leaf?
    ensures r in Hits(op, pages[p], v) ||
            (!PastIn(op, pages[p], v) && pages[p].next != NO_PAGE && pages[p].next in g.spans
             && FoundFrom(pages, g, r, g.spans[pages[p].next].a))
  {
    hide TreeInv;
    TreePage(pages, root, g, pend, kind, p);
    ShapeParts(pages, root, g, pend, kind);
    var n := pages[p];
    HitsAll(op, n, v);
    AdmittedIn(op, LeafRows(n), v, r);
    var q := RowHome(pages, root, g, pend, kind, r, g.spans[p].a);
    if q != p {
      RightOf(g, p, q);
      if PastIn(op, n, v) {
        var stop := StopOf(op, n, v);
        FenceBetween(g, p, q);
        PastEnds(op, LeafRows(n)[stop].key, r.key, v);
      }
      FoundAt(pages, g, q, r, g.spans[p].b);
    }
  }

  lemma RightOf(g: Shape, p: PageId, q: PageId)
    requires ShapeOk(g) && p in g.spans && q in g.spans && p != q && g.spans[p].level == g.spans[q].level
    requires g.spans[p].a <= g.spans[q].a
    ensures g.spans[p].b <= g.spans[q].a < 1.0
  {
    assert SpanOk(g, p) && SpanOk(g, q);
  }

  lemma FenceBetween(g: Shape, p: PageId, q: PageId)
    requires ShapeOk(g) && p in g.spans && q in g.spans && g.spans[p].b <= g.spans[q].a
    ensures g.spans[p].b in g.fence && g.spans[q].a in g.fence && g.fence[g.spans[p].b] <= g.fence[g.spans[q].a]
  {
    assert SpanOk(g, p) && SpanOk(g, q);
  }

  // ── reading a quiescent tree in sequence ───────────────────────────────────

  /** No leaf that starts left of `x` holds an admitted row. */
  ghost predicate LeftClear(op: Op, pages: Pages, g: Shape, v: Key, x: real) {
    forall q, r :: q in g.spans && q in pages && g.spans[q].a < x && r in LeafRows(pages[q]) ==> !Admits(op, r.key, v)
  }

  /** Descending keeps everything to the left free of admitted rows. */
  lemma DescendClear(op: Op, pages: Pages, root: PageId, g: Shape, pend: set<PageId>, kind: Kind, p: PageId, v: Key)
    requires TreeInv(pages, root, g, pend, kind) && p in g.spans && g.spans[p].level > 0
    requires LeftClear(op, pages, g, v, g.spans[p].a)
    ensures p in pages && pages[p].Internal? && RouteRead(op, pages[p].keys, v) < |pages[p].children|
    ensures var child := pages[p].children[RouteRead(op, pages[p].keys, v)];
            child in g.spans && g.spans[child].level + 1 == g.spans[p].level
            && LeftClear(op, pages, g, v, g.spans[child].a)
  {
    ReadTarget(op, pages, root, g, pend, kind, p, v);
    var idx := RouteRead(op, pages[p].keys, v);
    var child := pages[p].children[idx];
    hide TreeInv;
    forall q, r | q in g.spans && q in pages && g.spans[q].a < g.spans[child].a && r in LeafRows(pages[q])
      ensures !Admits(op, r.key, v)
    {
      if Admits(op, r.key, v) && g.spans[p].a <= g.spans[q].a {
        LeafBounds(pages, root, g, pend, kind, q, r);
        LeftOfChild(g, q, child, r.key, v);
      }
    }
  }

  lemma LeafBounds(pages: Pages, root: PageId, g: Shape, pend: set<PageId>, kind: Kind, q: PageId, r: Row)
    requires TreeInv(pages, root, g, pend, kind) && q in g.spans && q in pages && r in LeafRows(pages[q])
    ensures g.spans[q].level == 0 && g.spans[q].a in g.fence && g.spans[q].b in g.fence
    ensures g.fence[g.spans[q].a] <= Rank(r.key) <= g.fence[g.spans[q].b]
  {
    hide TreeInv;
    TreePage(pages, root, g, pend, kind, q);
  }
}
