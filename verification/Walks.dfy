/**
  Which leaf of the chain a walk to the right finds a pair in.
 */
module Walks {
  import opened Keys
  import opened Nodes
  import opened Shapes
  import opened Steps
  import opened Searches
  import opened Trees
  import opened Lookups

  /** The leaf a descent from `p` lands on. */
  function Landing(op: Op, pages: Pages, p: PageId, level: nat, v: Key): PageId
    decreases level
  {
    if level == 0 || p !in pages || pages[p].Leaf? then p
    else
      var idx := RouteRead(op, pages[p].keys, v);
      if idx < |pages[p].children| then Landing(op, pages, pages[p].children[idx], level - 1, v) else p
  }

  predicate LeafHas(n: Node, e: Entry) {
    n.Leaf? && e in n.entries
  }

  predicate HasAt(pages: Pages, leaves: seq<PageId>, j: nat, e: Entry) {
    j < |leaves| && leaves[j] in pages && LeafHas(pages[leaves[j]], e)
  }

  ghost predicate HasPair(rows: seq<Row>, key: Key, rid: RowId) {
    exists i :: 0 <= i < |rows| && rows[i].key == key && rows[i].rid == rid
  }

  /** Position of the first occurrence of a pair in a leaf, or the number of entries. */
  method FindPair(entries: seq<Entry>, e: Entry) returns (i: nat)
    ensures i <= |entries| && (forall j :: 0 <= j < i ==> entries[j] != e)
    ensures i < |entries| ==> entries[i] == e
    ensures i < |entries| <==> e in entries
  {
    i := 0;
    while i < |entries| && entries[i] != e
      invariant i <= |entries| && forall j :: 0 <= j < i ==> entries[j] != e
    {
      i := i + 1;
    }
  }

  lemma RowOfEntry(n: Node, e: Entry) returns (r: Row)
    requires LeafHas(n, e)
    ensures r in LeafRows(n) && r.key == e.key && r.rid == e.rid
  {
    var i :| 0 <= i < |n.entries| && n.entries[i] == e;
    r := LeafRows(n)[i];
  }

  lemma EntryOfRow(n: Node, r: Row)
    requires r in LeafRows(n)
    ensures LeafHas(n, Entry(r.key, r.rid))
  {
    var i :| 0 <= i < |LeafRows(n)| && LeafRows(n)[i] == r;
    assert n.entries[i] == Entry(r.key, r.rid);
  }

  /** A pair is stored exactly if some leaf of the chain holds it. */
  lemma StoredSomewhere(pages: Pages, leaves: seq<PageId>, e: Entry)
    ensures HasPair(Flat(pages, leaves), e.key, e.rid) <==> exists j: nat :: HasAt(pages, leaves, j, e)
  {
    if HasPair(Flat(pages, leaves), e.key, e.rid) {
      var i :| 0 <= i < |Flat(pages, leaves)| && Flat(pages, leaves)[i].key == e.key
               && Flat(pages, leaves)[i].rid == e.rid;
      var r := Flat(pages, leaves)[i];
      FlatIn(pages, leaves, r);
      var j :| 0 <= j < |leaves| && leaves[j] in pages && r in LeafRows(pages[leaves[j]]);
      EntryOfRow(pages[leaves[j]], r);
      assert HasAt(pages, leaves, j, e);
    }
    if j: nat :| HasAt(pages, leaves, j, e) {
      var r := RowOfEntry(pages[leaves[j]], e);
      FlatIn(pages, leaves, r);
      assert r in Flat(pages, leaves);
    }
  }

  /** Left of where a read lands the pair is nowhere. */
  lemma NotLeft(pages: Pages, leaves: seq<PageId>, start: nat, j: nat, e: Entry)
    requires start <= |leaves| && j < start && Admitted(Eq, Flat(pages, leaves[..start]), e.key) == []
    ensures !HasAt(pages, leaves, j, e)
  {
    if HasAt(pages, leaves, j, e) {
      var r := RowOfEntry(pages[leaves[j]], e);
      assert leaves[..start][j] == leaves[j];
      FlatIn(pages, leaves[..start], r);
      AdmittedIn(Eq, Flat(pages, leaves[..start]), e.key, r);
    }
  }

  /** Right of a leaf that ends with a greater key the pair is nowhere. */
  lemma NotRight(pages: Pages, root: PageId, g: Shape, kind: Kind, leaves: seq<PageId>, i: nat, j: nat, e: Entry)
    requires TreeInv(pages, root, g, {}, kind) && Tiling(g, leaves, 0.0, 1.0) && i < j < |leaves|
    requires leaves[i] in pages && pages[leaves[i]].Leaf?
    requires exists x :: x in pages[leaves[i]].entries && Less(e.key, x.key)
    ensures !HasAt(pages, leaves, j, e)
  {
    hide TreeInv;
    LeafLink(pages, root, g, {}, kind, leaves[i]);
    LeafLink(pages, root, g, {}, kind, leaves[j]);
    ShapeOkParts(g);
    TilingOrder(g, leaves, 0.0, 1.0, i, j);
    FenceOrder(g, g.spans[leaves[i]].b, g.spans[leaves[j]].a);
    hide ShapeOk;
    hide Tiling;
  }

  lemma LandingStep(op: Op, pages: Pages, p: PageId, level: nat, v: Key)
    requires level > 0 && p in pages && pages[p].Internal? && RouteRead(op, pages[p].keys, v) < |pages[p].children|
    ensures Landing(op, pages, p, level, v) ==
              Landing(op, pages, pages[p].children[RouteRead(op, pages[p].keys, v)], level - 1, v)
  {
  }

  lemma LandingEnd(op: Op, pages: Pages, p: PageId, v: Key)
    ensures Landing(op, pages, p, 0, v) == p
  {
  }

  // ── a walk that stops at empty leaves ──────────────────────────────────────

  predicate NonEmptyAt(pages: Pages, leaves: seq<PageId>, x: nat) {
    x < |leaves| && leaves[x] in pages && pages[leaves[x]].Leaf? && pages[leaves[x]].entries != []
  }

  /** Some leaf from `start` on holds the pair, and no leaf before it is empty. */
  ghost predicate Reached(pages: Pages, leaves: seq<PageId>, start: nat, e: Entry) {
    exists j: nat :: start <= j && HasAt(pages, leaves, j, e) && forall x :: start <= x < j ==>
      NonEmptyAt(pages, leaves, x)
  }

  lemma ReachedIntro(pages: Pages, leaves: seq<PageId>, start: nat, i: nat, e: Entry)
    requires start <= i && HasAt(pages, leaves, i, e) && (forall x :: start <= x < i ==> NonEmptyAt(pages, leaves, x))
    ensures Reached(pages, leaves, start, e)
  {
    hide HasAt;
    hide NonEmptyAt;
  }

  /** The walk has come to leaf `i` without the pair and stops there. */
  lemma NotReached(pages: Pages, root: PageId, g: Shape, kind: Kind, leaves: seq<PageId>, start: nat, i: nat, e: Entry)
    requires TreeInv(pages, root, g, {}, kind) && Tiling(g, leaves, 0.0, 1.0) && start <= i < |leaves|
    requires forall x: nat :: start <= x <= i ==> !HasAt(pages, leaves, x, e)
    requires leaves[i] in pages && pages[leaves[i]].Leaf?
    requires || i + 1 == |leaves| || pages[leaves[i]].entries == []
             || exists x :: x in pages[leaves[i]].entries && Less(e.key, x.key)
    ensures !Reached(pages, leaves, start, e)
  {
    hide TreeInv;
    hide Tiling;
    forall j: nat |
      start <= j && HasAt(pages, leaves, j, e) && (forall x :: start <= x < j ==> NonEmptyAt(pages, leaves, x))
      ensures false
    {
      assert i < j;
      assert NonEmptyAt(pages, leaves, i);
      NotRight(pages, root, g, kind, leaves, i, j, e);
    }
  }

  /** Where no leaf is empty, the walk reaches every stored pair. */
  lemma WalkComplete(pages: Pages, leaves: seq<PageId>, start: nat, e: Entry)
    requires start <= |leaves| && Admitted(Eq, Flat(pages, leaves[..start]), e.key) == []
    requires forall x: nat :: x < |leaves| ==> NonEmptyAt(pages, leaves, x)
    ensures Reached(pages, leaves, start, e) <==> HasPair(Flat(pages, leaves), e.key, e.rid)
  {
    hide LeafHas;
    StoredSomewhere(pages, leaves, e);
    if j: nat :| HasAt(pages, leaves, j, e) {
      if j < start { NotLeft(pages, leaves, start, j, e); }
    }
  }

  /** The leaf an insert of `v` lands on. */
  function LandingInsert(pages: Pages, p: PageId, level: nat, v: Key): PageId
    decreases level
  {
    if level == 0 || p !in pages || pages[p].Leaf? then p
    else
      var idx := RouteInsert(pages[p].keys, v);
      if idx < |pages[p].children| then LandingInsert(pages, pages[p].children[idx], level - 1, v) else p
  }

  lemma LandingInsertStep(pages: Pages, p: PageId, level: nat, v: Key)
    requires level > 0 && p in pages && pages[p].Internal? && RouteInsert(pages[p].keys, v) < |pages[p].children|
    ensures LandingInsert(pages, p, level, v) ==
              LandingInsert(pages, pages[p].children[RouteInsert(pages[p].keys, v)], level - 1, v)
  {
  }

  lemma LandingInsertEnd(pages: Pages, p: PageId, level: nat, v: Key)
    requires p in pages && pages[p].Leaf?
    ensures LandingInsert(pages, p, level, v) == p
  {
  }

  /** A read never lands right of a separator equal to its key. */
  ghost predicate StartsBelow(g: Shape, p: PageId, v: Key) {
    p in g.spans && (g.spans[p].a == 0.0 || (g.spans[p].a in g.fence && g.fence[g.spans[p].a] < Rank(v)))
  }
}
