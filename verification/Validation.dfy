/**
  The structural validator, run on any set of pages: what it accepts, what it returns, that
  it accepts every well-formed tree, and what it does not look at.
 */
module Validation {
  import opened Keys
  import opened Nodes
  import opened Shapes
  import opened Searches
  import opened Trees
  import opened Walks
  import opened Witnesses

  // ── the leftmost leaf ──────────────────────────────────────────────────────

  predicate LeftLink(pages: Pages, p: PageId, q: PageId) {
    p in pages && pages[p].Internal? && pages[p].children != [] && pages[p].children[0] == q
  }

  /** Following first children from `root` visits `path` and ends there. */
  predicate Leftmost(pages: Pages, root: PageId, path: seq<PageId>) {
    && path != [] && path[0] == root
    && (forall i :: 0 <= i < |path| - 1 ==> LeftLink(pages, path[i], path[i + 1]))
    && (path[|path| - 1] in pages ==> pages[path[|path| - 1]].Leaf? || pages[path[|path| - 1]].children == [])
  }

  function Last(path: seq<PageId>): PageId
    requires path != []
  {
    path[|path| - 1]
  }

  // ── chains of leaves ───────────────────────────────────────────────────────

  function LeafEntries(pages: Pages, p: PageId): seq<Entry> {
    if p in pages && pages[p].Leaf? then pages[p].entries else []
  }

  function EntriesAlong(pages: Pages, leaves: seq<PageId>): seq<Entry> {
    if leaves == [] then [] else EntriesAlong(pages, leaves[..|leaves| - 1]) + LeafEntries(pages, leaves[|leaves| - 1])
  }

  ghost predicate AllApart(leaves: seq<PageId>) {
    forall i, j :: 0 <= i < j < |leaves| ==> leaves[i] != leaves[j]
  }

  /** A chain without cycle from `first` to the end mark, with keys that never decrease. */
  ghost predicate GoodChain(pages: Pages, first: PageId, leaves: seq<PageId>) {
    && leaves != [] && leaves[0] == first && Chained(pages, leaves, NO_PAGE) && AllApart(leaves)
    && (forall i :: 0 < i < |leaves| ==> leaves[i] != NO_PAGE)
    && KeysSorted(EntriesAlong(pages, leaves))
  }

  /** Every good chain starts with `walked` and goes on to `p`. */
  ghost predicate Forced(pages: Pages, first: PageId, walked: seq<PageId>, p: PageId) {
    forall leaves :: GoodChain(pages, first, leaves) ==> walked + [p] <= leaves
  }

  ghost predicate NoChain(pages: Pages, first: PageId) {
    forall leaves :: !GoodChain(pages, first, leaves)
  }

  lemma EntriesAppend(pages: Pages, leaves: seq<PageId>, p: PageId)
    ensures EntriesAlong(pages, leaves + [p]) == EntriesAlong(pages, leaves) + LeafEntries(pages, p)
  {
    assert (leaves + [p])[..|leaves|] == leaves;
  }

  lemma {:induction false} EntriesPrefix(pages: Pages, a: seq<PageId>, b: seq<PageId>)
    requires a <= b
    ensures EntriesAlong(pages, a) <= EntriesAlong(pages, b)
    decreases |b|
  {
    if |a| < |b| {
      EntriesPrefix(pages, a, b[..|b| - 1]);
    } else {
      assert a == b;
    }
  }

  /** The walked prefix of a chain: linked leaves, none twice. */
  ghost predicate Walked(pages: Pages, first: PageId, walked: seq<PageId>, p: PageId) {
    && AllApart(walked) && (walked + [p])[0] == first
    && (forall i :: 0 <= i < |walked| ==> Leads(pages, walked + [p], i))
  }

  /** Page `i` of the list is a leaf that links to the next page of the list. */
  predicate Leads(pages: Pages, ps: seq<PageId>, i: nat) {
    i + 1 < |ps| && ps[i] in pages && pages[ps[i]].Leaf? && pages[ps[i]].next == ps[i + 1] != NO_PAGE
  }

  // ── the verdict at one page ────────────────────────────────────────────────

  lemma OnChain(pages: Pages, first: PageId, walked: seq<PageId>, p: PageId, leaves: seq<PageId>)
    requires Forced(pages, first, walked, p) && GoodChain(pages, first, leaves)
    ensures |walked| < |leaves| && leaves[..|walked|] == walked && leaves[|walked|] == p
    ensures p in pages && pages[p].Leaf? && p !in walked
    ensures |leaves| == |walked| + 1 <==> pages[p].next == NO_PAGE
    ensures |leaves| > |walked| + 1 ==> leaves[|walked| + 1] == pages[p].next
  {
    hide EntriesAlong;
    hide KeysSorted;
    var k := |walked|;
    assert leaves[..k + 1] == walked + [p];
    assert leaves[k] == p;
    assert leaves[..k] == walked;
    forall i | 0 <= i < k ensures walked[i] != p {
      assert walked[i] == leaves[i];
    }
    if k + 1 < |leaves| {
      assert pages[leaves[k]].next == leaves[k + 1] != NO_PAGE;
    }
  }

  /** A missing page, a page that is no leaf, or one seen before ends every hope. */
  lemma BadPage(pages: Pages, first: PageId, walked: seq<PageId>, p: PageId)
    requires Forced(pages, first, walked, p) && (p in walked || p !in pages || !pages[p].Leaf?)
    ensures NoChain(pages, first)
  {
    hide GoodChain;
    hide Forced;
    forall leaves ensures !GoodChain(pages, first, leaves) {
      if GoodChain(pages, first, leaves) { OnChain(pages, first, walked, p, leaves); }
    }
  }

  lemma BadOrder(pages: Pages, first: PageId, walked: seq<PageId>, p: PageId)
    requires Forced(pages, first, walked, p) && !KeysSorted(EntriesAlong(pages, walked + [p]))
    ensures NoChain(pages, first)
  {
    forall leaves ensures !GoodChain(pages, first, leaves) {
      assert GoodChain(pages, first, leaves) ==> walked + [p] <= leaves;
      if walked + [p] <= leaves {
        EntriesPrefix(pages, walked + [p], leaves);
        SortedPrefix(EntriesAlong(pages, walked + [p]), EntriesAlong(pages, leaves));
      }
    }
  }

  lemma SortedPrefix(a: seq<Entry>, b: seq<Entry>)
    requires a <= b
    ensures KeysSorted(b) ==> KeysSorted(a)
  {
    assert forall i :: 0 <= i < |a| ==> a[i] == b[i];
  }

  lemma ForcedOn(pages: Pages, first: PageId, walked: seq<PageId>, p: PageId)
    requires Forced(pages, first, walked, p) && p in pages && pages[p].Leaf? && pages[p].next != NO_PAGE
    ensures Forced(pages, first, walked + [p], pages[p].next)
  {
    hide GoodChain;
    forall leaves | GoodChain(pages, first, leaves) ensures walked + [p] + [pages[p].next] <= leaves {
      OnChain(pages, first, walked, p, leaves);
      var k := |walked|;
      assert leaves[..k + 2] == leaves[..k] + [leaves[k]] + [leaves[k + 1]];
    }
  }

  lemma WalkedOn(pages: Pages, first: PageId, walked: seq<PageId>, p: PageId)
    requires Walked(pages, first, walked, p) && p !in walked && p in pages && pages[p].Leaf? && pages[p].next != NO_PAGE
    ensures Walked(pages, first, walked + [p], pages[p].next)
  {
    var w', q := walked + [p], pages[p].next;
    forall i | 0 <= i < |w'| ensures Leads(pages, w' + [q], i) {
      if i < |walked| { assert Leads(pages, walked + [p], i); }
    }
  }

  lemma ChainEnds(pages: Pages, first: PageId, walked: seq<PageId>, p: PageId)
    requires Walked(pages, first, walked, p) && Forced(pages, first, walked, p) && p !in walked && p in pages
    requires pages[p].Leaf?
    requires pages[p].next == NO_PAGE && KeysSorted(EntriesAlong(pages, walked + [p]))
    ensures GoodChain(pages, first, walked + [p])
    ensures forall leaves :: GoodChain(pages, first, leaves) ==> leaves == walked + [p]
  {
    WalkedChain(pages, first, walked, p);
    hide GoodChain;
    hide Forced;
    forall leaves | GoodChain(pages, first, leaves) ensures leaves == walked + [p] {
      OnChain(pages, first, walked, p, leaves);
    }
  }

  lemma WalkedChain(pages: Pages, first: PageId, walked: seq<PageId>, p: PageId)
    requires Walked(pages, first, walked, p) && p !in walked && p in pages && pages[p].Leaf?
    requires pages[p].next == NO_PAGE && KeysSorted(EntriesAlong(pages, walked + [p]))
    ensures GoodChain(pages, first, walked + [p])
  {
    hide EntriesAlong;
    hide KeysSorted;
    var all := walked + [p];
    forall i | 0 < i < |all| ensures all[i] != NO_PAGE {
      assert Leads(pages, all, i - 1);
    }
    forall i | 0 <= i < |all| ensures all[i] in pages && pages[all[i]].Leaf? {
      assert i < |walked| ==> Leads(pages, all, i);
    }
    forall i | 0 <= i < |all| - 1 ensures pages[all[i]].next == all[i + 1] {
      assert Leads(pages, all, i);
    }
  }

  // ── the validator ──────────────────────────────────────────────────────────

  /** Append the entries of a leaf, comparing each key with the one before it. */
  method Append(out: seq<Entry>, entries: seq<Entry>) returns (ok: bool, out': seq<Entry>)
    requires KeysSorted(out)
    ensures ok <==> KeysSorted(out + entries)
    ensures ok ==> out' == out + entries
  {
    out' := out;
    var i := 0;
    while i < |entries|
      invariant i <= |entries| && out' == out + entries[..i] && KeysSorted(out')
    {
      if out' != [] && Less(entries[i].key, out'[|out'| - 1].key) {
        var k := |out'|;
        assert (out + entries)[k - 1] == out'[k - 1] && (out + entries)[k] == entries[i];
        return false, out';
      }
      out' := out' + [entries[i]];
      i := i + 1;
    }
    assert entries[..i] == entries;
    return true, out';
  }

  /**
    `validate`, for a descent that ends: it succeeds exactly if the leftmost leaf heads a
    chain without cycle whose keys never decrease, and returns the entries of that chain.
   */
  method Validate(pages: Pages, root: PageId, ghost path: seq<PageId>) returns (r: Option<seq<Entry>>)
    requires Leftmost(pages, root, path)
    ensures r.Some? <==> exists leaves :: GoodChain(pages, Last(path), leaves)
    ensures r.Some? ==> forall leaves :: GoodChain(pages, Last(path), leaves) ==> r.value == EntriesAlong(pages, leaves)
  {
    var p := root;
    ghost var d := 0;
    while p in pages && pages[p].Internal? && pages[p].children != []
      invariant d < |path| && p == path[d]
      decreases |path| - d
    {
      assert d + 1 < |path| ==> LeftLink(pages, path[d], path[d + 1]);
      p := pages[p].children[0];
      d := d + 1;
    }
    assert d + 1 < |path| ==> LeftLink(pages, path[d], path[d + 1]);
    assert p == Last(path);
    r := WalkChain(pages, p);
  }

  method WalkChain(pages: Pages, first: PageId) returns (r: Option<seq<Entry>>)
    ensures r.Some? <==> exists leaves :: GoodChain(pages, first, leaves)
    ensures r.Some? ==> forall leaves :: GoodChain(pages, first, leaves) ==> r.value == EntriesAlong(pages, leaves)
  {
    hide *;
    var p := first;
    var out: seq<Entry> := [];
    var seen: set<PageId> := {};
    ghost var walked: seq<PageId> := [];
    WalkStart(pages, first);
    while true
      invariant Walked(pages, first, walked, p) && Forced(pages, first, walked, p)
      invariant seen == (set x | x in walked) && seen <= pages.Keys
      invariant out == EntriesAlong(pages, walked) && KeysSorted(out)
      decreases |pages.Keys - seen|
    {
      if p in seen || p !in pages || !pages[p].Leaf? {
        BadPage(pages, first, walked, p);
        NoChainMeans(pages, first);
        return None;
      }
      var ok, out' := Append(out, pages[p].entries);
      EntriesAppend(pages, walked, p);
      LeafEntriesIs(pages, p);
      if !ok {
        BadOrder(pages, first, walked, p);
        NoChainMeans(pages, first);
        return None;
      }
      if pages[p].next == NO_PAGE {
        ChainEnds(pages, first, walked, p);
        return Some(out');
      }
      WalkedOn(pages, first, walked, p);
      ForcedOn(pages, first, walked, p);
      Shrinks(pages.Keys, seen, p);
      out, seen, walked, p := out', seen + {p}, walked + [p], pages[p].next;
    }
  }

  lemma WalkStart(pages: Pages, first: PageId)
    ensures Walked(pages, first, [], first) && Forced(pages, first, [], first)
    ensures EntriesAlong(pages, []) == [] && KeysSorted([])
  {
    hide Chained;
    assert [] + [first] == [first];
    forall leaves | GoodChain(pages, first, leaves) ensures [first] <= leaves {
    }
  }

  lemma NoChainMeans(pages: Pages, first: PageId)
    requires NoChain(pages, first)
    ensures !exists leaves :: GoodChain(pages, first, leaves)
  {
    hide GoodChain;
  }

  lemma LeafEntriesIs(pages: Pages, p: PageId)
    requires p in pages && pages[p].Leaf?
    ensures LeafEntries(pages, p) == pages[p].entries
  {
  }

  lemma Shrinks(all: set<PageId>, seen: set<PageId>, p: PageId)
    requires p in all && p !in seen
    ensures |all - (seen + {p})| < |all - seen|
  {
    assert all - seen == (all - (seen + {p})) + {p};
  }

  // ── every well-formed tree is accepted ─────────────────────────────────────

  lemma {:induction false} FirstLeaf(pages: Pages, ps: seq<PageId>, level: nat)
    requires ps != [] && LeavesUnder(pages, ps[0], level) != []
    ensures LeavesOfAll(pages, ps, level) != []
    ensures LeavesOfAll(pages, ps, level)[0] == LeavesUnder(pages, ps[0], level)[0]
    decreases |ps|
  {
    hide LeavesUnder;
    if |ps| > 1 {
      FirstLeaf(pages, ps[..|ps| - 1], level);
    } else {
      assert LeavesOfAll(pages, ps[..0], level) == [];
    }
  }

  /** The descent along first children ends at the first leaf in order. */
  lemma {:induction false} DescentEnds(pages: Pages, p: PageId, level: nat, lo: real, hi: real)
    returns (path: seq<PageId>)
    requires Bounded(pages, p, level, lo, hi)
    ensures Leftmost(pages, p, path) && LeavesUnder(pages, p, level) != []
    ensures Last(path) == LeavesUnder(pages, p, level)[0]
    decreases level
  {
    if level == 0 {
      path := [p];
    } else {
      var q := pages[p].children[0];
      assert Bounded(pages, q, level - 1, LoOf(pages[p], lo, 0), HiOf(pages[p], hi, 0));
      var rest := DescentEnds(pages, q, level - 1, LoOf(pages[p], lo, 0), HiOf(pages[p], hi, 0));
      FirstLeaf(pages, pages[p].children, level - 1);
      path := [p] + rest;
      PathCons(pages, p, q, rest);
    }
  }

  lemma PathCons(pages: Pages, p: PageId, q: PageId, rest: seq<PageId>)
    requires LeftLink(pages, p, q) && Leftmost(pages, q, rest)
    ensures Leftmost(pages, p, [p] + rest) && Last([p] + rest) == Last(rest)
  {
    var path := [p] + rest;
    forall i | 0 <= i < |path| - 1 ensures LeftLink(pages, path[i], path[i + 1]) {
      if i > 0 { assert LeftLink(pages, rest[i - 1], rest[i]); }
    }
  }

  function PairSeq(rows: seq<Row>): seq<Entry> {
    seq(|rows|, i requires 0 <= i < |rows| => Entry(rows[i].key, rows[i].rid))
  }

  lemma {:induction false} AlongIsFlat(pages: Pages, leaves: seq<PageId>)
    ensures EntriesAlong(pages, leaves) == PairSeq(Flat(pages, leaves))
    decreases |leaves|
  {
    if leaves != [] {
      var k := |leaves| - 1;
      AlongIsFlat(pages, leaves[..k]);
      assert LeafEntries(pages, leaves[k]) == PairSeq(if leaves[k] in pages then LeafRows(pages[leaves[k]]) else []);
    }
  }

  /** On a well-formed tree the validator returns the pairs of the tree, in order. */
  lemma WellFormedAccepted(pages: Pages, root: PageId, depth: nat, rows: seq<Row>) returns (path: seq<PageId>)
    requires WellFormed(pages, root, depth, rows) && NO_PAGE !in pages
    ensures Leftmost(pages, root, path) && GoodChain(pages, Last(path), LeavesUnder(pages, root, depth))
    ensures EntriesAlong(pages, LeavesUnder(pages, root, depth)) == PairSeq(rows)
  {
    var leaves := LeavesUnder(pages, root, depth);
    path := DescentEnds(pages, root, depth, BOTTOM, TOP);
    hide LeavesUnder;
    hide Bounded;
    hide Leftmost;
    AlongIsFlat(pages, leaves);
    hide EntriesAlong;
    hide Flat;
  }

  // ── what the validator does not see ────────────────────────────────────────

  /** A root whose separator is below the keys of its left leaf. */
  function MisroutedPages(): Pages {
    map[1 := Internal([Int(0)], [2, 3]), 2 := Leaf([At(1, 0)], [], 3), 3 := Leaf([At(5, 0)], [], NO_PAGE)]
  }

  /** The validator accepts it, though a lookup of the stored key 1 lands to the right of it. */
  lemma MisroutingUnseen()
    ensures var pages := MisroutedPages();
            && Leftmost(pages, 1, [1, 2]) && GoodChain(pages, 2, [2, 3]) && LeafHas(pages[2], At(1, 0))
            && Landing(Eq, pages, 1, 1, Int(1)) == 3 && pages[3].entries == [At(5, 0)] && pages[3].next == NO_PAGE
  {
    var pages := MisroutedPages();
    assert LeftLink(pages, 1, 2);
    EntriesAppend(pages, [2], 3);
    EntriesAppend(pages, [], 2);
    assert [2] + [3] == [2, 3] && [] + [2] == [2];
    assert EntriesAlong(pages, [2, 3]) == [At(1, 0), At(5, 0)];
  }
}
