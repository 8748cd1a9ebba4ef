/**
  Row-id patches that are all made in place: when a batch of patches finds every pair it is
  to replace, and what it then does to the rows, counted with multiplicity.
 */
module InPlace {
  import opened Keys
  import opened Nodes
  import opened Shapes
  import opened Steps
  import opened Searches
  import opened Trees
  import opened Walks
  import opened Sorting
  import opened Merges
  import opened Accounts
  import opened Patches

  // ── old and new pairs with multiplicity ────────────────────────────────────

  function OldPair(x: Patch): Entry {
    Entry(x.key, x.was)
  }

  function NewPair(x: Patch): Entry {
    Entry(x.key, x.now)
  }

  function OldSeq(ps: seq<Patch>): seq<Entry> {
    seq(|ps|, i requires 0 <= i < |ps| => OldPair(ps[i]))
  }

  function NewSeq(ps: seq<Patch>): seq<Entry> {
    seq(|ps|, i requires 0 <= i < |ps| => NewPair(ps[i]))
  }

  function OldBag(ps: seq<Patch>): multiset<Entry> {
    multiset(OldSeq(ps))
  }

  function NewBag(ps: seq<Patch>): multiset<Entry> {
    multiset(NewSeq(ps))
  }

  lemma BagsConcat(a: seq<Patch>, b: seq<Patch>)
    ensures OldBag(a + b) == OldBag(a) + OldBag(b) && NewBag(a + b) == NewBag(a) + NewBag(b)
  {
    assert OldSeq(a + b) == OldSeq(a) + OldSeq(b);
    assert NewSeq(a + b) == NewSeq(a) + NewSeq(b);
  }

  lemma BagsOne(x: Patch)
    ensures OldBag([x]) == multiset{OldPair(x)} && NewBag([x]) == multiset{NewPair(x)}
  {
    assert OldSeq([x]) == [OldPair(x)] && NewSeq([x]) == [NewPair(x)];
  }

  lemma BagsSize(ps: seq<Patch>)
    ensures |OldBag(ps)| == |ps| == |NewBag(ps)|
  {
  }

  lemma TakeOut(ps: seq<Patch>, x: Patch) returns (a: seq<Patch>, b: seq<Patch>)
    requires x in multiset(ps)
    ensures ps == a + ([x] + b) && multiset(a + b) == multiset(ps) - multiset{x}
  {
    var k :| 0 <= k < |ps| && ps[k] == x;
    a, b := ps[..k], ps[k + 1..];
    assert ps == a + ([x] + b);
  }

  lemma {:induction false} BagsPerm(ps: seq<Patch>, qs: seq<Patch>)
    requires multiset(ps) == multiset(qs)
    ensures OldBag(ps) == OldBag(qs) && NewBag(ps) == NewBag(qs)
    decreases |ps|
  {
    hide *;
    assert |multiset(ps)| == |ps| && |multiset(qs)| == |qs|;
    if ps == [] {
      assert qs == [];
    } else {
      var init, x := ps[..|ps| - 1], ps[|ps| - 1];
      assert ps == init + [x];
      assert multiset(init) == multiset(ps) - multiset{x};
      var a, b := TakeOut(qs, x);
      BagsPerm(init, a + b);
      BagsConcat(init, [x]);
      BagsConcat(a, [x] + b);
      BagsConcat([x], b);
      BagsConcat(a, b);
      BagsMoved(OldBag(a), OldBag([x]), OldBag(b));
      BagsMoved(NewBag(a), NewBag([x]), NewBag(b));
    }
  }

  lemma BagsMoved(a: multiset<Entry>, x: multiset<Entry>, b: multiset<Entry>)
    ensures (a + b) + x == a + (x + b)
  {
  }

  lemma OldInBag(ps: seq<Patch>, e: Entry)
    ensures e in OldBag(ps) <==> e in OldOf(ps)
    ensures e in NewBag(ps) <==> e in NewOf(ps)
  {
    if e in OldBag(ps) {
      assert e in OldSeq(ps);
      var i :| 0 <= i < |ps| && OldSeq(ps)[i] == e;
      assert ps[i] in ps;
    }
    if e in OldOf(ps) {
      var x :| x in ps && e == Entry(x.key, x.was);
      var i :| 0 <= i < |ps| && ps[i] == x;
      assert OldSeq(ps)[i] == e;
    }
    if e in NewBag(ps) {
      assert e in NewSeq(ps);
      var i :| 0 <= i < |ps| && NewSeq(ps)[i] == e;
      assert ps[i] in ps;
    }
    if e in NewOf(ps) {
      var x :| x in ps && e == Entry(x.key, x.now);
      var i :| 0 <= i < |ps| && ps[i] == x;
      assert NewSeq(ps)[i] == e;
    }
  }

  /** Old pairs have been replaced by new ones, one for one. */
  ghost predicate Exchanged(rows: seq<Row>, rows': seq<Row>, ps: seq<Patch>) {
    PairBag(rows') + OldBag(ps) == PairBag(rows) + NewBag(ps)
  }

  /** Patches that change nothing are left out, and none replaces what another has put there. */
  ghost predicate Strict(ps: seq<Patch>) {
    Separate(ps) && forall x :: x in ps ==> x.was != x.now
  }

  /** Where every old pair was stored once, the exchange of pairs is one of sets, and no row comes or goes. */
  lemma ExchangedSets(rows: seq<Row>, rows': seq<Row>, ps: seq<Patch>)
    requires Exchanged(rows, rows', ps) && Separate(ps)
    requires forall e :: e in OldOf(ps) ==> PairBag(rows)[e] == 1
    ensures PairSet(rows') == PairSet(rows) - OldOf(ps) + NewOf(ps)
    ensures |rows'| == |rows|
  {
    hide PairBag;
    hide PairSet;
    BagSize(rows);
    BagSize(rows');
    BagsSize(ps);
    assert |PairBag(rows') + OldBag(ps)| == |PairBag(rows) + NewBag(ps)|;
    forall e ensures e in PairSet(rows') <==> e in PairSet(rows) - OldOf(ps) + NewOf(ps) {
      BagIsSet(rows, e);
      BagIsSet(rows', e);
      OldInBag(ps, e);
      assert (PairBag(rows') + OldBag(ps))[e] == (PairBag(rows) + NewBag(ps))[e];
      if e in OldOf(ps) && e in NewOf(ps) { OldOnce(ps, e); }
    }
  }

  /** A pair that is both old and new is the old pair of one patch only. */
  lemma OldOnce(ps: seq<Patch>, e: Entry)
    requires Separate(ps) && e in OldOf(ps) && e in NewOf(ps)
    ensures OldBag(ps)[e] <= 1
  {
    var x :| x in ps && e == Entry(x.key, x.now);
    var a :| 0 <= a < |ps| && ps[a] == x;
    forall b | 0 <= b < |ps| && b != a ensures OldSeq(ps)[b] != e {
      assert ps[b].key == x.key ==> x.now != ps[b].was;
    }
    var s := OldSeq(ps);
    assert s == s[..a] + [s[a]] + s[a + 1..];
    assert e !in s[..a] && e !in s[a + 1..];
    assert multiset(s) == multiset(s[..a]) + multiset{s[a]} + multiset(s[a + 1..]);
  }

  // ── one leaf ───────────────────────────────────────────────────────────────

  /** A leaf with these entries holds every old pair as often as there is a patch for it. */
  ghost predicate Enough(entries: seq<Entry>, ps: seq<Patch>) {
    forall e :: e in OldBag(ps) ==> OldBag(ps)[e] <= multiset(entries)[e]
  }

  /** Every patch of `ps` is among the found or the missed ones. */
  ghost predicate Shared(found: seq<Patch>, missed: seq<Patch>, ps: seq<Patch>) {
    && OldBag(found) + OldBag(missed) == OldBag(ps) && NewBag(found) + NewBag(missed) == NewBag(ps)
    && (forall x :: x in missed ==> x in ps)
  }

  lemma BagSet(es: seq<Entry>, at: nat, e: Entry)
    requires at < |es|
    ensures multiset(es[at := e]) + multiset{es[at]} == multiset(es) + multiset{e}
  {
    var a, c := es[..at], es[at + 1..];
    assert es == a + [es[at]] + c && es[at := e] == a + [e] + c;
  }

  lemma {:induction false} FirstFound(entries: seq<Entry>, e: Entry)
    ensures var at := FirstPair(entries, e);
            at <= |entries| && (at < |entries| <==> e in entries) && (at < |entries| ==> entries[at] == e)
  {
    if entries != [] && entries[0] != e {
      FirstFound(entries[1..], e);
      assert entries == [entries[0]] + entries[1..];
    }
  }

  /** Patches of one leaf: those that find their pair exchange it, the new pairs of the others are left over. */
  ghost predicate Accounted(entries: seq<Entry>, es: seq<Entry>, late: seq<Entry>, found: seq<Patch>,
                            missed: seq<Patch>, ps: seq<Patch>) {
    && multiset(es) + OldBag(found) == multiset(entries) + NewBag(found)
    && late == NewSeq(missed) && Shared(found, missed, ps)
  }

  lemma AccountedFound(entries: seq<Entry>, es: seq<Entry>, late: seq<Entry>, found: seq<Patch>, missed: seq<Patch>,
                       ps: seq<Patch>, x: Patch, at: nat)
    requires Accounted(entries, es, late, found, missed, ps) && at < |es| && es[at] == OldPair(x)
    ensures Accounted(entries, es[at := NewPair(x)], late, found + [x], missed, ps + [x])
  {
    BagsConcat(ps, [x]);
    BagsConcat(found, [x]);
    BagsOne(x);
    BagSet(es, at, NewPair(x));
    hide OldBag;
    hide NewBag;
    hide NewSeq;
    OneExchanged(multiset(entries), multiset(es), multiset(es[at := NewPair(x)]), OldBag(found), NewBag(found),
                 OldPair(x), NewPair(x));
    assert OldBag(found) + OldBag([x]) + OldBag(missed) == OldBag(ps) + OldBag([x]);
    assert NewBag(found) + NewBag([x]) + NewBag(missed) == NewBag(ps) + NewBag([x]);
  }

  lemma OneExchanged(r: multiset<Entry>, mid: multiset<Entry>, r': multiset<Entry>, o: multiset<Entry>,
                     n: multiset<Entry>, x: Entry, y: Entry)
    requires mid + o == r + n && r' + multiset{x} == mid + multiset{y}
    ensures r' + (o + multiset{x}) == r + (n + multiset{y})
  {
    forall e ensures (r' + (o + multiset{x}))[e] == (r + (n + multiset{y}))[e] {
      assert (mid + o)[e] == (r + n)[e] && (r' + multiset{x})[e] == (mid + multiset{y})[e];
    }
  }

  lemma AccountedMissed(entries: seq<Entry>, es: seq<Entry>, late: seq<Entry>, found: seq<Patch>, missed: seq<Patch>,
                        ps: seq<Patch>, x: Patch)
    requires Accounted(entries, es, late, found, missed, ps)
    ensures Accounted(entries, es, late + [NewPair(x)], found, missed + [x], ps + [x])
  {
    BagsConcat(ps, [x]);
    BagsConcat(missed, [x]);
    BagsOne(x);
    assert NewSeq(missed + [x]) == NewSeq(missed) + [NewPair(x)];
    hide OldBag;
    hide NewBag;
    hide NewSeq;
  }

  lemma {:induction false} PatchedAccount(entries: seq<Entry>, ps: seq<Patch>)
    returns (found: seq<Patch>, missed: seq<Patch>)
    ensures Accounted(entries, Patched(entries, ps).0, Patched(entries, ps).1, found, missed, ps)
    ensures Enough(entries, ps) ==> missed == []
  {
    found, missed := [], [];
    if ps != [] {
      var init, x := ps[..|ps| - 1], ps[|ps| - 1];
      assert ps == init + [x];
      found, missed := PatchedAccount(entries, init);
      hide *;
      var (es, late) := Patched(entries, init);
      FirstFound(es, OldPair(x));
      var at := FirstPair(es, OldPair(x));
      PatchOf(x);
      if Enough(entries, ps) { EnoughFor(entries, es, late, init, x, found, missed); }
      PatchedNext(entries, init, x, es, late, at);
      if at < |es| {
        AccountedFound(entries, es, late, found, missed, init, x, at);
        found := found + [x];
      } else {
        AccountedMissed(entries, es, late, found, missed, init, x);
        missed := missed + [x];
      }
    }
  }

  lemma PatchOf(x: Patch)
    ensures OldPair(x) == Entry(x.key, x.was) && NewPair(x) == Entry(x.key, x.now)
  {
  }

  lemma EnoughFor(entries: seq<Entry>, es: seq<Entry>, late: seq<Entry>, init: seq<Patch>, x: Patch,
                  found: seq<Patch>, missed: seq<Patch>)
    requires Enough(entries, init + [x]) && (Enough(entries, init) ==> missed == [])
    requires Accounted(entries, es, late, found, missed, init)
    ensures missed == [] && OldPair(x) in es
  {
    BagsConcat(init, [x]);
    BagsOne(x);
    assert OldBag([]) == multiset{};
    hide OldBag;
    hide NewBag;
    forall e | e in OldBag(init) ensures OldBag(init)[e] <= multiset(entries)[e] {
      assert e in OldBag(init + [x]);
    }
    var e := OldPair(x);
    assert e in OldBag(init + [x]);
    assert (multiset(es) + OldBag(found))[e] == (multiset(entries) + NewBag(found))[e];
    assert e in multiset(es);
  }

  // ── where a read lands ─────────────────────────────────────────────────────

  /** The key lies after the lower and up to the upper end of the page's range. */
  ghost predicate Spanned(g: Shape, p: PageId, v: Key) {
    && p in g.spans && g.spans[p].a in g.fence && g.spans[p].b in g.fence
    && g.fence[g.spans[p].a] < Rank(v) <= g.fence[g.spans[p].b]
  }

  lemma SpannedOnce(g: Shape, p: PageId, q: PageId, v: Key)
    requires ShapeOk(g) && Spanned(g, p, v) && Spanned(g, q, v) && g.spans[p].level == g.spans[q].level
    ensures p == q
  {
    if p != q {
      ShapeOkParts(g);
      assert g.spans[p].b <= g.spans[q].a || g.spans[q].b <= g.spans[p].a;
      if g.spans[p].b <= g.spans[q].a { FenceBetween(g, p, q); } else { FenceBetween(g, q, p); }
    }
  }

  lemma SpannedChild(pages: Pages, root: PageId, g: Shape, kind: Kind, p: PageId, v: Key)
    requires TreeInv(pages, root, g, {}, kind) && Spanned(g, p, v) && g.spans[p].level > 0
    ensures p in pages && pages[p].Internal? && RouteRead(Eq, pages[p].keys, v) < |pages[p].children|
    ensures var child := pages[p].children[RouteRead(Eq, pages[p].keys, v)];
            Spanned(g, child, v) && g.spans[child].level + 1 == g.spans[p].level
  {
    ReadTarget(Eq, pages, root, g, {}, kind, p, v);
    NoPending(pages, root, g, kind, p);
    hide TreeInv;
    var n := pages[p];
    var idx := RouteRead(Eq, n.keys, v);
    var child := n.children[idx];
    ShapeOkParts(g);
    assert SpanOk(g, child);
    assert g.spans[child].b == ChildEnd(n, p, g, idx);
    if idx < |n.keys| { assert Fenced(n, g, idx) && AtMost(v, n.keys[idx]); }
  }

  /** A read lands on the one leaf whose range the key lies in. */
  lemma {:induction false} LandingSpanned(pages: Pages, root: PageId, g: Shape, kind: Kind, p: PageId, level: nat,
                                          v: Key)
    requires TreeInv(pages, root, g, {}, kind) && Spanned(g, p, v) && g.spans[p].level == level
    ensures var q := Landing(Eq, pages, p, level, v); Spanned(g, q, v) && g.spans[q].level == 0
    decreases level
  {
    hide TreeInv;
    hide Spanned;
    SpannedIn(g, p, v);
    if level > 0 {
      SpannedChild(pages, root, g, kind, p, v);
      LandingStep(Eq, pages, p, level, v);
      LandingSpanned(pages, root, g, kind, pages[p].children[RouteRead(Eq, pages[p].keys, v)], level - 1, v);
    }
  }

  lemma SpannedIn(g: Shape, p: PageId, v: Key)
    requires Spanned(g, p, v)
    ensures p in g.spans
  {
  }

  lemma RootSpanned(pages: Pages, root: PageId, g: Shape, kind: Kind, v: Key)
    requires TreeInv(pages, root, g, {}, kind)
    ensures Spanned(g, root, v) && ShapeOk(g)
  {
    hide TreeInv;
    ShapeParts(pages, root, g, {}, kind);
    RootSpans(g, root);
  }

  /** A key not before `u` and between the keys of the leaf where a read of `u` lands has its read land there too. */
  lemma SameLanding(pages: Pages, root: PageId, g: Shape, kind: Kind, level: nat, u: Key, v: Key)
    requires TreeInv(pages, root, g, {}, kind) && root in g.spans && g.spans[root].level == level
    requires var p := Landing(Eq, pages, root, level, u);
             && p in pages && pages[p].Leaf? && pages[p].entries != []
             && Rank(u) <= Rank(v) && Between(v, pages[p].entries[0].key, pages[p].entries[|pages[p].entries| - 1].key)
    ensures Landing(Eq, pages, root, level, v) == Landing(Eq, pages, root, level, u)
  {
    var p, q := Landing(Eq, pages, root, level, u), Landing(Eq, pages, root, level, v);
    RootSpanned(pages, root, g, kind, u);
    RootSpanned(pages, root, g, kind, v);
    LandingSpanned(pages, root, g, kind, root, level, u);
    LandingSpanned(pages, root, g, kind, root, level, v);
    LeafLink(pages, root, g, {}, kind, p);
    hide TreeInv;
    hide Landing;
    assert Spanned(g, p, v);
    SpannedOnce(g, p, q, v);
  }

  /** The patches come in key order. */
  ghost predicate KeysRise(ps: seq<Patch>) {
    forall i, j :: 0 <= i < j < |ps| ==> Rank(ps[i].key) <= Rank(ps[j].key)
  }

  lemma SortedPatches(patches: seq<Patch>, ps: seq<Patch>)
    requires ps == SortBy(patches, PatchLess)
    ensures KeysRise(ps)
  {
    PatchesOrdered();
    SortByOrder(patches, PatchLess);
    forall i, j | 0 <= i < j < |ps| ensures Rank(ps[i].key) <= Rank(ps[j].key) {
      assert !PatchLess(ps[j], ps[i]);
    }
  }

  lemma PatchesOrdered()
    ensures Preorder(PatchLess)
  {
    EntriesOrdered();
    hide EntryLess;
    forall x: Patch, y: Patch, z: Patch ensures PatchLess(x, z) ==> PatchLess(x, y) || PatchLess(y, z) {
      assert EntryLess(OldPair(x), OldPair(z)) ==>
          EntryLess(OldPair(x), OldPair(y)) || EntryLess(OldPair(y), OldPair(z));
    }
  }

  /** The patches that follow the `i`-th, with keys between those of its leaf, land on that leaf. */
  lemma RunLands(pages: Pages, root: PageId, g: Shape, kind: Kind, level: nat, ps: seq<Patch>, i: nat, j: nat)
    requires TreeInv(pages, root, g, {}, kind) && root in g.spans && g.spans[root].level == level
    requires i < j <= |ps| && KeysRise(ps)
    requires var p := Landing(Eq, pages, root, level, ps[i].key);
             && p in pages && pages[p].Leaf? && pages[p].entries != []
             && forall k :: i < k < j ==> Between(ps[k].key, pages[p].entries[0].key,
                                                  pages[p].entries[|pages[p].entries| - 1].key)
    ensures LandsOn(pages, root, level, Landing(Eq, pages, root, level, ps[i].key), ps[i..j])
  {
    hide TreeInv;
    hide Landing;
    var p := Landing(Eq, pages, root, level, ps[i].key);
    forall x | x in ps[i..j] ensures Landing(Eq, pages, root, level, x.key) == p {
      var k :| 0 <= k < |ps[i..j]| && ps[i..j][k] == x;
      if k > 0 {
        assert x == ps[i + k];
        SameLanding(pages, root, g, kind, level, ps[i].key, x.key);
      }
    }
  }

  lemma OneLands(pages: Pages, root: PageId, level: nat, ps: seq<Patch>, i: nat)
    requires i < |ps|
    ensures LandsOn(pages, root, level, Landing(Eq, pages, root, level, ps[i].key), ps[i..i + 1])
  {
    assert ps[i..i + 1] == [ps[i]];
  }

  /** Rewriting a leaf as a leaf changes no landing. */
  lemma {:induction false} LandingKept(pages: Pages, p: PageId, n: Node, r: PageId, level: nat, v: Key)
    requires p in pages && pages[p].Leaf? && n.Leaf?
    ensures Landing(Eq, pages[p := n], r, level, v) == Landing(Eq, pages, r, level, v)
    decreases level
  {
    if level > 0 && r in pages && pages[r].Internal? {
      var idx := RouteRead(Eq, pages[r].keys, v);
      if idx < |pages[r].children| { LandingKept(pages, p, n, pages[r].children[idx], level - 1, v); }
    }
  }

  // ── the whole tree ─────────────────────────────────────────────────────────

  /** How often the leaf where a read of the key lands holds the pair. */
  function HeldCount(pages: Pages, root: PageId, level: nat, e: Entry): nat {
    var p := Landing(Eq, pages, root, level, e.key);
    if p in pages && pages[p].Leaf? then multiset(pages[p].entries)[e] else 0
  }

  /** Every old pair is in the leaf where a read of its key lands, as often as there is a patch for it. */
  ghost predicate AllHeld(pages: Pages, root: PageId, level: nat, ps: seq<Patch>) {
    forall e :: e in OldBag(ps) ==> OldBag(ps)[e] <= HeldCount(pages, root, level, e)
  }

  /** Every leaf holds what it held before, old pairs exchanged for new ones. */
  ghost predicate Shifted(pages: Pages, pages': Pages, root: PageId, level: nat, ps: seq<Patch>) {
    forall e :: HeldCount(pages', root, level, e) + OldBag(ps)[e] == HeldCount(pages, root, level, e) + NewBag(ps)[e]
  }

  lemma ShiftedNone(pages: Pages, root: PageId, level: nat)
    ensures Shifted(pages, pages, root, level, [])
  {
  }

  /** All keys of the run land on leaf `p`. */
  ghost predicate LandsOn(pages: Pages, root: PageId, level: nat, p: PageId, run: seq<Patch>) {
    forall x :: x in run ==> Landing(Eq, pages, root, level, x.key) == p
  }

  lemma BagElsewhere(pages: Pages, root: PageId, level: nat, p: PageId, run: seq<Patch>, e: Entry)
    requires LandsOn(pages, root, level, p, run) && Landing(Eq, pages, root, level, e.key) != p
    ensures OldBag(run)[e] == 0 && NewBag(run)[e] == 0
  {
    hide Landing;
    OldInBag(run, e);
  }

  /** Patching one leaf by a run of patches that all find their pair. */
  lemma ShiftedRun(pages: Pages, root: PageId, level: nat, p: PageId, n: Node, run: seq<Patch>)
    requires p in pages && pages[p].Leaf? && n.Leaf? && LandsOn(pages, root, level, p, run)
    requires multiset(n.entries) + OldBag(run) == multiset(pages[p].entries) + NewBag(run)
    ensures Shifted(pages, pages[p := n], root, level, run)
  {
    hide OldBag;
    hide NewBag;
    hide Landing;
    forall e ensures HeldCount(pages[p := n], root, level, e) + OldBag(run)[e] ==
                     HeldCount(pages, root, level, e) + NewBag(run)[e]
    {
      LandingKept(pages, p, n, root, level, e.key);
      if Landing(Eq, pages, root, level, e.key) == p {
        assert (multiset(n.entries) + OldBag(run))[e] == (multiset(pages[p].entries) + NewBag(run))[e];
      } else {
        BagElsewhere(pages, root, level, p, run, e);
      }
    }
  }

  lemma ShiftedJoin(pages: Pages, mid: Pages, pages': Pages, root: PageId, level: nat, ps: seq<Patch>, i: nat, j: nat)
    requires i <= j <= |ps| && Shifted(pages, mid, root, level, ps[..i]) && Shifted(mid, pages', root, level, ps[i..j])
    ensures Shifted(pages, pages', root, level, ps[..j])
  {
    assert ps[..j] == ps[..i] + ps[i..j];
    BagsConcat(ps[..i], ps[i..j]);
    hide OldBag;
    hide NewBag;
    hide HeldCount;
    forall e ensures HeldCount(pages', root, level, e) + OldBag(ps[..j])[e] ==
                     HeldCount(pages, root, level, e) + NewBag(ps[..j])[e]
    {
      assert HeldCount(mid, root, level, e) + OldBag(ps[..i])[e] ==
             HeldCount(pages, root, level, e) + NewBag(ps[..i])[e];
      assert HeldCount(pages', root, level, e) + OldBag(ps[i..j])[e] ==
             HeldCount(mid, root, level, e) + NewBag(ps[i..j])[e];
    }
  }

  /** A batch that was held is held still by the time its next run comes up. */
  lemma HeldRest(pages: Pages, pages': Pages, root: PageId, level: nat, ps: seq<Patch>, i: nat)
    requires i <= |ps| && AllHeld(pages, root, level, ps) && Shifted(pages, pages', root, level, ps[..i])
    ensures AllHeld(pages', root, level, ps[i..])
  {
    assert ps == ps[..i] + ps[i..];
    BagsConcat(ps[..i], ps[i..]);
    hide OldBag;
    hide NewBag;
    hide HeldCount;
    forall e | e in OldBag(ps[i..]) ensures OldBag(ps[i..])[e] <= HeldCount(pages', root, level, e) {
      assert e in OldBag(ps);
      assert HeldCount(pages', root, level, e) + OldBag(ps[..i])[e] ==
             HeldCount(pages, root, level, e) + NewBag(ps[..i])[e];
    }
  }

  /** The leaf of a run has all the pairs the run is to replace. */
  lemma EnoughLeft(pages: Pages, root: PageId, level: nat, p: PageId, ps: seq<Patch>, i: nat, j: nat)
    requires i < j <= |ps| && AllHeld(pages, root, level, ps[i..])
    requires p in pages && pages[p].Leaf? && LandsOn(pages, root, level, p, ps[i..j])
    ensures Enough(pages[p].entries, ps[i..j]) && pages[p].entries != []
  {
    var run, post := ps[i..j], ps[j..];
    assert ps[i..] == run + post;
    BagsConcat(run, post);
    OldInBag(run, OldPair(ps[i]));
    assert run[0] == ps[i] && run[0] in run;
    hide OldBag;
    hide NewBag;
    hide Landing;
    forall e | e in OldBag(run) ensures OldBag(run)[e] <= multiset(pages[p].entries)[e] {
      assert e in OldBag(ps[i..]);
      if Landing(Eq, pages, root, level, e.key) != p { BagElsewhere(pages, root, level, p, run, e); }
    }
    assert OldPair(ps[i]) in OldBag(run);
  }

  /** A batch all of whose patches found their pair was held from the start. */
  lemma ShiftedHeld(pages: Pages, pages': Pages, root: PageId, level: nat, ps: seq<Patch>)
    requires Shifted(pages, pages', root, level, ps) && Strict(ps)
    ensures AllHeld(pages, root, level, ps)
  {
    forall e | e in OldBag(ps) ensures OldBag(ps)[e] <= HeldCount(pages, root, level, e) {
      OldInBag(ps, e);
      NotBoth(ps, e);
      assert HeldCount(pages', root, level, e) + OldBag(ps)[e] == HeldCount(pages, root, level, e) + NewBag(ps)[e];
    }
  }

  lemma NotBoth(ps: seq<Patch>, e: Entry)
    requires Strict(ps) && e in OldOf(ps)
    ensures e !in NewOf(ps)
  {
  }

  lemma HeldPerm(pages: Pages, root: PageId, level: nat, ps: seq<Patch>, qs: seq<Patch>)
    requires multiset(ps) == multiset(qs)
    ensures AllHeld(pages, root, level, ps) <==> AllHeld(pages, root, level, qs)
  {
    BagsPerm(ps, qs);
    hide HeldCount;
  }

  // ── the account of a batch ─────────────────────────────────────────────────

  /** Found patches exchanged their pair; the missed ones each added their new pair, or found it there. */
  ghost predicate Settles(rows: seq<Row>, rows': seq<Row>, found: seq<Patch>, missed: seq<Patch>, ps: seq<Patch>) {
    && Shared(found, missed, ps)
    && PairBag(rows) + NewBag(found) <= PairBag(rows') + OldBag(found)
       <= PairBag(rows) + NewBag(found) + NewBag(missed)
  }

  lemma SettlesNone(rows: seq<Row>)
    ensures Settles(rows, rows, [], [], [])
  {
  }

  /** One run: its found patches exchange pairs in one leaf, then the left-over pairs are inserted. */
  lemma SettlesRun(mid: seq<Row>, cur: seq<Row>, rows': seq<Row>, n: seq<Entry>, n': seq<Entry>, late: seq<Entry>,
                   run: seq<Patch>, f: seq<Patch>, m: seq<Patch>)
    requires Accounted(n, n', late, f, m, run) && PairBag(cur) + multiset(n) == PairBag(mid) + multiset(n')
    requires Grown(cur, rows', multiset(late))
    ensures Settles(mid, rows', f, m, run)
  {
    hide PairBag;
    RunBags(PairBag(mid), PairBag(cur), PairBag(rows'), multiset(n), multiset(n'), OldBag(f), NewBag(f), NewBag(m));
  }

  lemma RunBags(mid: multiset<Entry>, cur: multiset<Entry>, r': multiset<Entry>, n: multiset<Entry>,
                n': multiset<Entry>, o: multiset<Entry>, w: multiset<Entry>, late: multiset<Entry>)
    requires cur + n == mid + n' && n' + o == n + w && cur <= r' <= cur + late
    ensures mid + w <= r' + o <= mid + w + late
  {
    forall e ensures (mid + w)[e] <= (r' + o)[e] <= (mid + w + late)[e] {
      assert (cur + n)[e] == (mid + n')[e] && (n' + o)[e] == (n + w)[e] && cur[e] <= r'[e] <= (cur + late)[e];
    }
  }

  lemma SettlesJoin(rows: seq<Row>, mid: seq<Row>, rows': seq<Row>, ps: seq<Patch>, i: nat, j: nat, found: seq<Patch>,
                    missed: seq<Patch>, f: seq<Patch>, m: seq<Patch>)
    requires i <= j <= |ps| && Settles(rows, mid, found, missed, ps[..i]) && Settles(mid, rows', f, m, ps[i..j])
    ensures Settles(rows, rows', found + f, missed + m, ps[..j])
  {
    SharedJoin(ps, i, j, found, missed, f, m);
    BagsConcat(found, f);
    BagsConcat(missed, m);
    hide OldBag;
    hide NewBag;
    hide PairBag;
    JoinBags(PairBag(rows), PairBag(mid), PairBag(rows'), OldBag(found), NewBag(found), NewBag(missed), OldBag(f),
             NewBag(f), NewBag(m));
  }

  lemma JoinBags(r: multiset<Entry>, mid: multiset<Entry>, r': multiset<Entry>, o: multiset<Entry>,
                 n: multiset<Entry>, late: multiset<Entry>, o2: multiset<Entry>, n2: multiset<Entry>,
                 late2: multiset<Entry>)
    requires r + n <= mid + o <= r + n + late && mid + n2 <= r' + o2 <= mid + n2 + late2
    ensures r + (n + n2) <= r' + (o + o2) <= r + (n + n2) + (late + late2)
  {
    forall e
      ensures (r + (n + n2))[e] <= (r' + (o + o2))[e] <= (r + (n + n2) + (late + late2))[e]
    {
      assert (r + n)[e] <= (mid + o)[e] <= (r + n + late)[e];
      assert (mid + n2)[e] <= (r' + o2)[e] <= (mid + n2 + late2)[e];
    }
  }

  lemma SharedJoin(ps: seq<Patch>, i: nat, j: nat, found: seq<Patch>, missed: seq<Patch>, f: seq<Patch>, m: seq<Patch>)
    requires i <= j <= |ps| && Shared(found, missed, ps[..i]) && Shared(f, m, ps[i..j])
    ensures Shared(found + f, missed + m, ps[..j])
  {
    assert ps[..j] == ps[..i] + ps[i..j];
    BagsConcat(ps[..i], ps[i..j]);
    BagsConcat(found, f);
    BagsConcat(missed, m);
    hide OldBag;
    hide NewBag;
    forall x | x in missed + m ensures x in ps[..j] {
      assert x in ps[..i] || x in ps[i..j];
    }
  }

  /** If all patches were found, pairs were exchanged; the converse holds for patches that are apart. */
  lemma SettledIff(rows: seq<Row>, rows': seq<Row>, found: seq<Patch>, missed: seq<Patch>, ps: seq<Patch>)
    requires Settles(rows, rows', found, missed, ps)
    ensures missed == [] ==> Exchanged(rows, rows', ps)
    ensures Exchanged(rows, rows', ps) && Strict(ps) ==> missed == []
  {
    BagsSize(missed);
    if missed == [] {
      NoneLeft(PairBag(rows), PairBag(rows'), OldBag(found), NewBag(found), OldBag(missed), NewBag(missed));
    }
    if Exchanged(rows, rows', ps) && Strict(ps) && missed != [] {
      LeftOver(PairBag(rows), PairBag(rows'), OldBag(found), NewBag(found), OldBag(missed), NewBag(missed), OldBag(ps),
               NewBag(ps));
      MissedClash(missed, ps);
    }
  }

  lemma MissedClash(missed: seq<Patch>, ps: seq<Patch>)
    requires Strict(ps) && (forall x :: x in missed ==> x in ps) && OldBag(missed) == NewBag(missed)
    ensures missed == []
  {
    hide OldBag;
    hide NewBag;
    forall e ensures e !in OldBag(missed) {
      OldInBag(missed, e);
    }
    if missed != [] {
      assert missed[0] in missed;
      OldInBag(missed, OldPair(missed[0]));
    }
  }

  lemma NoneLeft(r: multiset<Entry>, r': multiset<Entry>, o: multiset<Entry>, n: multiset<Entry>, o2: multiset<Entry>,
                 n2: multiset<Entry>)
    requires r + n <= r' + o <= r + n + n2 && |o2| == |n2| == 0
    ensures r' + (o + o2) == r + (n + n2)
  {
    forall e ensures (r' + (o + o2))[e] == (r + (n + n2))[e] {
      assert (r + n)[e] <= (r' + o)[e] <= (r + n + n2)[e] && o2[e] == 0 && n2[e] == 0;
    }
  }

  lemma LeftOver(r: multiset<Entry>, r': multiset<Entry>, o: multiset<Entry>, n: multiset<Entry>,
                 o2: multiset<Entry>, n2: multiset<Entry>, os: multiset<Entry>, ns: multiset<Entry>)
    requires r' + os == r + ns && o + o2 == os && n + n2 == ns && r + n <= r' + o && |o2| == |n2|
    ensures o2 == n2
  {
    forall e ensures o2[e] <= n2[e] {
      assert (r' + os)[e] == (r + ns)[e] && (o + o2)[e] == os[e] && (n + n2)[e] == ns[e];
      assert (r + n)[e] <= (r' + o)[e];
    }
    assert o2 <= n2;
    assert n2 == o2 + (n2 - o2);
    assert |n2| == |o2| + |n2 - o2|;
  }
}
