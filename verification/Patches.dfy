/**
  Batches of row-id patches: what a run of patches does to one leaf, as sets of pairs.
 */
module Patches {
  import opened Keys
  import opened Nodes
  import opened Shapes
  import opened Steps
  import opened Searches
  import opened Trees
  import opened Spelling
  import opened Edits
  import opened Sorting
  import opened Walks
  import opened Merges
  import opened Accounts

  /** Replace row id `was` of `key` by `now`. */
  datatype Patch = Patch(key: Key, was: RowId, now: RowId)

  predicate PatchLess(x: Patch, y: Patch) {
    EntryLess(Entry(x.key, x.was), Entry(y.key, y.was))
  }

  function OldOf(ps: seq<Patch>): set<Entry> {
    set x | x in ps :: Entry(x.key, x.was)
  }

  function NewOf(ps: seq<Patch>): set<Entry> {
    set x | x in ps :: Entry(x.key, x.now)
  }

  /** No patch's new row id is another patch's old row id for the same key. */
  ghost predicate Separate(ps: seq<Patch>) {
    forall a, b :: 0 <= a < |ps| && 0 <= b < |ps| && a != b && ps[a].key == ps[b].key ==> ps[a].now != ps[b].was
  }

  lemma TwoIndices(s: seq<Patch>, x: Patch) returns (i: nat, j: nat)
    requires multiset(s)[x] >= 2
    ensures i < |s| && j < |s| && i != j && s[i] == x && s[j] == x
  {
    i :| i < |s| && s[i] == x;
    var rest := s[..i] + s[i + 1..];
    assert s == s[..i] + [x] + s[i + 1..];
    assert multiset(s) == multiset(s[..i]) + multiset{x} + multiset(s[i + 1..]);
    assert multiset(rest) == multiset(s[..i]) + multiset(s[i + 1..]);
    assert x in multiset(rest);
    var k :| 0 <= k < |rest| && rest[k] == x;
    j := if k < i then k else k + 1;
  }

  /** Separateness does not depend on the order of the patches. */
  lemma SeparatePerm(ps: seq<Patch>, qs: seq<Patch>)
    requires Separate(ps) && multiset(ps) == multiset(qs)
    ensures Separate(qs)
  {
    forall a, b | 0 <= a < |qs| && 0 <= b < |qs| && a != b && qs[a].key == qs[b].key ensures qs[a].now != qs[b].was {
      if qs[a] == qs[b] {
        if a < b { Twice(qs, a, b); } else { Twice(qs, b, a); }
        var i, j := TwoIndices(ps, qs[a]);
      } else {
        assert qs[a] in multiset(qs) && qs[b] in multiset(qs);
        assert qs[a] in ps && qs[b] in ps;
        var i :| 0 <= i < |ps| && ps[i] == qs[a];
        var j :| 0 <= j < |ps| && ps[j] == qs[b];
        assert i != j;
      }
    }
  }

  // ── pairs ──────────────────────────────────────────────────────────────────

  lemma LeafPairs(n: Node)
    requires n.Leaf?
    ensures PairSet(LeafRows(n)) == EntrySet(n)
  {
    forall e ensures e in PairSet(LeafRows(n)) <==> e in EntrySet(n) {
      if e in PairSet(LeafRows(n)) {
        var r :| r in LeafRows(n) && e == Entry(r.key, r.rid);
        EntryOfRow(n, r);
      }
      if e in EntrySet(n) {
        var r := RowOfEntry(n, e);
      }
    }
  }

  lemma PairSetConcat(a: seq<Row>, b: seq<Row>)
    ensures PairSet(a + b) == PairSet(a) + PairSet(b)
  {
    forall e ensures e in PairSet(a + b) <==> e in PairSet(a) + PairSet(b) {
      if e in PairSet(a) {
        var r :| r in a && e == Entry(r.key, r.rid);
        assert r in a + b;
      }
      if e in PairSet(b) {
        var r :| r in b && e == Entry(r.key, r.rid);
        assert r in a + b;
      }
    }
  }

  /** Replacing one stretch of rows. */
  lemma PairSetSplice(rows: seq<Row>, k: nat, leaf: seq<Row>, leaf': seq<Row>)
    requires k + |leaf| <= |rows| && rows[k..k + |leaf|] == leaf
    ensures var rows' := Splice(rows, k, leaf', k + |leaf|);
            && PairSet(rows') <= PairSet(rows) + PairSet(leaf')
            && PairSet(rows) - PairSet(leaf) <= PairSet(rows') && PairSet(leaf') <= PairSet(rows')
            && PairSet(leaf) <= PairSet(rows)
  {
    hide PairSet;
    var a, c := rows[..k], rows[k + |leaf|..];
    assert rows == a + leaf + c;
    PairSetConcat(a + leaf, c);
    PairSetConcat(a, leaf);
    PairSetConcat(a + leaf', c);
    PairSetConcat(a, leaf');
  }

  // ── one leaf ───────────────────────────────────────────────────────────────

  /** `n'` is leaf `n` with other row ids. */
  ghost predicate Edited(n: Node, n': Node) {
    && n.Leaf? && n'.Leaf? && n'.next == n.next && n'.payloads == n.payloads && |n'.entries| == |n.entries|
    && forall i :: 0 <= i < |n.entries| ==> n'.entries[i].key == n.entries[i].key
  }

  lemma EditedOk(n: Node, n': Node, p: PageId, g: Shape, kind: Kind)
    requires Edited(n, n') && LeafOk(n, p, g) && NodeKind(n, kind)
    ensures LeafOk(n', p, g) && NodeKind(n', kind)
  {
  }

  lemma EditedStep(n: Node, n': Node, i: nat, rid: RowId)
    requires Edited(n, n') && i < |n'.entries|
    ensures Edited(n, SetRid(n', i, rid))
  {
  }

  /** Setting one row id takes at most the old pair away and adds the new one. */
  lemma SetPairs(n: Node, i: nat, rid: RowId)
    requires n.Leaf? && i < |n.entries|
    ensures var old' := n.entries[i]; var new' := Entry(n.entries[i].key, rid);
            && EntrySet(n) - {old'} <= EntrySet(SetRid(n, i, rid)) <= EntrySet(n) + {new'}
            && new' in EntrySet(SetRid(n, i, rid))
  {
    var n' := SetRid(n, i, rid);
    forall e | e in EntrySet(n) && e != n.entries[i] ensures e in EntrySet(n') {
      var k :| 0 <= k < |n.entries| && n.entries[k] == e;
      assert n'.entries[k] == e;
    }
    assert n'.entries[i] in n'.entries;
  }

  /** The effect of patches `ps` on a set of pairs, where `late` is still to be inserted. */
  ghost predicate Effect(pairs: set<Entry>, pairs': set<Entry>, late: set<Entry>, ps: seq<Patch>, sep: bool) {
    && pairs' <= pairs + NewOf(ps) && pairs - OldOf(ps) <= pairs' && late <= NewOf(ps)
    && (sep ==> NewOf(ps) <= pairs' + late)
  }

  lemma SetsAppend(ps: seq<Patch>, x: Patch)
    ensures OldOf(ps + [x]) == OldOf(ps) + {Entry(x.key, x.was)} && NewOf(ps + [x]) == NewOf(ps) + {Entry(x.key, x.now)}
  {
    forall e ensures e in OldOf(ps + [x]) <==> e in OldOf(ps) + {Entry(x.key, x.was)} {
      if e in OldOf(ps) { var y :| y in ps && e == Entry(y.key, y.was); assert y in ps + [x]; }
      if e == Entry(x.key, x.was) { assert x in ps + [x]; }
    }
    forall e ensures e in NewOf(ps + [x]) <==> e in NewOf(ps) + {Entry(x.key, x.now)} {
      if e in NewOf(ps) { var y :| y in ps && e == Entry(y.key, y.now); assert y in ps + [x]; }
      if e == Entry(x.key, x.now) { assert x in ps + [x]; }
    }
  }

  /** One more patch found in place. */
  lemma EffectFound(pairs: set<Entry>, pairs': set<Entry>, pairs'': set<Entry>, late: set<Entry>, ps: seq<Patch>,
                    x: Patch, sep: bool)
    requires Effect(pairs, pairs', late, ps, sep) && (sep ==> Entry(x.key, x.was) !in NewOf(ps))
    requires pairs' - {Entry(x.key, x.was)} <= pairs'' <= pairs' + {Entry(x.key, x.now)}
    requires Entry(x.key, x.now) in pairs''
    ensures Effect(pairs, pairs'', late, ps + [x], sep)
  {
    hide OldOf;
    hide NewOf;
    SetsAppend(ps, x);
  }

  /** One more patch to be inserted later. */
  lemma EffectLate(pairs: set<Entry>, pairs': set<Entry>, late: set<Entry>, ps: seq<Patch>, x: Patch, sep: bool)
    requires Effect(pairs, pairs', late, ps, sep)
    ensures Effect(pairs, pairs', late + {Entry(x.key, x.now)}, ps + [x], sep)
  {
    hide OldOf;
    hide NewOf;
    SetsAppend(ps, x);
  }

  lemma NotEarlier(ps: seq<Patch>, i: nat, j: nat)
    requires Separate(ps) && i <= j < |ps|
    ensures Entry(ps[j].key, ps[j].was) !in NewOf(ps[i..j])
  {
    forall y | y in ps[i..j] ensures Entry(y.key, y.now) != Entry(ps[j].key, ps[j].was) {
      var k :| 0 <= k < |ps[i..j]| && ps[i..j][k] == y;
      assert ps[i + k] == y;
    }
  }

  /** The index of the first occurrence of a pair, or the number of entries. */
  function FirstPair(entries: seq<Entry>, e: Entry): nat {
    if entries == [] || entries[0] == e then 0 else 1 + FirstPair(entries[1..], e)
  }

  lemma {:induction false} FirstPairIs(entries: seq<Entry>, e: Entry, i: nat)
    requires i <= |entries| && (forall j :: 0 <= j < i ==> entries[j] != e) && (i < |entries| ==> entries[i] == e)
    ensures FirstPair(entries, e) == i
  {
    if i > 0 { FirstPairIs(entries[1..], e, i - 1); }
  }

  /** Apply patches in order to the entries of one leaf: each replaces the first match, or its new pair is left over. */
  function Patched(entries: seq<Entry>, ps: seq<Patch>): (seq<Entry>, seq<Entry>) {
    if ps == [] then (entries, [])
    else
      var x := ps[|ps| - 1];
      var (es, late) := Patched(entries, ps[..|ps| - 1]);
      var at := FirstPair(es, Entry(x.key, x.was));
      if at < |es| then (es[at := Entry(x.key, x.now)], late) else (es, late + [Entry(x.key, x.now)])
  }

  lemma PatchedNone(entries: seq<Entry>)
    ensures Patched(entries, []) == (entries, [])
  {
  }

  lemma PatchedNext(entries: seq<Entry>, ps: seq<Patch>, x: Patch, es: seq<Entry>, late: seq<Entry>, at: nat)
    requires Patched(entries, ps) == (es, late) && at == FirstPair(es, Entry(x.key, x.was))
    ensures Patched(entries, ps + [x]) ==
              if at < |es| then (es[at := Entry(x.key, x.now)], late) else (es, late + [Entry(x.key, x.now)])
  {
    assert (ps + [x])[..|ps|] == ps;
  }

  /**
    Patch the leaf with the `i`-th patch, whatever its key, and with every following
    one whose key lies between the leaf's first and last. The index always advances.
   */
  method PatchLeaf(ps: seq<Patch>, i: nat, n: Node) returns (n': Node, modified: bool, late: seq<Entry>, j: nat)
    requires i < |ps| && n.Leaf? && n.entries != []
    ensures i < j <= |ps| && Edited(n, n') && (!modified ==> n' == n)
    ensures (n'.entries, late) == Patched(n.entries, ps[i..j])
    ensures forall k :: i < k < j ==> Between(ps[k].key, n.entries[0].key, n.entries[|n.entries| - 1].key)
    ensures j < |ps| ==> !Between(ps[j].key, n.entries[0].key, n.entries[|n.entries| - 1].key)
    ensures Effect(EntrySet(n), EntrySet(n'), AsSet(late), ps[i..j], Separate(ps))
  {
    hide Effect;
    hide EntrySet;
    hide Patched;
    hide FirstPair;
    var min, max := n.entries[0].key, n.entries[|n.entries| - 1].key;
    n', modified, late, j := n, false, [], i;
    ghost var sep := Separate(ps);
    hide Separate;
    EffectNone(EntrySet(n), sep);
    assert ps[i..i] == [] && AsSet(late) == {};
    PatchedNone(n.entries);
    while true
      invariant i <= j < |ps| && Edited(n, n') && (!modified ==> n' == n) && sep == Separate(ps)
      invariant Effect(EntrySet(n), EntrySet(n'), AsSet(late), ps[i..j], sep)
      invariant (n'.entries, late) == Patched(n.entries, ps[i..j])
      invariant forall k :: i < k < j ==> Between(ps[k].key, min, max)
      decreases |ps| - j
    {
      var x := ps[j];
      if j > i && (Less(x.key, min) || Less(max, x.key)) { break; }
      var at := FindPair(n'.entries, Entry(x.key, x.was));
      FirstPairIs(n'.entries, Entry(x.key, x.was), at);
      PatchedNext(n.entries, ps[i..j], x, n'.entries, late, at);
      if sep { NotEarlier(ps, i, j); }
      assert ps[i..j] + [x] == ps[i..j + 1];
      if at < |n'.entries| {
        SetPairs(n', at, x.now);
        EditedStep(n, n', at, x.now);
        EffectFound(EntrySet(n), EntrySet(n'), EntrySet(SetRid(n', at, x.now)), AsSet(late), ps[i..j], x, sep);
        n', modified := SetRid(n', at, x.now), true;
      } else {
        EffectLate(EntrySet(n), EntrySet(n'), AsSet(late), ps[i..j], x, sep);
        assert AsSet(late + [Entry(x.key, x.now)]) == AsSet(late) + {Entry(x.key, x.now)};
        late := late + [Entry(x.key, x.now)];
      }
      j := j + 1;
      if j >= |ps| { break; }
    }
  }

  lemma EffectNone(pairs: set<Entry>, sep: bool)
    ensures Effect(pairs, pairs, {}, [], sep)
  {
  }

  // ── the whole tree ─────────────────────────────────────────────────────────

  /** Writing any sound leaf in place of a leaf. */
  lemma ReplaceWrite(pages: Pages, root: PageId, g: Shape, kind: Kind, p: PageId, n': Node, rows: seq<Row>)
    returns (rows': seq<Row>)
    requires TreeInv(pages, root, g, {}, kind) && Spells(pages, g, rows) && p in g.spans && g.spans[p].level == 0
    requires p in pages && LeafOk(n', p, g) && NodeKind(n', kind) && n'.Leaf?
    ensures TreeInv(pages[p := n'], root, g, {}, kind) && Spells(pages[p := n'], g, rows')
    ensures PairSet(rows') <= PairSet(rows) + EntrySet(n') && EntrySet(n') <= PairSet(rows')
    ensures PairSet(rows) - EntrySet(pages[p]) <= PairSet(rows') && EntrySet(pages[p]) <= PairSet(rows)
    ensures pages[p].Leaf? && PairBag(rows') + multiset(pages[p].entries) == PairBag(rows) + multiset(n'.entries)
  {
    hide *;
    var n := pages[p];
    LeafPageOf(pages, root, g, kind, p);
    RewriteLeaf(pages, root, g, {}, kind, p, n');
    var k := SpellsLeaf(pages, g, rows, p, n');
    StretchOf(pages, g, p, rows, k);
    LeafPairs(n);
    LeafPairs(n');
    PairSetSplice(rows, k, LeafRows(n), LeafRows(n'));
    LeafBag(n);
    LeafBag(n');
    BagSplice(rows, k, LeafRows(n), LeafRows(n'));
    rows' := Splice(rows, k, LeafRows(n'), k + |LeafRows(n)|);
  }

  /** Writing a patched leaf back. */
  lemma EditWrite(pages: Pages, root: PageId, g: Shape, kind: Kind, p: PageId, n': Node, rows: seq<Row>)
    returns (rows': seq<Row>)
    requires TreeInv(pages, root, g, {}, kind) && Spells(pages, g, rows) && p in g.spans && g.spans[p].level == 0
    requires p in pages && Edited(pages[p], n')
    ensures TreeInv(pages[p := n'], root, g, {}, kind) && Spells(pages[p := n'], g, rows')
    ensures PairSet(rows') <= PairSet(rows) + EntrySet(n') && EntrySet(n') <= PairSet(rows')
    ensures PairSet(rows) - EntrySet(pages[p]) <= PairSet(rows') && EntrySet(pages[p]) <= PairSet(rows)
    ensures pages[p].Leaf? && n'.Leaf?
    ensures PairBag(rows') + multiset(pages[p].entries) == PairBag(rows) + multiset(n'.entries)
  {
    hide *;
    LeafPageOf(pages, root, g, kind, p);
    EditedOk(pages[p], n', p, g, kind);
    EditedLeaf(pages[p], n');
    rows' := ReplaceWrite(pages, root, g, kind, p, n', rows);
  }

  lemma EditedLeaf(n: Node, n': Node)
    requires Edited(n, n')
    ensures n.Leaf? && n'.Leaf?
  {
  }

  /** Patching one leaf carries over to the whole set of pairs. */
  lemma EffectWhole(all: set<Entry>, all': set<Entry>, leaf: set<Entry>, leaf': set<Entry>, late: set<Entry>,
                    ps: seq<Patch>, sep: bool)
    requires Effect(leaf, leaf', late, ps, sep)
    requires leaf <= all && all' <= all + leaf' && all - leaf <= all' && leaf' <= all'
    ensures Effect(all, all', late, ps, sep)
  {
    hide OldOf;
    hide NewOf;
  }

  /** The late pairs have been inserted. */
  lemma EffectDone(all: set<Entry>, all': set<Entry>, late: set<Entry>, ps: seq<Patch>, sep: bool)
    requires Effect(all, all', late, ps, sep)
    ensures Effect(all, all' + late, {}, ps, sep)
  {
    hide OldOf;
    hide NewOf;
  }

  /** Two runs of patches one after the other. */
  lemma EffectJoin(all: set<Entry>, mid: set<Entry>, all': set<Entry>, ps: seq<Patch>, i: nat, j: nat)
    requires i <= j <= |ps| && Effect(all, mid, {}, ps[..i], Separate(ps))
    requires Effect(mid, all', {}, ps[i..j], Separate(ps))
    ensures Effect(all, all', {}, ps[..j], Separate(ps))
  {
    assert ps[..j] == ps[..i] + ps[i..j];
    SetsConcat(ps[..i], ps[i..j]);
    if Separate(ps) { Apart(ps, i, j); }
    hide OldOf;
    hide NewOf;
  }

  lemma SetsConcat(a: seq<Patch>, b: seq<Patch>)
    ensures OldOf(a + b) == OldOf(a) + OldOf(b) && NewOf(a + b) == NewOf(a) + NewOf(b)
  {
    forall e ensures e in OldOf(a + b) <==> e in OldOf(a) + OldOf(b) {
      if e in OldOf(a) { var y :| y in a && e == Entry(y.key, y.was); assert y in a + b; }
      if e in OldOf(b) { var y :| y in b && e == Entry(y.key, y.was); assert y in a + b; }
    }
    forall e ensures e in NewOf(a + b) <==> e in NewOf(a) + NewOf(b) {
      if e in NewOf(a) { var y :| y in a && e == Entry(y.key, y.now); assert y in a + b; }
      if e in NewOf(b) { var y :| y in b && e == Entry(y.key, y.now); assert y in a + b; }
    }
  }

  lemma Apart(ps: seq<Patch>, i: nat, j: nat)
    requires Separate(ps) && i <= j <= |ps|
    ensures NewOf(ps[..i]) !! OldOf(ps[i..j])
  {
    forall y, z | y in ps[..i] && z in ps[i..j] ensures Entry(y.key, y.now) != Entry(z.key, z.was) {
      var a :| 0 <= a < i && ps[..i][a] == y;
      var b :| 0 <= b < |ps[i..j]| && ps[i..j][b] == z;
      assert ps[a] == y && ps[i + b] == z;
    }
  }

  lemma {:induction false} SetsPerm(ps: seq<Patch>, qs: seq<Patch>)
    requires multiset(ps) == multiset(qs)
    ensures OldOf(ps) == OldOf(qs) && NewOf(ps) == NewOf(qs)
  {
    forall x ensures x in ps <==> x in qs {
      assert x in ps <==> x in multiset(ps);
      assert x in qs <==> x in multiset(qs);
    }
  }

  /** The order in which patches are applied does not matter to their effect as a set. */
  lemma EffectPerm(all: set<Entry>, all': set<Entry>, ps: seq<Patch>, qs: seq<Patch>)
    requires multiset(ps) == multiset(qs) && Effect(all, all', {}, qs, Separate(qs))
    ensures Effect(all, all', {}, ps, Separate(ps))
  {
    SetsPerm(ps, qs);
    if Separate(ps) { SeparatePerm(ps, qs); }
    hide OldOf;
    hide NewOf;
    hide Separate;
  }

  lemma EffectParts(all: set<Entry>, all': set<Entry>, late: set<Entry>, ps: seq<Patch>, sep: bool)
    requires Effect(all, all', late, ps, sep)
    ensures all' <= all + NewOf(ps) && all - OldOf(ps) <= all' && late <= NewOf(ps)
  {
    hide OldOf;
    hide NewOf;
  }

  lemma EffectOne(all: set<Entry>, ps: seq<Patch>, i: nat)
    requires i < |ps|
    ensures Effect(all, all, AsSet([Entry(ps[i].key, ps[i].now)]), ps[i..i + 1], Separate(ps))
  {
    var x := ps[i];
    EffectNone(all, Separate(ps));
    EffectLate(all, all, {}, [], x, Separate(ps));
    assert [] + [x] == ps[i..i + 1];
    assert AsSet([Entry(x.key, x.now)]) == {} + {Entry(x.key, x.now)};
  }
}
