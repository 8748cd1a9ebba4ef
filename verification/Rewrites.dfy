/**
  Rewriting one latched leaf: dropping entries, giving entries other row ids, and adding
  entries between the leaf's first and last key. Removing, setting a value, patching and
  absorbing a run each rewrite a leaf this way.
 */
module Rewrites {
  import opened Keys
  import opened Nodes
  import opened Shapes
  import opened Steps
  import opened Searches
  import opened Spelling
  import opened Edits

  datatype Edit = Drop(at: nat) | Patch(at: nat, now: Entry) | Add(pos: nat, new': Entry)

  /** Between the first and the last key of leaf `n`. */
  predicate Spanned(n: Node, k: Key) {
    n.Leaf? && n.entries != [] && Between(k, n.entries[0].key, n.entries[|n.entries| - 1].key)
  }

  /** `home` is the leaf as it was latched; additions stay between its keys. */
  predicate EditOk(kind: Kind, home: Node, n: Node, ed: Edit) {
    n.Leaf? &&
    match ed
    case Drop(at) => at < |n.entries|
    case Patch(at, now) => at < |n.entries| && n.entries[at].key == now.key
    case Add(pos, e) =>
      n.payloads == [] && KindOf(e.key) == kind && Spanned(home, e.key) && IsInsertPos(n.entries, e, pos)
  }

  function EditOne(n: Node, ed: Edit): Node {
    match ed
    case Drop(at) => DropAt(n, at)
    case Patch(at, now) => SetRid(n, at, now.rid)
    case Add(pos, e) => LeafInsert(n, pos, e, [])
  }

  function EditAll(kind: Kind, home: Node, n: Node, edits: seq<Edit>): Option<Node>
    decreases |edits|
  {
    if edits == [] then Some(n)
    else if EditOk(kind, home, n, edits[0]) then EditAll(kind, home, EditOne(n, edits[0]), edits[1..])
    else None
  }

  /** The pair an edit takes away. */
  function OldPair(n: Node, ed: Edit): set<Entry> {
    if n.Leaf? && !ed.Add? && ed.at < |n.entries| then {n.entries[ed.at]} else {}
  }

  /** The pair an edit brings in. */
  function NewPair(ed: Edit): set<Entry> {
    match ed
    case Drop(_) => {}
    case Patch(_, now) => {now}
    case Add(_, e) => {e}
  }

  function OldPairs(n: Node, edits: seq<Edit>): set<Entry>
    decreases |edits|
  {
    if edits == [] then {} else OldPair(n, edits[0]) + OldPairs(EditOne(n, edits[0]), edits[1..])
  }

  function NewPairs(edits: seq<Edit>): set<Entry> {
    if edits == [] then {} else NewPair(edits[0]) + NewPairs(edits[1..])
  }

  // ── what a rewrite keeps ───────────────────────────────────────────────────

  /** Rows whose pair is not in `lost` stay, and only pairs in `new'` come in. */
  ghost predicate Keeps(n: Node, n': Node, lost: set<Entry>, new': set<Entry>) {
    && (forall r :: r in RowSet(n) && Entry(r.key, r.rid) !in lost ==> r in RowSet(n'))
    && new' - lost <= Pairs(RowSet(n')) <= Pairs(RowSet(n)) + new'
  }

  lemma PairOf(n: Node, r: Row)
    requires r in RowSet(n)
    ensures Entry(r.key, r.rid) in Pairs(RowSet(n))
  {
  }

  lemma RowAtIndex(n: Node, i: nat)
    requires n.Leaf? && i < |n.entries|
    ensures LeafRows(n)[i] in RowSet(n) && Entry(LeafRows(n)[i].key, LeafRows(n)[i].rid) == n.entries[i]
  {
    assert LeafRows(n)[i] in LeafRows(n);
  }

  lemma RowIndex(n: Node, r: Row) returns (i: nat)
    requires r in RowSet(n)
    ensures n.Leaf? && i < |LeafRows(n)| == |n.entries| && LeafRows(n)[i] == r && Entry(r.key, r.rid) == n.entries[i]
  {
    assert n.Leaf? && r in LeafRows(n);
    i :| i < |LeafRows(n)| && LeafRows(n)[i] == r;
  }

  lemma SpliceMembers(rows: seq<Row>, at: nat, r: Row)
    requires at < |rows|
    ensures r in Splice(rows, at, [], at + 1) ==> r in rows
    ensures r in rows && r != rows[at] ==> r in Splice(rows, at, [], at + 1)
  {
    assert rows == rows[..at] + [rows[at]] + rows[at + 1..];
  }

  lemma DropKeeps(n: Node, at: nat)
    requires n.Leaf? && PayloadsAligned(n) && at < |n.entries|
    ensures Keeps(n, DropAt(n, at), {n.entries[at]}, {})
  {
    var n' := DropAt(n, at);
    DropRows(n, at);
    DropIsLeaf(n, at);
    RowAtIndex(n, at);
    hide DropAt;
    hide PayloadsAligned;
    hide RowsOf;
    hide Splice;
    forall r ensures r in RowSet(n') ==> r in RowSet(n)
      ensures r in RowSet(n) && r != LeafRows(n)[at] ==> r in RowSet(n')
    {
      SpliceMembers(LeafRows(n), at, r);
    }
  }

  lemma PatchKeeps(n: Node, at: nat, now: Entry)
    requires n.Leaf? && at < |n.entries| && n.entries[at].key == now.key
    ensures Keeps(n, SetRid(n, at, now.rid), {n.entries[at]}, {now})
  {
    var n' := SetRid(n, at, now.rid);
    SetRows(n, at, now.rid);
    assert |n'.entries| == |n.entries| && n'.entries[at] == now;
    hide SetRid;
    forall r | r in RowSet(n) && Entry(r.key, r.rid) != n.entries[at] ensures r in RowSet(n') {
      var i := RowIndex(n, r);
      assert LeafRows(n')[i] == r;
      RowAtIndex(n', i);
    }
    RowAtIndex(n', at);
    PairOf(n', LeafRows(n')[at]);
    forall e | e in Pairs(RowSet(n')) ensures e in Pairs(RowSet(n)) + {now} {
      var r :| r in RowSet(n') && e == Entry(r.key, r.rid);
      var i := RowIndex(n', r);
      if i != at {
        RowAtIndex(n, i);
        PairOf(n, LeafRows(n)[i]);
      }
    }
  }

  lemma AddKeeps(n: Node, n': Node, e: Entry)
    requires RowSet(n') == RowSet(n) + {Row(e.key, e.rid, [])}
    ensures Keeps(n, n', {}, {e})
  {
    hide RowSet;
    assert Row(e.key, e.rid, []) in RowSet(n');
  }

  lemma SpannedInRange(home: Node, p: PageId, g: Shape, k: Key)
    requires LeafOk(home, p, g) && Spanned(home, k)
    ensures InRange(g, p, k)
  {
  }

  /** One edit keeps the leaf sound. */
  lemma EditOneKeeps(kind: Kind, home: Node, n: Node, p: PageId, g: Shape, ed: Edit)
    requires LeafOk(home, p, g) && LeafOk(n, p, g) && NodeKind(n, kind) && EditOk(kind, home, n, ed)
    ensures LeafOk(EditOne(n, ed), p, g) && NodeKind(EditOne(n, ed), kind)
    ensures Keeps(n, EditOne(n, ed), OldPair(n, ed), NewPair(ed))
  {
    hide LeafOk;
    hide NodeKind;
    hide RowSet;
    hide Keeps;
    hide Spanned;
    hide IsInsertPos;
    LeafParts(g, p, n, kind);
    match ed
    case Drop(at) =>
      DropOk(n, p, g, kind, at);
      DropKeeps(n, at);
    case Patch(at, now) =>
      SetOk(n, p, g, kind, at, now.rid);
      PatchKeeps(n, at, now);
    case Add(pos, e) =>
      SpannedInRange(home, p, g, e.key);
      InsertedLeaf(g, p, n, pos, e, [], kind);
      AddKeeps(n, LeafInsert(n, pos, e, []), e);
  }

  lemma KeepsMore(n: Node, m: Node, n': Node, lost: set<Entry>, new': set<Entry>, lost': set<Entry>, new'': set<Entry>)
    requires Keeps(n, m, lost, new') && Keeps(m, n', lost', new'')
    ensures Keeps(n, n', lost + lost', new' + new'')
  {
    hide RowSet;
    forall e | e in new' - (lost + lost') ensures e in Pairs(RowSet(n')) {
      assert e in Pairs(RowSet(m));
      var r :| r in RowSet(m) && e == Entry(r.key, r.rid);
      assert r in RowSet(n');
    }
  }

  /** A rewrite keeps the leaf sound, loses only the pairs it takes away and brings in only its own. */
  lemma {:induction false} EditAllKeeps(kind: Kind, home: Node, n: Node, p: PageId, g: Shape, edits: seq<Edit>)
    requires LeafOk(home, p, g) && LeafOk(n, p, g) && NodeKind(n, kind) && EditAll(kind, home, n, edits).Some?
    ensures var n' := EditAll(kind, home, n, edits).value;
            LeafOk(n', p, g) && NodeKind(n', kind) && Keeps(n, n', OldPairs(n, edits), NewPairs(edits))
    decreases |edits|
  {
    hide LeafOk;
    hide NodeKind;
    hide EditOk;
    hide EditOne;
    if edits == [] {
      assert Keeps(n, n, {}, {});
    } else {
      hide Keeps;
      var m := EditOne(n, edits[0]);
      EditOneKeeps(kind, home, n, p, g, edits[0]);
      EditAllKeeps(kind, home, m, p, g, edits[1..]);
      KeepsMore(n, m, EditAll(kind, home, m, edits[1..]).value, OldPair(n, edits[0]), NewPair(edits[0]),
                OldPairs(m, edits[1..]), NewPairs(edits[1..]));
    }
  }

  /** The rewrite of a leaf of the tree. */
  lemma RewriteWrite(pages: Pages, root: PageId, g: Shape, pend: set<PageId>, kind: Kind, p: PageId, n: Node,
                     lost: set<Entry>, new': set<Entry>)
    requires TreeInv(pages, root, g, pend, kind) && p in g.spans && g.spans[p].level == 0 && p in pages
    requires LeafOk(n, p, g) && NodeKind(n, kind) && Keeps(pages[p], n, lost, new')
    ensures TreeInv(pages[p := n], root, g, pend, kind) && EvolvesBut(pages, g, pages[p := n], g, lost)
    ensures Pairs(Rows(pages, g)) + new' - lost <= Pairs(Rows(pages[p := n], g)) <= Pairs(Rows(pages, g)) + new'
  {
    hide *;
    ShapeParts(pages, root, g, pend, kind);
    RewriteLeaf(pages, root, g, pend, kind, p, n);
    RewriteEvolves(pages, g, p, n, lost, new');
    RewritePairs(pages, g, p, n, lost, new');
  }

  lemma RewriteEvolves(pages: Pages, g: Shape, p: PageId, n: Node, lost: set<Entry>, new': set<Entry>)
    requires g.spans.Keys <= pages.Keys && p in g.spans && Keeps(pages[p], n, lost, new')
    ensures EvolvesBut(pages, g, pages[p := n], g, lost)
  {
    hide RowSet;
    hide Pairs;
    var pages' := pages[p := n];
    forall x, r | x in g.spans && x in pages && r in RowSet(pages[x]) && Entry(r.key, r.rid) !in lost
      ensures FoundFrom(pages', g, r, g.spans[x].a)
    {
      FoundAt(pages', g, x, r, g.spans[x].a);
    }
  }

  lemma RewritePairs(pages: Pages, g: Shape, p: PageId, n: Node, lost: set<Entry>, new': set<Entry>)
    requires g.spans.Keys <= pages.Keys && p in g.spans && Keeps(pages[p], n, lost, new')
    ensures Pairs(Rows(pages, g)) + new' - lost <= Pairs(Rows(pages[p := n], g)) <= Pairs(Rows(pages, g)) + new'
  {
    hide RowSet;
    var pages' := pages[p := n];
    forall e | e in Pairs(Rows(pages, g)) + new' - lost ensures e in Pairs(Rows(pages', g)) {
      if e in new' {
        assert e in Pairs(RowSet(n));
        var r :| r in RowSet(n) && e == Entry(r.key, r.rid);
        assert r in RowSet(pages'[p]);
        assert r in Rows(pages', g);
      } else {
        var r :| r in Rows(pages, g) && e == Entry(r.key, r.rid);
        var x :| x in g.spans && x in pages && r in RowSet(pages[x]);
        assert r in RowSet(pages'[x]);
        assert r in Rows(pages', g);
      }
    }
    forall e | e in Pairs(Rows(pages', g)) ensures e in Pairs(Rows(pages, g)) + new' {
      var r :| r in Rows(pages', g) && e == Entry(r.key, r.rid);
      var x :| x in g.spans && x in pages' && r in RowSet(pages'[x]);
      if x == p {
        assert e in Pairs(RowSet(n));
        if e !in new' {
          var r' :| r' in RowSet(pages[p]) && e == Entry(r'.key, r'.rid);
          assert r' in Rows(pages, g);
        }
      } else {
        assert r in Rows(pages, g);
      }
    }
  }
}
