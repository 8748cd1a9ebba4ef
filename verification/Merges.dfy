/**
  Merging a sorted run of entries into the entries of a leaf.
 */
module Merges {
  import opened Keys
  import opened Nodes
  import opened Shapes
  import opened Steps

  function AsSet(es: seq<Entry>): set<Entry> {
    set e | e in es
  }

  function EntrySet(n: Node): set<Entry> {
    if n.Leaf? then AsSet(n.entries) else {}
  }

  lemma SetAppend(es: seq<Entry>, e: Entry)
    ensures AsSet(es + [e]) == AsSet(es) + {e}
  {
  }

  lemma SetConcat(a: seq<Entry>, b: seq<Entry>)
    ensures AsSet(a + b) == AsSet(a) + AsSet(b)
  {
  }

  /** How many leading entries have a key in the given range. */
  function RunCount(es: seq<Entry>, min: Key, max: Key): (n: nat)
    ensures n <= |es| && (forall k :: 0 <= k < n ==> Between(es[k].key, min, max))
    ensures n < |es| ==> !Between(es[n].key, min, max)
  {
    if es == [] || !Between(es[0].key, min, max) then 0 else 1 + RunCount(es[1..], min, max)
  }

  /** One linear pass over two runs; equal pairs are kept once. */
  function Merged(old': seq<Entry>, new': seq<Entry>): seq<Entry>
    decreases |old'| + |new'|
  {
    if old' == [] then new'
    else if new' == [] then old'
    else if EntryLess(old'[0], new'[0]) then [old'[0]] + Merged(old'[1..], new')
    else if old'[0] == new'[0] then [old'[0]] + Merged(old'[1..], new'[1..])
    else [new'[0]] + Merged(old', new'[1..])
  }

  /** What the pass takes from the new run: an entry it meets in both is taken from the old one. */
  function Fresh(old': seq<Entry>, new': seq<Entry>): seq<Entry>
    decreases |old'| + |new'|
  {
    if old' == [] then new'
    else if new' == [] then []
    else if EntryLess(old'[0], new'[0]) then Fresh(old'[1..], new')
    else if old'[0] == new'[0] then Fresh(old'[1..], new'[1..])
    else [new'[0]] + Fresh(old', new'[1..])
  }

  lemma BagCons(es: seq<Entry>)
    requires es != []
    ensures multiset(es) == multiset{es[0]} + multiset(es[1..])
  {
    assert es == [es[0]] + es[1..];
  }

  /** The merge holds every old entry as often as before, and what it takes from the new run. */
  lemma {:induction false} MergedBag(old': seq<Entry>, new': seq<Entry>)
    ensures multiset(Merged(old', new')) == multiset(old') + multiset(Fresh(old', new'))
    decreases |old'| + |new'|
  {
    if old' != [] && new' != [] {
      BagCons(old');
      if EntryLess(old'[0], new'[0]) {
        MergedBag(old'[1..], new');
      } else if old'[0] == new'[0] {
        MergedBag(old'[1..], new'[1..]);
      } else {
        MergedBag(old', new'[1..]);
      }
    }
  }

  lemma SetCons(es: seq<Entry>)
    requires es != []
    ensures AsSet(es) == {es[0]} + AsSet(es[1..])
  {
    assert es == [es[0]] + es[1..];
  }

  /** The merge holds exactly the pairs of both runs. */
  lemma {:induction false} MergedSet(old': seq<Entry>, new': seq<Entry>)
    ensures AsSet(Merged(old', new')) == AsSet(old') + AsSet(new') && |Merged(old', new')| >= |old'|
    decreases |old'| + |new'|
  {
    if old' == [] {
    } else if new' == [] {
    } else {
      SetCons(old');
      SetCons(new');
      if EntryLess(old'[0], new'[0]) {
        MergedSet(old'[1..], new');
        SetConcat([old'[0]], Merged(old'[1..], new'));
      } else if old'[0] == new'[0] {
        MergedSet(old'[1..], new'[1..]);
        SetConcat([old'[0]], Merged(old'[1..], new'[1..]));
      } else {
        MergedSet(old', new'[1..]);
        SetConcat([new'[0]], Merged(old', new'[1..]));
      }
    }
  }

  lemma SortedCons(e: Entry, es: seq<Entry>)
    requires KeysSorted(es) && forall x :: x in AsSet(es) ==> Rank(e.key) <= Rank(x.key)
    ensures KeysSorted([e] + es)
  {
    forall i | 0 <= i < |es| ensures Rank(e.key) <= Rank(es[i].key) {
      assert es[i] in AsSet(es);
    }
  }

  lemma HeadLeast(es: seq<Entry>, e: Entry)
    requires KeysSorted(es) && (es != [] ==> Rank(e.key) <= Rank(es[0].key))
    ensures forall x :: x in AsSet(es) ==> Rank(e.key) <= Rank(x.key)
  {
  }

  /** The merge of two runs in key order is in key order. */
  lemma {:induction false} MergedSorted(old': seq<Entry>, new': seq<Entry>)
    requires KeysSorted(old') && KeysSorted(new')
    ensures KeysSorted(Merged(old', new'))
    decreases |old'| + |new'|
  {
    if old' != [] && new' != [] {
      EntryTrichotomy(old'[0], new'[0]);
      hide EntryLess;
      if EntryLess(old'[0], new'[0]) {
        MergedSorted(old'[1..], new');
        MergedSet(old'[1..], new');
        HeadLeast(old'[1..], old'[0]);
        HeadLeast(new', old'[0]);
        SortedCons(old'[0], Merged(old'[1..], new'));
      } else if old'[0] == new'[0] {
        MergedSorted(old'[1..], new'[1..]);
        MergedSet(old'[1..], new'[1..]);
        HeadLeast(old'[1..], old'[0]);
        HeadLeast(new'[1..], old'[0]);
        SortedCons(old'[0], Merged(old'[1..], new'[1..]));
      } else {
        MergedSorted(old', new'[1..]);
        MergedSet(old', new'[1..]);
        HeadLeast(old', new'[0]);
        HeadLeast(new'[1..], new'[0]);
        SortedCons(new'[0], Merged(old', new'[1..]));
      }
    }
  }

  lemma AscendingCons(e: Entry, es: seq<Entry>)
    requires Ascending(es) && forall x :: x in AsSet(es) ==> EntryLess(e, x)
    ensures Ascending([e] + es)
  {
    hide EntryLess;
    forall i | 0 <= i < |es| ensures EntryLess(e, es[i]) {
      assert es[i] in AsSet(es);
    }
  }

  lemma HeadBelow(es: seq<Entry>, e: Entry)
    requires Ascending(es) && (es != [] ==> EntryLess(e, es[0]))
    ensures forall x :: x in AsSet(es) ==> EntryLess(e, x)
  {
    hide EntryLess;
    forall x | x in AsSet(es) ensures EntryLess(e, x) {
      var i :| 0 <= i < |es| && es[i] == x;
      if i > 0 { EntryLessTrans(e, es[0], es[i]); }
    }
  }

  lemma TailAscends(es: seq<Entry>)
    requires Ascending(es) && es != []
    ensures Ascending(es[1..]) && (es[1..] != [] ==> EntryLess(es[0], es[1..][0]))
  {
    hide EntryLess;
  }

  /** The merge of two runs that ascend ascends, so that it holds no pair twice. */
  lemma {:induction false} MergedAscends(old': seq<Entry>, new': seq<Entry>)
    requires Ascending(old') && Ascending(new')
    ensures Ascending(Merged(old', new'))
    decreases |old'| + |new'|
  {
    if old' != [] && new' != [] {
      EntryTrichotomy(old'[0], new'[0]);
      TailAscends(old');
      TailAscends(new');
      hide EntryLess;
      hide Ascending;
      if EntryLess(old'[0], new'[0]) {
        MergedAscends(old'[1..], new');
        MergedSet(old'[1..], new');
        HeadBelow(old'[1..], old'[0]);
        HeadBelow(new', old'[0]);
        AscendingCons(old'[0], Merged(old'[1..], new'));
      } else if old'[0] == new'[0] {
        MergedAscends(old'[1..], new'[1..]);
        MergedSet(old'[1..], new'[1..]);
        HeadBelow(old'[1..], old'[0]);
        HeadBelow(new'[1..], old'[0]);
        AscendingCons(old'[0], Merged(old'[1..], new'[1..]));
      } else {
        MergedAscends(old', new'[1..]);
        MergedSet(old', new'[1..]);
        HeadBelow(old', new'[0]);
        HeadBelow(new'[1..], new'[0]);
        AscendingCons(new'[0], Merged(old', new'[1..]));
      }
    }
  }

  lemma {:induction false} FreshInside(old': seq<Entry>, new': seq<Entry>)
    ensures multiset(Fresh(old', new')) <= multiset(new')
    decreases |old'| + |new'|
  {
    if old' != [] && new' != [] {
      BagCons(new');
      if EntryLess(old'[0], new'[0]) {
        FreshInside(old'[1..], new');
      } else if old'[0] == new'[0] {
        FreshInside(old'[1..], new'[1..]);
      } else {
        FreshInside(old', new'[1..]);
      }
    }
  }

  /** A payload-free leaf holds its entries with empty payloads. */
  lemma BareRows(n: Node, n': Node)
    requires n.Leaf? && n'.Leaf? && n.payloads == [] && n'.payloads == [] && EntrySet(n) <= EntrySet(n')
    ensures RowSet(n) <= RowSet(n')
  {
    forall r | r in RowSet(n) ensures r in RowSet(n') {
      var i :| 0 <= i < |n.entries| && RowsOf(n.entries, n.payloads)[i] == r;
      assert n.entries[i] in EntrySet(n);
      var j :| 0 <= j < |n'.entries| && n'.entries[j] == n.entries[i];
      assert RowsOf(n'.entries, n'.payloads)[j] == r;
    }
  }

  /** Every merged entry has a key of the leaf's kind, between the leaf's first and last key. */
  lemma MergedInside(n: Node, kind: Kind, run: seq<Entry>, e: Entry)
    requires n.Leaf? && KeysSorted(n.entries) && NodeKind(n, kind) && n.entries != []
    requires forall k :: 0 <= k < |run| ==> Between(run[k].key, n.entries[0].key, n.entries[|n.entries| - 1].key)
    requires forall k :: 0 <= k < |run| ==> KindOf(run[k].key) == kind
    requires e in AsSet(n.entries) + AsSet(run)
    ensures Rank(n.entries[0].key) <= Rank(e.key) <= Rank(n.entries[|n.entries| - 1].key) && KindOf(e.key) == kind
  {
    if e in n.entries {
      var k :| 0 <= k < |n.entries| && n.entries[k] == e;
    } else {
      var k :| 0 <= k < |run| && run[k] == e;
    }
  }

  /** What a payload-free leaf becomes when a run of keys between its first and last is merged in. */
  lemma MergedLeaf(n: Node, p: PageId, g: Shape, kind: Kind, run: seq<Entry>)
    requires LeafOk(n, p, g) && NodeKind(n, kind) && n.payloads == [] && n.entries != [] && KeysSorted(run)
    requires forall k :: 0 <= k < |run| ==> Between(run[k].key, n.entries[0].key, n.entries[|n.entries| - 1].key)
    requires forall k :: 0 <= k < |run| ==> KindOf(run[k].key) == kind
    ensures var full := Leaf(Merged(n.entries, run), [], n.next);
            && LeafOk(full, p, g) && NodeKind(full, kind) && full.entries != []
            && EntrySet(full) == EntrySet(n) + AsSet(run) && RowSet(n) <= RowSet(full)
            && Rank(full.entries[0].key) == Rank(n.entries[0].key)
  {
    var es := Merged(n.entries, run);
    MergedSorted(n.entries, run);
    MergedSet(n.entries, run);
    hide Merged;
    forall i | 0 <= i < |es|
      ensures Rank(n.entries[0].key) <= Rank(es[i].key) <= Rank(n.entries[|n.entries| - 1].key)
      ensures KindOf(es[i].key) == kind
    {
      assert es[i] in AsSet(es);
      MergedInside(n, kind, run, es[i]);
    }
    MergedFirst(n, es);
    MergedOk(n, p, g, kind, es);
    BareRows(n, Leaf(es, [], n.next));
  }

  lemma MergedFirst(n: Node, es: seq<Entry>)
    requires n.Leaf? && n.entries != [] && AsSet(n.entries) <= AsSet(es) && KeysSorted(es)
    requires forall i :: 0 <= i < |es| ==> Rank(n.entries[0].key) <= Rank(es[i].key)
    ensures es != [] && Rank(es[0].key) == Rank(n.entries[0].key)
  {
    assert n.entries[0] in AsSet(es);
    var j :| 0 <= j < |es| && es[j] == n.entries[0];
  }

  lemma MergedOk(n: Node, p: PageId, g: Shape, kind: Kind, es: seq<Entry>)
    requires LeafOk(n, p, g) && n.payloads == [] && n.entries != [] && KeysSorted(es)
    requires forall i :: 0 <= i < |es| ==>
               Rank(n.entries[0].key) <= Rank(es[i].key) <= Rank(n.entries[|n.entries| - 1].key)
               && KindOf(es[i].key) == kind
    ensures LeafOk(Leaf(es, [], n.next), p, g) && NodeKind(Leaf(es, [], n.next), kind)
  {
  }
}
