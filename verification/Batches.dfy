/**
  Batched insertion into payload-free leaves: merging a sorted run into a leaf, and
  absorbing entries one by one while they fit.
 */
module Batches {
  import opened Keys
  import opened Nodes
  import opened Shapes
  import opened Steps
  import opened Searches
  import opened Trees
  import opened Spelling
  import opened Inserts
  import opened Edits
  import opened Walks
  import opened Merges
  import opened Patches
  import opened Accounts

  /** How many entries from `i` on have a key in the given range. */
  method CountRun(es: seq<Entry>, i: nat, min: Key, max: Key) returns (n: nat)
    requires i <= |es|
    ensures i + n <= |es| && (forall k :: i <= k < i + n ==> Between(es[k].key, min, max))
    ensures i + n < |es| ==> !Between(es[i + n].key, min, max)
    ensures n == RunCount(es[i..], min, max)
  {
    n := 0;
    while i + n < |es| && Between(es[i + n].key, min, max)
      invariant i + n <= |es| && forall k :: i <= k < i + n ==> Between(es[k].key, min, max)
    {
      n := n + 1;
    }
    RunCountIs(es[i..], min, max, n);
  }

  lemma RunCountIs(es: seq<Entry>, min: Key, max: Key, n: nat)
    requires n <= |es| && (forall k :: 0 <= k < n ==> Between(es[k].key, min, max))
    requires n < |es| ==> !Between(es[n].key, min, max)
    ensures n == RunCount(es, min, max)
  {
  }

  // ── merging ────────────────────────────────────────────────────────────────

  /** The merge loop: what is left to merge, behind what is out already, is the whole merge. */
  method Merge(old': seq<Entry>, new': seq<Entry>) returns (out: seq<Entry>)
    ensures out == Merged(old', new')
  {
    hide *;
    var oi, bi := 0, 0;
    out := [];
    assert old'[0..] == old' && new'[0..] == new';
    while oi < |old'| && bi < |new'|
      invariant oi <= |old'| && bi <= |new'| && out + Merged(old'[oi..], new'[bi..]) == Merged(old', new')
      decreases |old'| + |new'| - oi - bi
    {
      var o, b := old'[oi], new'[bi];
      MergedHead(old', new', oi, bi, out);
      if EntryLess(o, b) {
        out, oi := out + [o], oi + 1;
      } else if o == b {
        out, oi, bi := out + [o], oi + 1, bi + 1;
      } else {
        out, bi := out + [b], bi + 1;
      }
    }
    MergedTail(old'[oi..], new'[bi..]);
    out := out + (old'[oi..] + new'[bi..]);
  }

  lemma MergedHead(old': seq<Entry>, new': seq<Entry>, oi: nat, bi: nat, out: seq<Entry>)
    requires oi < |old'| && bi < |new'|
    ensures var o, b := old'[oi], new'[bi];
            out + Merged(old'[oi..], new'[bi..]) ==
            if EntryLess(o, b) then (out + [o]) + Merged(old'[oi + 1..], new'[bi..])
            else if o == b then (out + [o]) + Merged(old'[oi + 1..], new'[bi + 1..])
            else (out + [b]) + Merged(old'[oi..], new'[bi + 1..])
  {
    hide EntryLess;
    assert old'[oi..][1..] == old'[oi + 1..] && new'[bi..][1..] == new'[bi + 1..];
  }

  lemma MergedTail(old': seq<Entry>, new': seq<Entry>)
    requires old' == [] || new' == []
    ensures Merged(old', new') == old' + new'
  {
  }

  // ── absorbing ──────────────────────────────────────────────────────────────

  /** Leaf `n` after entries `es[i..j]` went in. */
  ghost predicate Absorbed(n: Node, n': Node, p: PageId, g: Shape, kind: Kind, run: seq<Entry>) {
    && n.Leaf? && n'.Leaf? && n'.payloads == [] && LeafOk(n', p, g) && NodeKind(n', kind)
    && EntrySet(n') == EntrySet(n) + AsSet(run) && (PlainLeaf(n, p, g) ==> PlainLeaf(n', p, g))
    && multiset(n.entries) <= multiset(n'.entries) <= multiset(n.entries) + multiset(run)
    && (Ascending(n.entries) ==> Ascending(n'.entries))
  }

  lemma AbsorbStart(n: Node, p: PageId, g: Shape, kind: Kind)
    requires LeafOk(n, p, g) && NodeKind(n, kind) && n.payloads == []
    ensures Absorbed(n, n, p, g, kind, [])
  {
    hide LeafOk;
    hide NodeKind;
    hide PlainLeaf;
    assert n.Leaf? by { LeafParts(g, p, n, kind); }
  }

  lemma AbsorbDuplicate(n: Node, n': Node, p: PageId, g: Shape, kind: Kind, run: seq<Entry>, e: Entry)
    requires Absorbed(n, n', p, g, kind, run) && e in n'.entries
    ensures Absorbed(n, n', p, g, kind, run + [e])
  {
    hide LeafOk;
    hide NodeKind;
    hide PlainLeaf;
    hide Ascending;
    SetAppend(run, e);
    assert multiset(run) <= multiset(run + [e]);
  }

  lemma AbsorbNew(n: Node, n': Node, p: PageId, g: Shape, kind: Kind, run: seq<Entry>, e: Entry, pos: nat)
    requires Absorbed(n, n', p, g, kind, run) && IsInsertPos(n'.entries, e, pos) && InRange(g, p, e.key)
    requires KindOf(e.key) == kind
    ensures Absorbed(n, LeafInsert(n', pos, e, []), p, g, kind, run + [e])
    ensures BodyLen(LeafInsert(n', pos, e, [])) == BodyLen(n') + KeyLen(e.key) + LENGTH_FIELD + ROWID_LEN
  {
    hide *;
    AbsorbedParts(n, n', p, g, kind, run);
    InsertedLeaf(g, p, n', pos, e, [], kind);
    if PlainLeaf(n, p, g) { PlainGrow(n', p, g, pos, e); }
    BareInsert(n', pos, e);
    SetAppend(run, e);
    assert multiset(run + [e]) == multiset(run) + multiset{e};
    OneMoreEntry(n'.entries, pos, e);
    if Ascending(n.entries) { InsertPosAscends(n'.entries, e, pos); }
    AbsorbedIntro(n, LeafInsert(n', pos, e, []), p, g, kind, run + [e]);
    LeafParts(g, p, n', kind);
    LeafInsertRows(n', pos, e, []);
    RowLenIs(Row(e.key, e.rid, []));
  }

  lemma RowLenIs(r: Row)
    ensures RowLen(r) == KeyLen(r.key) + LENGTH_FIELD + |r.payload| + ROWID_LEN
  {
  }

  lemma AbsorbedParts(n: Node, n': Node, p: PageId, g: Shape, kind: Kind, run: seq<Entry>)
    requires Absorbed(n, n', p, g, kind, run)
    ensures n.Leaf? && n'.Leaf? && n'.payloads == [] && LeafOk(n', p, g) && NodeKind(n', kind)
    ensures EntrySet(n') == EntrySet(n) + AsSet(run) && (PlainLeaf(n, p, g) ==> PlainLeaf(n', p, g))
    ensures multiset(n.entries) <= multiset(n'.entries) <= multiset(n.entries) + multiset(run)
    ensures Ascending(n.entries) ==> Ascending(n'.entries)
  {
    hide LeafOk;
    hide NodeKind;
    hide PlainLeaf;
    hide AsSet;
    hide EntrySet;
    hide Ascending;
  }

  lemma AbsorbedIntro(n: Node, n': Node, p: PageId, g: Shape, kind: Kind, run: seq<Entry>)
    requires n.Leaf? && n'.Leaf? && n'.payloads == [] && LeafOk(n', p, g) && NodeKind(n', kind)
    requires EntrySet(n') == EntrySet(n) + AsSet(run) && (PlainLeaf(n, p, g) ==> PlainLeaf(n', p, g))
    requires multiset(n.entries) <= multiset(n'.entries) <= multiset(n.entries) + multiset(run)
    requires Ascending(n.entries) ==> Ascending(n'.entries)
    ensures Absorbed(n, n', p, g, kind, run)
  {
    hide LeafOk;
    hide NodeKind;
    hide PlainLeaf;
    hide AsSet;
    hide EntrySet;
    hide Ascending;
  }

  lemma BareInsert(n: Node, pos: nat, e: Entry)
    requires n.Leaf? && n.payloads == [] && IsInsertPos(n.entries, e, pos)
    ensures var n' := LeafInsert(n, pos, e, []);
            n'.Leaf? && n'.payloads == [] && EntrySet(n') == EntrySet(n) + {e} && pos <= |n.entries|
            && PayloadsAligned(n) && n'.entries == InsertAt(n.entries, pos, e)
  {
    hide EntryLess;
    var n' := LeafInsert(n, pos, e, []);
    forall x ensures x in EntrySet(n') <==> x in EntrySet(n) + {e} {
      assert n.entries == n.entries[..pos] + n.entries[pos..];
    }
  }

  lemma OneMoreEntry(entries: seq<Entry>, pos: nat, e: Entry)
    requires pos <= |entries|
    ensures multiset(InsertAt(entries, pos, e)) == multiset(entries) + multiset{e}
  {
    assert entries == entries[..pos] + entries[pos..];
  }

  lemma BetweenInRange(n: Node, p: PageId, g: Shape, v: Key)
    requires LeafOk(n, p, g) && n.entries != [] && Between(v, n.entries[0].key, n.entries[|n.entries| - 1].key)
    ensures InRange(g, p, v)
  {
  }
}
