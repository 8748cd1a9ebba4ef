/**
  How large nodes get: fixed-width keys make every node a single insert writes fit its
  page, and tell exactly when the two halves of a batch split fit.
 */
module Sizes {
  import opened Keys
  import opened Nodes
  import opened Shapes

  const PAGE_HEADER := 28
  const MIN_PAGE := 4096

  function BodyCapacity(pageSize: nat): nat
    requires pageSize >= MIN_PAGE
  {
    pageSize - PAGE_HEADER
  }

  /** Keys of one width: integers and booleans. */
  predicate FixedWidth(kind: Kind) {
    kind == IntKind || kind == BoolKind
  }

  function KeyWidth(kind: Kind): nat {
    if kind == IntKind then 9 else 2
  }

  function EntryWidth(kind: Kind): nat {
    KeyWidth(kind) + LENGTH_FIELD + ROWID_LEN
  }

  lemma WidthOf(k: Key, kind: Kind)
    requires FixedWidth(kind) && KindOf(k) == kind
    ensures KeyLen(k) == KeyWidth(kind)
  {
  }

  lemma {:induction false} BareRowsLen(rows: seq<Row>, kind: Kind)
    requires FixedWidth(kind) && forall i :: 0 <= i < |rows| ==> KindOf(rows[i].key) == kind && rows[i].payload == []
    ensures RowsLen(rows) == EntryWidth(kind) * |rows|
  {
    if rows != [] {
      BareRowsLen(rows[1..], kind);
      WidthOf(rows[0].key, kind);
      assert EntryWidth(kind) * |rows| == EntryWidth(kind) * |rows[1..]| + EntryWidth(kind);
    }
  }

  lemma {:induction false} FixedKeysLen(keys: seq<Key>, kind: Kind)
    requires FixedWidth(kind) && forall i :: 0 <= i < |keys| ==> KindOf(keys[i]) == kind
    ensures KeysLen(keys) == (KeyWidth(kind) + CHILD_LEN) * |keys|
  {
    if keys != [] {
      FixedKeysLen(keys[1..], kind);
      WidthOf(keys[0], kind);
      assert (KeyWidth(kind) + CHILD_LEN) * |keys| ==
               (KeyWidth(kind) + CHILD_LEN) * |keys[1..]| + (KeyWidth(kind) + CHILD_LEN);
    }
  }

  lemma BareLeafLen(n: Node, kind: Kind)
    requires n.Leaf? && n.payloads == [] && NodeKind(n, kind) && FixedWidth(kind)
    ensures BodyLen(n) == NODE_HEADER + EntryWidth(kind) * |n.entries|
  {
    BareRowsLen(RowsOf(n.entries, n.payloads), kind);
  }

  lemma InnerLen(n: Node, kind: Kind)
    requires n.Internal? && NodeKind(n, kind) && FixedWidth(kind)
    ensures BodyLen(n) == NODE_HEADER + (KeyWidth(kind) + CHILD_LEN) * |n.keys|
  {
    FixedKeysLen(n.keys, kind);
  }

  lemma MulMono(w: nat, a: nat, b: nat)
    requires a <= b
    ensures w * a <= w * b
  {
  }

  lemma BareHalves(n: Node, r: PageId, kind: Kind)
    requires n.Leaf? && n.payloads == [] && NodeKind(n, kind) && FixedWidth(kind)
    ensures BodyLen(LeafLeft(n, r)) == NODE_HEADER + EntryWidth(kind) * (|n.entries| / 2)
    ensures BodyLen(LeafRight(n)) == NODE_HEADER + EntryWidth(kind) * (|n.entries| - |n.entries| / 2)
  {
    BareLeafLen(LeafLeft(n, r), kind);
    BareLeafLen(LeafRight(n), kind);
  }

  /** A leaf that fitted before one entry was added splits into halves that fit. */
  lemma LeafHalvesFit(n: Node, r: PageId, kind: Kind, cap: nat, count: nat)
    requires n.Leaf? && n.payloads == [] && NodeKind(n, kind) && FixedWidth(kind) && |n.entries| == count + 1
    requires NODE_HEADER + EntryWidth(kind) * count <= cap && NODE_HEADER + EntryWidth(kind) <= cap
    ensures BodyLen(LeafLeft(n, r)) <= cap && BodyLen(LeafRight(n)) <= cap
  {
    BareHalves(n, r, kind);
    var w := EntryWidth(kind);
    var half := |n.entries| - |n.entries| / 2;
    MulMono(w, |n.entries| / 2, half);
    if count == 0 { assert half == 1; } else { MulMono(w, half, count); }
  }

  lemma InnerHalvesFit(n: Node, kind: Kind, cap: nat, count: nat)
    requires n.Internal? && NodeKind(n, kind) && FixedWidth(kind) && |n.keys| == count + 1
    requires |n.children| == |n.keys| + 1
    requires NODE_HEADER + (KeyWidth(kind) + CHILD_LEN) * count <= cap
    ensures BodyLen(InternalLeft(n)) <= cap && BodyLen(InternalRight(n)) <= cap
  {
    InnerLen(InternalLeft(n), kind);
    InnerLen(InternalRight(n), kind);
    MulMono(KeyWidth(kind) + CHILD_LEN, |InternalLeft(n).keys|, count);
    MulMono(KeyWidth(kind) + CHILD_LEN, |InternalRight(n).keys|, count);
  }

  function HalfUp(n: nat): nat {
    (n + 1) / 2
  }

  /** The halves of a batch split fit exactly if the larger one does. */
  lemma BatchHalvesFit(n: Node, r: PageId, kind: Kind, cap: nat)
    requires n.Leaf? && n.payloads == [] && NodeKind(n, kind) && FixedWidth(kind)
    ensures (BodyLen(LeafLeft(n, r)) <= cap && BodyLen(LeafRight(n)) <= cap)
              <==> NODE_HEADER + EntryWidth(kind) * HalfUp(|n.entries|) <= cap
  {
    BareHalves(n, r, kind);
    assert |n.entries| - |n.entries| / 2 == HalfUp(|n.entries|);
    MulMono(EntryWidth(kind), |n.entries| / 2, HalfUp(|n.entries|));
  }

  /** The guard of the batch split admits a leaf whose right half overflows an 8 KiB page. */
  lemma BatchGuardTooWeak(n: Node, r: PageId)
    requires n.Leaf? && n.payloads == [] && NodeKind(n, IntKind) && |n.entries| == 859
    ensures BodyLen(n) <= 2 * BodyCapacity(8192) && BodyLen(LeafRight(n)) == 8177 > BodyCapacity(8192)
  {
    BareLeafLen(n, IntKind);
    BareHalves(n, r, IntKind);
  }
}
