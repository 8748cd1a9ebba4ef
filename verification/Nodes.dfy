/**
  B+tree nodes and the pure decisions made on one node: routing, the insert-safety
  test, entry insertion with its covering payload, and the two splits.
 */
module Nodes {
  import opened Keys

  /** Include-column payloads run parallel to the entries; an empty list means none. */
  datatype Node =
    | Leaf(entries: seq<Entry>, payloads: seq<seq<byte>>, next: PageId)
    | Internal(keys: seq<Key>, children: seq<PageId>)

  /** One logical row of a leaf: its entry together with its covering payload. */
  datatype Row = Row(key: Key, rid: RowId, payload: seq<byte>)

  const ROWID_LEN := 6
  const LENGTH_FIELD := 4
  const CHILD_LEN := 4
  const NODE_HEADER := 7

  // ── rows of a leaf ─────────────────────────────────────────────────────────

  predicate PayloadsAligned(n: Node) {
    n.Leaf? ==> n.payloads == [] || |n.payloads| == |n.entries|
  }

  function PayloadAt(payloads: seq<seq<byte>>, i: nat): seq<byte> {
    if i < |payloads| then payloads[i] else []
  }

  function RowsOf(entries: seq<Entry>, payloads: seq<seq<byte>>): (rows: seq<Row>)
    ensures |rows| == |entries|
  {
    seq(|entries|, i requires 0 <= i < |entries| =>
      Row(entries[i].key, entries[i].rid, PayloadAt(payloads, i)))
  }

  ghost function RowSet(n: Node): set<Row> {
    if n.Leaf? then set r | r in RowsOf(n.entries, n.payloads) else {}
  }

  ghost predicate KeysSorted(entries: seq<Entry>) {
    forall i, j :: 0 <= i < j < |entries| ==> Rank(entries[i].key) <= Rank(entries[j].key)
  }

  // ── sizes ──────────────────────────────────────────────────────────────────

  function KeyLen(k: Key): nat {
    match k
    case IntKey(_) => 9
    case TextKey(s) => 3 + |s|
    case BoolKey(_) => 2
  }

  function RowLen(r: Row): nat {
    KeyLen(r.key) + LENGTH_FIELD + |r.payload| + ROWID_LEN
  }

  function RowsLen(rows: seq<Row>): nat {
    if rows == [] then 0 else RowLen(rows[0]) + RowsLen(rows[1..])
  }

  function KeysLen(keys: seq<Key>): nat {
    if keys == [] then 0 else KeyLen(keys[0]) + CHILD_LEN + KeysLen(keys[1..])
  }

  /** Serialized size of a node, page header excluded. */
  function BodyLen(n: Node): nat {
    match n
    case Leaf(entries, payloads, _) => NODE_HEADER + RowsLen(RowsOf(entries, payloads))
    case Internal(keys, _) => NODE_HEADER + KeysLen(keys)
  }

  lemma {:induction false} RowsLenConcat(a: seq<Row>, b: seq<Row>)
    ensures RowsLen(a + b) == RowsLen(a) + RowsLen(b)
  {
    if a == [] {
      assert a + b == b;
    } else {
      assert (a + b)[1..] == a[1..] + b;
      RowsLenConcat(a[1..], b);
    }
  }

  lemma {:induction false} KeysLenConcat(a: seq<Key>, b: seq<Key>)
    ensures KeysLen(a + b) == KeysLen(a) + KeysLen(b)
  {
    if a == [] {
      assert a + b == b;
    } else {
      assert (a + b)[1..] == a[1..] + b;
      KeysLenConcat(a[1..], b);
    }
  }

  // ── routing ────────────────────────────────────────────────────────────────

  function RouteInsertFrom(keys: seq<Key>, v: Key, i: nat): (r: nat)
    requires i <= |keys|
    ensures i <= r <= |keys|
    ensures forall j :: i <= j < r ==> !Less(v, keys[j])
    ensures r < |keys| ==> Less(v, keys[r])
    decreases |keys| - i
  {
    if i == |keys| || Less(v, keys[i]) then i else RouteInsertFrom(keys, v, i + 1)
  }

  /** The child an insert descends to: strict `<`, so equal keys go right. */
  function RouteInsert(keys: seq<Key>, v: Key): (r: nat)
    ensures r <= |keys|
    ensures forall j :: 0 <= j < r ==> !Less(v, keys[j])
    ensures r < |keys| ==> Less(v, keys[r])
  {
    RouteInsertFrom(keys, v, 0)
  }

  // ── the safe-node test ─────────────────────────────────────────────────────

  /** Adding one entry for `v` cannot overflow the node. */
  predicate InsertSafe(n: Node, v: Key, payloadLen: nat, cap: nat) {
    match n
    case Leaf(_, _, _) => BodyLen(n) + KeyLen(v) + LENGTH_FIELD + payloadLen + ROWID_LEN <= cap
    case Internal(keys, _) =>
      keys != [] &&
      match keys[0]
      case IntKey(_) => BodyLen(n) + KeyLen(IntKey(0)) + CHILD_LEN <= cap
      case BoolKey(_) => BodyLen(n) + KeyLen(BoolKey(false)) + CHILD_LEN <= cap
      case TextKey(_) => false
  }

  // ── inserting one entry into a leaf ────────────────────────────────────────

  /**
    Where a binary search for `e` may stop without finding it. Row ids can be
    patched in place, so entries are sorted by key only; every binary search still
    ends between an entry it saw as smaller and one it saw as greater.
   */
  predicate IsInsertPos(entries: seq<Entry>, e: Entry, pos: nat) {
    && pos <= |entries|
    && (pos > 0 ==> EntryLess(entries[pos - 1], e))
    && (pos < |entries| ==> EntryLess(e, entries[pos]))
  }

  function InsertAt<T>(s: seq<T>, pos: nat, x: T): seq<T> {
    if pos <= |s| then s[..pos] + [x] + s[pos..] else s
  }

  /** The payload list after inserting at `pos`; `n` is the entry count before. */
  function InsertPayload(payloads: seq<seq<byte>>, n: nat, pos: nat, payload: seq<byte>): seq<seq<byte>> {
    if payload != [] then
      var slots := if payloads == [] then seq(n + 1, _ => []) else InsertAt(payloads, pos, []);
      if pos < |slots| then slots[pos := payload] else slots
    else if payloads != [] then InsertAt(payloads, pos, [])
    else []
  }

  function LeafInsert(n: Node, pos: nat, e: Entry, payload: seq<byte>): Node {
    match n
    case Leaf(entries, payloads, next) =>
      Leaf(InsertAt(entries, pos, e), InsertPayload(payloads, |entries|, pos, payload), next)
    case Internal(_, _) => n
  }

  lemma PayloadInserted(payloads: seq<seq<byte>>, n: nat, pos: nat, payload: seq<byte>, i: nat)
    requires (payloads == [] || |payloads| == n) && pos <= n && i <= n
    ensures var ps := InsertPayload(payloads, n, pos, payload);
            && (ps == [] || |ps| == n + 1)
            && PayloadAt(ps, i) ==
               (if i < pos then PayloadAt(payloads, i) else if i == pos then payload else PayloadAt(payloads, i - 1))
  {
  }

  lemma RowsInserted(n: Node, pos: nat, e: Entry, payload: seq<byte>)
    requires n.Leaf? && PayloadsAligned(n) && pos <= |n.entries|
    ensures var n' := LeafInsert(n, pos, e, payload);
            var rows := RowsOf(n.entries, n.payloads);
            && n'.Leaf? && PayloadsAligned(n')
            && RowsOf(n'.entries, n'.payloads) == rows[..pos] + [Row(e.key, e.rid, payload)] + rows[pos..]
  {
    var n' := LeafInsert(n, pos, e, payload);
    var rows := RowsOf(n.entries, n.payloads);
    var rows' := RowsOf(n'.entries, n'.payloads);
    hide InsertPayload;
    hide PayloadAt;
    PayloadInserted(n.payloads, |n.entries|, pos, payload, 0);
    forall i | 0 <= i < |rows'|
      ensures rows'[i] == (rows[..pos] + [Row(e.key, e.rid, payload)] + rows[pos..])[i]
    {
      PayloadInserted(n.payloads, |n.entries|, pos, payload, i);
    }
  }

  /** Insertion opens exactly one row slot and moves no payload to another row. */
  lemma LeafInsertRows(n: Node, pos: nat, e: Entry, payload: seq<byte>)
    requires n.Leaf? && PayloadsAligned(n) && pos <= |n.entries|
    ensures var n' := LeafInsert(n, pos, e, payload);
            var rows := RowsOf(n.entries, n.payloads);
            && PayloadsAligned(n')
            && RowsOf(n'.entries, n'.payloads) == rows[..pos] + [Row(e.key, e.rid, payload)] + rows[pos..]
            && RowSet(n') == RowSet(n) + {Row(e.key, e.rid, payload)}
            && BodyLen(n') == BodyLen(n) + RowLen(Row(e.key, e.rid, payload))
  {
    var n' := LeafInsert(n, pos, e, payload);
    var rows := RowsOf(n.entries, n.payloads);
    var row := Row(e.key, e.rid, payload);
    var rows' := RowsOf(n'.entries, n'.payloads);
    RowsInserted(n, pos, e, payload);
    hide LeafInsert;
    hide RowsOf;
    assert rows == rows[..pos] + rows[pos..];
    RowsLenConcat(rows[..pos], rows[pos..]);
    RowsLenConcat(rows[..pos] + [row], rows[pos..]);
    RowsLenConcat(rows[..pos], [row]);
    forall r
      ensures r in RowSet(n') <==> r in RowSet(n) + {row}
    {
      assert r in rows' <==> r in rows[..pos] || r == row || r in rows[pos..];
      assert r in rows <==> r in rows[..pos] || r in rows[pos..];
    }
  }

  /** Any position a binary search can stop at keeps the leaf in key order. */
  lemma InsertPosKeepsOrder(entries: seq<Entry>, e: Entry, pos: nat)
    requires KeysSorted(entries) && IsInsertPos(entries, e, pos)
    ensures KeysSorted(InsertAt(entries, pos, e))
  {
    var es := InsertAt(entries, pos, e);
    forall i, j | 0 <= i < j < |es|
      ensures Rank(es[i].key) <= Rank(es[j].key)
    {
      assert i < pos ==> Rank(entries[i].key) <= Rank(entries[pos - 1].key);
      assert j > pos ==> Rank(entries[pos].key) <= Rank(entries[j - 1].key);
    }
  }

  /** And entries that ascend go on ascending. */
  lemma InsertPosAscends(entries: seq<Entry>, e: Entry, pos: nat)
    requires Ascending(entries) && IsInsertPos(entries, e, pos)
    ensures Ascending(InsertAt(entries, pos, e))
  {
    hide EntryLess;
    var es := InsertAt(entries, pos, e);
    forall i, j | 0 <= i < j < |es| ensures EntryLess(es[i], es[j]) {
      if j == pos && i < pos - 1 {
        EntryLessTrans(entries[i], entries[pos - 1], e);
      } else if i == pos && j > pos + 1 {
        EntryLessTrans(e, entries[pos], entries[j - 1]);
      }
    }
  }

  /** A leaf judged safe absorbs the entry without overflowing. */
  lemma SafeLeafFits(n: Node, pos: nat, e: Entry, payload: seq<byte>, cap: nat)
    requires n.Leaf? && PayloadsAligned(n) && pos <= |n.entries|
    requires InsertSafe(n, e.key, |payload|, cap)
    ensures BodyLen(LeafInsert(n, pos, e, payload)) <= cap
  {
    LeafInsertRows(n, pos, e, payload);
  }

  // ── inserting a separator into an internal node ────────────────────────────

  function InternalInsert(n: Node, at: nat, sep: Key, child: PageId): Node {
    match n
    case Leaf(_, _, _) => n
    case Internal(keys, children) => Internal(InsertAt(keys, at, sep), InsertAt(children, at + 1, child))
  }

  lemma InternalInsertLen(n: Node, at: nat, sep: Key, child: PageId)
    requires n.Internal? && at <= |n.keys| && |n.children| == |n.keys| + 1
    ensures BodyLen(InternalInsert(n, at, sep, child)) == BodyLen(n) + KeyLen(sep) + CHILD_LEN
  {
    assert n.keys == n.keys[..at] + n.keys[at..];
    KeysLenConcat(n.keys[..at], n.keys[at..]);
    KeysLenConcat(n.keys[..at] + [sep], n.keys[at..]);
    KeysLenConcat(n.keys[..at], [sep]);
  }

  /** In a tree of one key kind, a node judged safe absorbs any separator. */
  lemma SafeInternalFits(n: Node, at: nat, sep: Key, child: PageId, v: Key, payloadLen: nat, cap: nat)
    requires n.Internal? && at <= |n.keys| && |n.children| == |n.keys| + 1
    requires InsertSafe(n, v, payloadLen, cap) && KindOf(n.keys[0]) == KindOf(sep)
    ensures BodyLen(InternalInsert(n, at, sep, child)) <= cap
  {
    InternalInsertLen(n, at, sep, child);
  }

  // ── splits ─────────────────────────────────────────────────────────────────

  // The halves of a node; a node of the wrong sort is left as it is.

  function Prefix<T>(s: seq<T>, k: nat): seq<T> {
    if k <= |s| then s[..k] else s
  }

  function Suffix<T>(s: seq<T>, k: nat): seq<T> {
    if k <= |s| then s[k..] else []
  }

  function LeafLeft(n: Node, right: PageId): Node {
    match n
    case Leaf(entries, payloads, _) => Leaf(Prefix(entries, |entries| / 2), Prefix(payloads, |entries| / 2), right)
    case Internal(_, _) => n
  }

  function LeafRight(n: Node): Node {
    match n
    case Leaf(entries, payloads, next) => Leaf(Suffix(entries, |entries| / 2), Suffix(payloads, |entries| / 2), next)
    case Internal(_, _) => n
  }

  /** The separator of a leaf split: the first key of the right half. */
  function LeafSep(n: Node): Key {
    if n.Leaf? && n.entries != [] then n.entries[|n.entries| / 2].key else BoolKey(false)
  }

  /** An internal node with a key to give up. */
  predicate Branching(n: Node) {
    n.Internal? && n.keys != [] && |n.children| == |n.keys| + 1
  }

  function InternalLeft(n: Node): Node {
    match n
    case Leaf(_, _, _) => n
    case Internal(keys, children) => Internal(Prefix(keys, |keys| / 2), Prefix(children, |keys| / 2 + 1))
  }

  function InternalRight(n: Node): Node {
    match n
    case Leaf(_, _, _) => n
    case Internal(keys, children) => Internal(Suffix(keys, |keys| / 2 + 1), Suffix(children, |keys| / 2 + 1))
  }

  /** The key that rises out of an internal split. */
  function InternalSep(n: Node): Key {
    if n.Internal? && n.keys != [] then n.keys[|n.keys| / 2] else BoolKey(false)
  }

  /** A leaf split loses no row, duplicates none and keeps every payload with its row. */
  lemma LeafSplitRows(n: Node, right: PageId)
    requires n.Leaf? && PayloadsAligned(n)
    ensures PayloadsAligned(LeafLeft(n, right)) && PayloadsAligned(LeafRight(n))
    ensures var l, r := LeafLeft(n, right), LeafRight(n);
            && RowsOf(l.entries, l.payloads) + RowsOf(r.entries, r.payloads) == RowsOf(n.entries, n.payloads)
            && RowSet(l) + RowSet(r) == RowSet(n)
  {
    var l, r := LeafLeft(n, right), LeafRight(n);
    var lr, rr := RowsOf(l.entries, l.payloads), RowsOf(r.entries, r.payloads);
    var rows := RowsOf(n.entries, n.payloads);
    assert lr + rr == rows;
    forall x
      ensures x in RowSet(l) + RowSet(r) <==> x in RowSet(n)
    {
      assert x in lr + rr <==> x in lr || x in rr;
    }
  }
}
