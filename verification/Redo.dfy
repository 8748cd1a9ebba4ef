/**
  Logical redo of leaf inserts: a record of position, key bytes, row id and payload,
  applied to the page as it was, rebuilds the page the forward path wrote.
 */
module Redo {
  import opened Keys
  import opened Nodes
  import opened Sizes
  import opened Codec

  /** A `WAL_INDEX_INSERT` record. */
  datatype InsertRecord = InsertRecord(slot: Word16, keyBytes: Bytes, rid: RowId, payload: Bytes)

  /** Equal but for the header's LSN and checksum. */
  predicate SameNode(a: Bytes, b: Bytes) {
    |a| == |b| >= PAGE_HEADER && a[..5] == b[..5] && a[PAGE_HEADER..] == b[PAGE_HEADER..]
  }

  function PageIdOf(page: Bytes): (pid: PageId)
    requires |page| >= PAGE_HEADER
  {
    Widths();
    FromWord(page[..4])
  }

  /** `redo_index_insert_with_include`: nothing if the page is no leaf, the key is corrupt or the slot out of range. */
  function RedoInsert(page: Bytes, rec: InsertRecord, size: nat): Option<Bytes> {
    match Parse(page)
    case None => None
    case Some(node) =>
      match DecodeKey(rec.keyBytes, 0)
      case None => None
      case Some((key, _)) =>
        if node.Internal? || rec.slot as int > |node.entries| then None
        else
          var full := LeafInsert(node, rec.slot, Entry(key, rec.rid), rec.payload);
          if Fits(full, size) && |page| >= PAGE_HEADER then Some(PageOf(full, PageIdOf(page), size)) else None
  }

  /** What the forward path does to a leaf: insert at a position with a payload. */
  datatype LeafOp = LeafOp(pos: nat, e: Entry, payload: Bytes)

  /** The record the forward path logs; the position is stored in 16 bits. */
  function RecordOf(op: LeafOp): InsertRecord {
    InsertRecord(op.pos % 65536, EncodeKey(op.e.key), op.e.rid, op.payload)
  }

  /** The node after reading a stored node back and inserting. */
  function Forward(n: Node, op: LeafOp): Node {
    LeafInsert(Collapse(n), op.pos, op.e, op.payload)
  }

  predicate Admissible(n: Node, op: LeafOp, size: nat) {
    n.Leaf? && Fits(n, size) && op.pos <= |n.entries| && Fits(Forward(n, op), size)
  }

  lemma SameParse(a: Bytes, b: Bytes)
    requires SameNode(a, b)
    ensures Parse(a) == Parse(b) && PageIdOf(a) == PageIdOf(b)
  {
    hide ParseBody;
    hide FromWord;
    assert a[..4] == a[..5][..4] && b[..4] == b[..5][..4];
  }

  lemma SameSelf(a: Bytes)
    requires |a| >= PAGE_HEADER
    ensures SameNode(a, a)
  {
  }

  lemma PageHasId(n: Node, pid: PageId, size: nat)
    requires Fits(n, size)
    ensures |PageOf(n, pid, size)| >= PAGE_HEADER && PageIdOf(PageOf(n, pid, size)) == pid
  {
    hide Word;
    hide Body;
    hide FromWord;
    hide BodyLen;
    BodyBytes(n);
    var page := PageOf(n, pid, size);
    assert page[..4] == Word(pid, 4);
    Widths();
    WordRound(pid, 4);
  }

  lemma CollapseLeaf(n: Node)
    requires n.Leaf?
    ensures Collapse(n).Leaf? && Collapse(n).entries == n.entries
    ensures PayloadsAligned(n) ==> PayloadsAligned(Collapse(n))
  {
  }

  /** The inserted key is short, and its position fits 16 bits, because the leaf fits its page. */
  lemma OpIsSmall(n: Node, op: LeafOp, size: nat)
    requires Admissible(n, op, size)
    ensures KeyLen(op.e.key) < 65536 && op.pos < 65536
  {
    CollapseLeaf(n);
    var leaf := Collapse(n);
    LeafInsertRows(leaf, op.pos, op.e, op.payload);
    var rows := RowsOf(leaf.entries, leaf.payloads);
    RowsAtLeast(rows);
  }

  /** The keys of the leaf after the insert are those before it and the inserted one. */
  lemma WritableForward(n: Node, op: LeafOp)
    requires n.Leaf? && op.pos <= |n.entries|
    ensures Forward(n, op).Leaf? && (AllWritable(Forward(n, op)) <==> AllWritable(n) && Writable(op.e.key))
  {
    CollapseLeaf(n);
    hide Writable;
    var es := Forward(n, op).entries;
    assert es == n.entries[..op.pos] + [op.e] + n.entries[op.pos..];
    assert es[op.pos] == op.e;
    assert forall i :: 0 <= i < |n.entries| ==> es[if i < op.pos then i else i + 1] == n.entries[i];
  }

  lemma OpIsWritable(n: Node, op: LeafOp, size: nat)
    requires Admissible(n, op, size)
    ensures Writable(op.e.key)
  {
    WritableForward(n, op);
    hide AllWritable;
    hide Writable;
    hide BodyLen;
  }

  lemma KeyAlone(k: Key)
    requires KeyLen(k) < 65536 && Writable(k)
    ensures DecodeKey(EncodeKey(k), 0) == Some((k, KeyLen(k)))
  {
    KeyBytes(k);
    StandsIs(EncodeKey(k), 0, EncodeKey(k));
    KeyRound(EncodeKey(k), 0, k);
  }

  lemma SizeOk(size: nat, n: Node)
    requires Fits(n, size)
    ensures size >= PAGE_HEADER
  {
    hide BodyLen;
  }

  lemma RedoIs(page: Bytes, rec: InsertRecord, size: nat, node: Node, key: Key, next: nat)
    requires Parse(page) == Some(node) && DecodeKey(rec.keyBytes, 0) == Some((key, next)) && node.Leaf?
    requires rec.slot as int <= |node.entries|
    requires Fits(LeafInsert(node, rec.slot, Entry(key, rec.rid), rec.payload), size) && |page| >= PAGE_HEADER
    ensures RedoInsert(page, rec, size) ==
              Some(PageOf(LeafInsert(node, rec.slot, Entry(key, rec.rid), rec.payload), PageIdOf(page), size))
  {
    hide Parse;
    hide DecodeKey;
    hide LeafInsert;
    hide Fits;
    hide PageOf;
    hide PageIdOf;
  }

  /** Redo of one record on the page before the insert gives the page after it. */
  lemma RedoIsForward(page: Bytes, n: Node, pid: PageId, size: nat, op: LeafOp)
    requires Admissible(n, op, size) && SameNode(page, PageOf(n, pid, size))
    ensures RedoInsert(page, RecordOf(op), size) == Some(PageOf(Forward(n, op), pid, size))
  {
    hide *;
    AdmissibleParts(n, op, size);
    PageRound(n, pid, size);
    PageHasId(n, pid, size);
    SameParse(page, PageOf(n, pid, size));
    SameLength(page, PageOf(n, pid, size));
    CollapseLeaf(n);
    OpIsSmall(n, op, size);
    OpIsWritable(n, op, size);
    KeyAlone(op.e.key);
    RecordIs(op);
    RedoIs(page, RecordOf(op), size, Collapse(n), op.e.key, KeyLen(op.e.key));
  }

  lemma SameLength(a: Bytes, b: Bytes)
    requires SameNode(a, b)
    ensures |a| == |b| >= PAGE_HEADER
  {
  }

  lemma AdmissibleParts(n: Node, op: LeafOp, size: nat)
    requires Admissible(n, op, size)
    ensures n.Leaf? && Fits(n, size) && op.pos <= |n.entries| && Fits(Forward(n, op), size)
    ensures Forward(n, op) == LeafInsert(Collapse(n), op.pos, op.e, op.payload)
  {
    hide Fits;
    hide LeafInsert;
    hide Collapse;
  }

  lemma RecordIs(op: LeafOp)
    requires op.pos < 65536
    ensures RecordOf(op) == InsertRecord(op.pos, EncodeKey(op.e.key), op.e.rid, op.payload)
    ensures Entry(op.e.key, op.e.rid) == op.e
  {
    hide EncodeKey;
  }

  // ── runs of records ────────────────────────────────────────────────────────

  function ForwardAll(n: Node, ops: seq<LeafOp>): Node {
    if ops == [] then n else Forward(ForwardAll(n, ops[..|ops| - 1]), ops[|ops| - 1])
  }

  predicate AllAdmissible(n: Node, ops: seq<LeafOp>, size: nat) {
    ops == [] || (AllAdmissible(n, ops[..|ops| - 1], size)
                  && Admissible(ForwardAll(n, ops[..|ops| - 1]), ops[|ops| - 1], size))
  }

  function Replay(page: Bytes, ops: seq<LeafOp>, size: nat): Option<Bytes> {
    if ops == [] then Some(page)
    else
      match Replay(page, ops[..|ops| - 1], size)
      case None => None
      case Some(p) => RedoInsert(p, RecordOf(ops[|ops| - 1]), size)
  }

  /** Replaying any run of records from a full image reproduces the final leaf. */
  lemma {:induction false} ReplayReproduces(page: Bytes, n: Node, pid: PageId, size: nat, ops: seq<LeafOp>)
    requires Fits(n, size) && SameNode(page, PageOf(n, pid, size)) && AllAdmissible(n, ops, size)
    ensures Fits(ForwardAll(n, ops), size)
    ensures Replay(page, ops, size).Some?
    ensures SameNode(Replay(page, ops, size).value, PageOf(ForwardAll(n, ops), pid, size))
    decreases |ops|
  {
    hide Fits;
    hide PageOf;
    hide Forward;
    hide RedoInsert;
    hide RecordOf;
    hide Admissible;
    hide SameNode;
    if ops != [] {
      var init, op := ops[..|ops| - 1], ops[|ops| - 1];
      ReplayReproduces(page, n, pid, size, init);
      AdmissibleParts(ForwardAll(n, init), op, size);
      RedoIsForward(Replay(page, init, size).value, ForwardAll(n, init), pid, size, op);
      SizeOk(size, Forward(ForwardAll(n, init), op));
      SameSelf(PageOf(Forward(ForwardAll(n, init), op), pid, size));
    }
  }
}
