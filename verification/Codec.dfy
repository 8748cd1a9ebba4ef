/**
  The byte layout of nodes: page header, node tag, entry count, and the keys, payloads,
  row ids or child pointers in order.
 */
module Codec {
  import opened Keys
  import opened Nodes
  import opened Searches
  import opened Sizes

  type Bytes = seq<byte>

  const NODE_LEAF: byte := 1
  const NODE_INTERNAL: byte := 2
  const KEY_INT: byte := 0
  const KEY_TEXT: byte := 1
  const KEY_BOOL: byte := 2
  const PAGE_TYPE_BTREE: byte := 4
  const MAX_PAGE := 65536

  // ── little-endian words ────────────────────────────────────────────────────

  function Base(w: nat): (b: nat)
    ensures b > 0
  {
    if w == 0 then 1 else 256 * Base(w - 1)
  }

  /** The low `w` bytes of `n`; higher bytes are cut off. */
  function Word(n: nat, w: nat): (bs: Bytes)
    ensures |bs| == w
    decreases w
  {
    if w == 0 then [] else [(n % 256) as byte] + Word(n / 256, w - 1)
  }

  function FromWord(bs: Bytes): (n: nat)
    ensures n < Base(|bs|)
  {
    if bs == [] then 0 else bs[0] as nat + 256 * FromWord(bs[1..])
  }

  lemma {:induction false} WordRound(n: nat, w: nat)
    requires n < Base(w)
    ensures FromWord(Word(n, w)) == n
  {
    if w > 0 {
      assert n / 256 < Base(w - 1);
      WordRound(n / 256, w - 1);
      assert Word(n, w)[1..] == Word(n / 256, w - 1);
    }
  }

  lemma Widths()
    ensures Base(1) == 256 && Base(2) == 65536 && Base(4) == 0x1_0000_0000 && Base(8) == 0x1_0000_0000_0000_0000
  {
    assert Base(2) == 256 * Base(1);
    assert Base(3) == 256 * Base(2);
    assert Base(4) == 256 * Base(3);
    assert Base(5) == 256 * Base(4);
    assert Base(6) == 256 * Base(5);
    assert Base(7) == 256 * Base(6);
    assert Base(8) == 256 * Base(7);
  }

  /** Read `w` bytes at `pos`, if they are there. */
  function ReadWord(buf: Bytes, pos: nat, w: nat): Option<nat> {
    if pos + w <= |buf| then Some(FromWord(buf[pos..pos + w])) else None
  }

  /** `part` stands in `buf` at `pos`. */
  predicate Stands(buf: Bytes, pos: nat, part: Bytes) {
    pos + |part| <= |buf| && buf[pos..pos + |part|] == part
  }

  lemma StandsParts(buf: Bytes, pos: nat, a: Bytes, b: Bytes)
    requires Stands(buf, pos, a + b)
    ensures Stands(buf, pos, a) && Stands(buf, pos + |a|, b)
  {
    assert (a + b)[..|a|] == a && (a + b)[|a|..] == b;
    assert buf[pos..pos + |a + b|][..|a|] == buf[pos..pos + |a|];
    assert buf[pos..pos + |a + b|][|a|..] == buf[pos + |a|..pos + |a| + |b|];
  }

  lemma ReadBack(buf: Bytes, pos: nat, n: nat, w: nat)
    requires Stands(buf, pos, Word(n, w)) && n < Base(w)
    ensures ReadWord(buf, pos, w) == Some(n)
  {
    WordRound(n, w);
  }

  // ── keys ───────────────────────────────────────────────────────────────────

  /** Two's complement of a 64-bit integer. */
  function Unsigned(n: int): (u: nat)
    requires -0x8000_0000_0000_0000 <= n < 0x8000_0000_0000_0000
    ensures u < 0x1_0000_0000_0000_0000
  {
    if n < 0 then n + 0x1_0000_0000_0000_0000 else n
  }

  function Signed(u: nat): int
    requires u < 0x1_0000_0000_0000_0000
  {
    if u < 0x8000_0000_0000_0000 then u else u - 0x1_0000_0000_0000_0000
  }

  /** A continuation byte of UTF-8. */
  predicate Tail(b: byte) {
    0x80 <= b <= 0xBF
  }

  /** Well-formed UTF-8 from position `i` on: no overlong form, no surrogate, nothing above U+10FFFF. */
  predicate Utf8From(s: seq<byte>, i: nat)
    requires i <= |s|
    decreases |s| - i
  {
    if i == |s| then true
    else if s[i] < 0x80 then Utf8From(s, i + 1)
    else if 0xC2 <= s[i] <= 0xDF then i + 2 <= |s| && Tail(s[i + 1]) && Utf8From(s, i + 2)
    else if 0xE0 <= s[i] <= 0xEF then
      && i + 3 <= |s| && Tail(s[i + 1]) && Tail(s[i + 2])
      && (s[i] == 0xE0 ==> s[i + 1] >= 0xA0) && (s[i] == 0xED ==> s[i + 1] <= 0x9F)
      && Utf8From(s, i + 3)
    else if 0xF0 <= s[i] <= 0xF4 then
      && i + 4 <= |s| && Tail(s[i + 1]) && Tail(s[i + 2]) && Tail(s[i + 3])
      && (s[i] == 0xF0 ==> s[i + 1] >= 0x90) && (s[i] == 0xF4 ==> s[i + 1] <= 0x8F)
      && Utf8From(s, i + 4)
    else false
  }

  predicate Utf8(s: seq<byte>) {
    Utf8From(s, 0)
  }

  /** Text keys are the bytes of Rust strings. */
  predicate Writable(k: Key) {
    k.TextKey? ==> Utf8(k.s)
  }

  function EncodeKey(k: Key): Bytes {
    match k
    case IntKey(n) => [KEY_INT] + Word(Unsigned(n), 8)
    case TextKey(s) => [KEY_TEXT] + Word(|s|, 2) + s
    case BoolKey(b) => [KEY_BOOL, if b then 1 else 0]
  }

  function DecodeInt(buf: Bytes, pos: nat): Option<(Key, nat)> {
    match ReadWord(buf, pos + 1, 8)
    case None => None
    case Some(u) => if u < 0x1_0000_0000_0000_0000 then Some((IntKey(Signed(u)), pos + 9)) else None
  }

  function DecodeText(buf: Bytes, pos: nat): Option<(Key, nat)> {
    match ReadWord(buf, pos + 1, 2)
    case None => None
    case Some(len) =>
      if pos + 3 + len <= |buf| && Utf8(buf[pos + 3..pos + 3 + len]) then
        Some((TextKey(buf[pos + 3..pos + 3 + len]), pos + 3 + len))
      else None
  }

  /** The key at `pos` and the position after it, or nothing if the bytes are corrupt. */
  function DecodeKey(buf: Bytes, pos: nat): Option<(Key, nat)> {
    if pos >= |buf| then None
    else if buf[pos] == KEY_INT then DecodeInt(buf, pos)
    else if buf[pos] == KEY_TEXT then DecodeText(buf, pos)
    else if buf[pos] == KEY_BOOL then
      if pos + 1 < |buf| then Some((BoolKey(buf[pos + 1] != 0), pos + 2)) else None
    else None
  }

  lemma KeyBytes(k: Key)
    ensures |EncodeKey(k)| == KeyLen(k)
  {
  }

  /** Every key shorter than 64 KiB decodes to itself. */
  lemma KeyRound(buf: Bytes, pos: nat, k: Key)
    requires Stands(buf, pos, EncodeKey(k)) && KeyLen(k) < 65536 && Writable(k)
    ensures DecodeKey(buf, pos) == Some((k, pos + KeyLen(k)))
  {
    Widths();
    hide Word;
    hide FromWord;
    hide Base;
    hide ReadWord;
    match k
    case IntKey(n) =>
      StandsParts(buf, pos, [KEY_INT], Word(Unsigned(n), 8));
      ReadBack(buf, pos + 1, Unsigned(n), 8);
    case TextKey(s) =>
      StandsParts(buf, pos, [KEY_TEXT] + Word(|s|, 2), s);
      StandsParts(buf, pos, [KEY_TEXT], Word(|s|, 2));
      ReadBack(buf, pos + 1, |s|, 2);
    case BoolKey(b) =>
      assert buf[pos..pos + 2][1] == buf[pos + 1];
  }

  // ── rows and separators ────────────────────────────────────────────────────

  function EncodeRow(r: Row): Bytes {
    EncodeKey(r.key) + Word(|r.payload|, 4) + r.payload + Word(r.rid.page, 4) + Word(r.rid.slot, 2)
  }

  function EncodeRows(rows: seq<Row>): Bytes {
    if rows == [] then [] else EncodeRows(rows[..|rows| - 1]) + EncodeRow(rows[|rows| - 1])
  }

  function EncodeSeps(keys: seq<Key>, children: seq<PageId>): Bytes
    requires |children| == |keys| + 1
  {
    if keys == [] then []
    else
      var k := |keys| - 1;
      EncodeSeps(keys[..k], children[..k + 1]) + EncodeKey(keys[k]) + Word(children[k + 1], 4)
  }

  function DecodeRid(buf: Bytes, pos: nat): Option<RowId> {
    match (ReadWord(buf, pos, 4), ReadWord(buf, pos + 4, 2))
    case (Some(page), Some(slot)) => if page < 0x1_0000_0000 && slot < 0x1_0000 then Some(RowId(page, slot)) else None
    case _ => None
  }

  function DecodeRow(buf: Bytes, pos: nat): Option<(Row, nat)> {
    match DecodeKey(buf, pos)
    case None => None
    case Some((k, at)) =>
      match ReadWord(buf, at, 4)
      case None => None
      case Some(len) =>
        if at + 4 + len > |buf| then None
        else
          match DecodeRid(buf, at + 4 + len)
          case None => None
          case Some(rid) => Some((Row(k, rid, buf[at + 4..at + 4 + len]), at + 4 + len + 6))
  }

  function DecodeRows(buf: Bytes, pos: nat, count: nat): Option<(seq<Row>, nat)> {
    if count == 0 then Some(([], pos))
    else
      match DecodeRows(buf, pos, count - 1)
      case None => None
      case Some((rows, at)) =>
        match DecodeRow(buf, at)
        case None => None
        case Some((r, at')) => Some((rows + [r], at'))
  }

  function DecodeSep(buf: Bytes, pos: nat): Option<(Key, PageId, nat)> {
    match DecodeKey(buf, pos)
    case None => None
    case Some((k, at)) =>
      match ReadWord(buf, at, 4)
      case None => None
      case Some(child) => if child < 0x1_0000_0000 then Some((k, child, at + 4)) else None
  }

  function DecodeSeps(buf: Bytes, pos: nat, first: PageId, count: nat): Option<(seq<Key>, seq<PageId>, nat)> {
    if count == 0 then Some(([], [first], pos))
    else
      match DecodeSeps(buf, pos, first, count - 1)
      case None => None
      case Some((keys, children, at)) =>
        match DecodeSep(buf, at)
        case None => None
        case Some((k, child, at')) => Some((keys + [k], children + [child], at'))
  }

  lemma RowBytes(r: Row)
    ensures |EncodeRow(r)| == RowLen(r)
  {
    KeyBytes(r.key);
  }

  /** `RowsLen` is the number of bytes laid out. */
  lemma {:induction false} RowsBytes(rows: seq<Row>)
    ensures |EncodeRows(rows)| == RowsLen(rows)
  {
    hide EncodeRow;
    if rows != [] {
      var k := |rows| - 1;
      RowsBytes(rows[..k]);
      RowBytes(rows[k]);
      assert rows == rows[..k] + [rows[k]];
      RowsLenConcat(rows[..k], [rows[k]]);
      assert RowsLen([rows[k]]) == RowLen(rows[k]) + RowsLen([]);
    }
  }

  lemma {:induction false} SepsBytes(keys: seq<Key>, children: seq<PageId>)
    requires |children| == |keys| + 1
    ensures |EncodeSeps(keys, children)| == KeysLen(keys)
  {
    hide EncodeKey;
    hide Word;
    if keys != [] {
      var k := |keys| - 1;
      SepsBytes(keys[..k], children[..k + 1]);
      KeyBytes(keys[k]);
      assert keys == keys[..k] + [keys[k]];
      KeysLenConcat(keys[..k], [keys[k]]);
      assert KeysLen([keys[k]]) == KeyLen(keys[k]) + CHILD_LEN + KeysLen([]);
    }
  }

  /** One row decodes to itself wherever it stands. */
  lemma RowRound(buf: Bytes, pos: nat, r: Row)
    requires Stands(buf, pos, EncodeRow(r)) && RowLen(r) < 65536 && Writable(r.key)
    ensures DecodeRow(buf, pos) == Some((r, pos + RowLen(r)))
  {
    hide *;
    RowRoundParts(buf, pos, r);
    KeyBytes(r.key);
    KeyRound(buf, pos, r.key);
    Widths();
    var at := pos + KeyLen(r.key);
    ReadBack(buf, at, |r.payload|, 4);
    ReadBack(buf, at + 4 + |r.payload|, r.rid.page, 4);
    ReadBack(buf, at + 8 + |r.payload|, r.rid.slot, 2);
    DecodeRowIs(buf, pos, at, r);
  }

  lemma RowRoundParts(buf: Bytes, pos: nat, r: Row)
    requires Stands(buf, pos, EncodeRow(r)) && RowLen(r) < 65536
    ensures var at := pos + KeyLen(r.key);
            && Stands(buf, pos, EncodeKey(r.key)) && Stands(buf, at, Word(|r.payload|, 4))
            && at + 4 + |r.payload| <= |buf| && buf[at + 4..at + 4 + |r.payload|] == r.payload
            && Stands(buf, at + 4 + |r.payload|, Word(r.rid.page, 4))
            && Stands(buf, at + 8 + |r.payload|, Word(r.rid.slot, 2))
            && KeyLen(r.key) < 65536 && |r.payload| < 65536 && RowLen(r) == KeyLen(r.key) + 4 + |r.payload| + 6
  {
    hide Word;
    hide EncodeKey;
    hide Stands;
    KeyBytes(r.key);
    var a := EncodeKey(r.key);
    var b := a + Word(|r.payload|, 4);
    var c := b + r.payload;
    var d := c + Word(r.rid.page, 4);
    StandsParts(buf, pos, d, Word(r.rid.slot, 2));
    StandsParts(buf, pos, c, Word(r.rid.page, 4));
    StandsParts(buf, pos, b, r.payload);
    StandsParts(buf, pos, a, Word(|r.payload|, 4));
    StandsIs(buf, pos + |b|, r.payload);
  }

  lemma StandsIs(buf: Bytes, pos: nat, part: Bytes)
    ensures Stands(buf, pos, part) <==> pos + |part| <= |buf| && buf[pos..pos + |part|] == part
  {
  }

  lemma DecodeRowIs(buf: Bytes, pos: nat, at: nat, r: Row)
    requires DecodeKey(buf, pos) == Some((r.key, at)) && ReadWord(buf, at, 4) == Some(|r.payload|)
    requires at + 4 + |r.payload| <= |buf| && buf[at + 4..at + 4 + |r.payload|] == r.payload
    requires ReadWord(buf, at + 4 + |r.payload|, 4) == Some(r.rid.page)
    requires ReadWord(buf, at + 8 + |r.payload|, 2) == Some(r.rid.slot)
    ensures DecodeRow(buf, pos) == Some((r, at + 4 + |r.payload| + 6))
  {
    hide DecodeKey;
    hide ReadWord;
  }

  lemma {:induction false} RowsRound(buf: Bytes, pos: nat, rows: seq<Row>)
    requires Stands(buf, pos, EncodeRows(rows)) && RowsLen(rows) < 65536
    requires forall i :: 0 <= i < |rows| ==> Writable(rows[i].key)
    ensures DecodeRows(buf, pos, |rows|) == Some((rows, pos + RowsLen(rows)))
    decreases |rows|
  {
    hide DecodeRow;
    hide EncodeRow;
    hide Stands;
    hide Writable;
    if rows != [] {
      var k := |rows| - 1;
      assert rows == rows[..k] + [rows[k]];
      RowsLenConcat(rows[..k], [rows[k]]);
      assert RowsLen([rows[k]]) == RowLen(rows[k]) + RowsLen([]);
      StandsParts(buf, pos, EncodeRows(rows[..k]), EncodeRow(rows[k]));
      RowsBytes(rows[..k]);
      RowsRound(buf, pos, rows[..k]);
      RowRound(buf, pos + RowsLen(rows[..k]), rows[k]);
    }
  }

  lemma SepRound(buf: Bytes, pos: nat, k: Key, child: PageId)
    requires Stands(buf, pos, EncodeKey(k)) && Stands(buf, pos + KeyLen(k), Word(child, 4))
    requires KeyLen(k) < 65536 && Writable(k)
    ensures DecodeSep(buf, pos) == Some((k, child, pos + KeyLen(k) + 4))
  {
    KeyRound(buf, pos, k);
    Widths();
    ReadBack(buf, pos + KeyLen(k), child, 4);
    hide DecodeKey;
    hide ReadWord;
    hide Word;
    hide Base;
    hide EncodeKey;
  }

  /** Where the parts of a separator list stand. */
  lemma SepsStand(buf: Bytes, pos: nat, keys: seq<Key>, children: seq<PageId>, k: nat)
    requires |children| == |keys| + 1 && k + 1 == |keys| && Stands(buf, pos, EncodeSeps(keys, children))
    ensures var at := pos + KeysLen(keys[..k]);
            && KeysLen(keys) == KeysLen(keys[..k]) + KeyLen(keys[k]) + CHILD_LEN
            && Stands(buf, pos, EncodeSeps(keys[..k], children[..k + 1])) && Stands(buf, at, EncodeKey(keys[k]))
            && Stands(buf, at + KeyLen(keys[k]), Word(children[k + 1], 4))
  {
    hide *;
    assert keys[..k + 1] == keys && children[..k + 2] == children;
    EncodeNextSep(keys, children, k);
    KeysLenNext(keys, k);
    var init := EncodeSeps(keys[..k], children[..k + 1]);
    StandsParts(buf, pos, init + EncodeKey(keys[k]), Word(children[k + 1], 4));
    StandsParts(buf, pos, init, EncodeKey(keys[k]));
    SepsBytes(keys[..k], children[..k + 1]);
    KeyBytes(keys[k]);
  }

  lemma KeysLenNext(keys: seq<Key>, k: nat)
    requires k + 1 == |keys|
    ensures KeysLen(keys) == KeysLen(keys[..k]) + KeyLen(keys[k]) + CHILD_LEN
  {
    assert keys == keys[..k] + [keys[k]];
    KeysLenConcat(keys[..k], [keys[k]]);
    assert KeysLen([keys[k]]) == KeyLen(keys[k]) + CHILD_LEN + KeysLen([]);
  }

  lemma SepsNext(buf: Bytes, pos: nat, keys: seq<Key>, children: seq<PageId>, k: nat, at: nat, next: nat)
    requires |children| == |keys| + 1 && k + 1 == |keys|
    requires DecodeSeps(buf, pos, children[0], k) == Some((keys[..k], children[..k + 1], at))
    requires DecodeSep(buf, at) == Some((keys[k], children[k + 1], next))
    ensures DecodeSeps(buf, pos, children[0], k + 1) == Some((keys, children, next))
  {
    hide DecodeSep;
    assert keys == keys[..k] + [keys[k]];
    assert children == children[..k + 1] + [children[k + 1]];
  }

  lemma {:induction false} SepsRound(buf: Bytes, pos: nat, keys: seq<Key>, children: seq<PageId>)
    requires |children| == |keys| + 1 && Stands(buf, pos, EncodeSeps(keys, children)) && KeysLen(keys) < 65536
    requires forall i :: 0 <= i < |keys| ==> Writable(keys[i])
    ensures DecodeSeps(buf, pos, children[0], |keys|) == Some((keys, children, pos + KeysLen(keys)))
    decreases |keys|
  {
    hide *;
    if keys == [] {
      SepsNone(buf, pos, children);
    } else {
      var k := |keys| - 1;
      SepsStand(buf, pos, keys, children, k);
      ChildLen();
      SepsRound(buf, pos, keys[..k], children[..k + 1]);
      SepRound(buf, pos + KeysLen(keys[..k]), keys[k], children[k + 1]);
      SepsNext(buf, pos, keys, children, k, pos + KeysLen(keys[..k]), pos + KeysLen(keys));
    }
  }

  lemma SepsNone(buf: Bytes, pos: nat, children: seq<PageId>)
    requires |children| == 1
    ensures DecodeSeps(buf, pos, children[0], 0) == Some(([], children, pos)) && KeysLen([]) == 0
  {
    assert children == [children[0]];
  }

  lemma ChildLen()
    ensures CHILD_LEN == 4
  {
  }

  // ── pages ──────────────────────────────────────────────────────────────────

  /** A node as the program builds it. */
  predicate Sound(n: Node) {
    PayloadsAligned(n) && (n.Internal? ==> |n.children| == |n.keys| + 1) && AllWritable(n)
  }

  predicate AllWritable(n: Node) {
    match n
    case Leaf(entries, _, _) => forall i :: 0 <= i < |entries| ==> Writable(entries[i].key)
    case Internal(keys, _) => forall i :: 0 <= i < |keys| ==> Writable(keys[i])
  }

  function Body(n: Node): Bytes
    requires Sound(n)
  {
    match n
    case Leaf(entries, _, next) => [NODE_LEAF] + Word(|entries|, 2) + Word(next, 4) + EncodeRows(LeafRows(n))
    case Internal(keys, children) =>
      [NODE_INTERNAL] + Word(|keys|, 2) + Word(children[0], 4) + EncodeSeps(keys, children)
  }

  function Zeros(k: nat): (z: Bytes)
    ensures |z| == k
  {
    seq(k, _ => 0)
  }

  /** `BodyLen` is the number of bytes a node takes, page header excluded. */
  lemma BodyBytes(n: Node)
    requires Sound(n)
    ensures |Body(n)| == BodyLen(n)
  {
    hide EncodeRows;
    hide EncodeSeps;
    match n
    case Leaf(entries, payloads, _) => RowsBytes(LeafRows(n));
    case Internal(keys, children) => SepsBytes(keys, children);
  }

  predicate Fits(n: Node, size: nat) {
    Sound(n) && MIN_PAGE <= size <= MAX_PAGE && BodyLen(n) <= size - PAGE_HEADER
  }

  /** The page image: id, page type, zeroed LSN and checksum, node body, zero fill. */
  function PageOf(n: Node, pid: PageId, size: nat): (page: Bytes)
    requires Fits(n, size)
    ensures |page| == size
  {
    BodyBytes(n);
    Word(pid, 4) + [PAGE_TYPE_BTREE] + Zeros(23) + Body(n) + Zeros(size - PAGE_HEADER - BodyLen(n))
  }

  /** A payload list without any byte is stored as none at all. */
  function Collapse(n: Node): Node {
    match n
    case Leaf(entries, payloads, next) =>
      if forall i :: 0 <= i < |payloads| ==> payloads[i] == [] then Leaf(entries, [], next) else n
    case Internal(_, _) => n
  }

  function EntriesOf(rows: seq<Row>): (es: seq<Entry>)
    ensures |es| == |rows|
  {
    seq(|rows|, i requires 0 <= i < |rows| => Entry(rows[i].key, rows[i].rid))
  }

  function PayloadsOf(rows: seq<Row>): (ps: seq<seq<byte>>)
    ensures |ps| == |rows|
  {
    seq(|rows|, i requires 0 <= i < |rows| => rows[i].payload)
  }

  function ParseLeaf(body: Bytes): Option<Node> {
    match (ReadWord(body, 1, 2), ReadWord(body, 3, 4))
    case (Some(count), Some(next)) =>
      (match DecodeRows(body, 7, count)
       case None => None
       case Some((rows, _)) =>
         if next < 0x1_0000_0000 then Some(Collapse(Leaf(EntriesOf(rows), PayloadsOf(rows), next))) else None)
    case _ => None
  }

  function ParseInternal(body: Bytes): Option<Node> {
    match (ReadWord(body, 1, 2), ReadWord(body, 3, 4))
    case (Some(count), Some(first)) =>
      if first < 0x1_0000_0000 then
        (match DecodeSeps(body, 7, first, count)
         case None => None
         case Some((keys, children, _)) => Some(Internal(keys, children)))
      else None
    case _ => None
  }

  function ParseBody(body: Bytes): Option<Node> {
    if body == [] then None
    else if body[0] == NODE_LEAF then ParseLeaf(body)
    else if body[0] == NODE_INTERNAL then ParseInternal(body)
    else None
  }

  function Parse(page: Bytes): Option<Node> {
    if |page| < PAGE_HEADER then None else ParseBody(page[PAGE_HEADER..])
  }

  lemma {:induction false} RowsAtLeast(rows: seq<Row>)
    ensures |rows| <= RowsLen(rows)
  {
    if rows != [] { RowsAtLeast(rows[1..]); }
  }

  lemma {:induction false} KeysAtLeast(keys: seq<Key>)
    ensures |keys| <= KeysLen(keys)
  {
    if keys != [] { KeysAtLeast(keys[1..]); }
  }

  lemma RowsRebuild(n: Node)
    requires n.Leaf? && PayloadsAligned(n)
    ensures EntriesOf(LeafRows(n)) == n.entries
    ensures Collapse(Leaf(EntriesOf(LeafRows(n)), PayloadsOf(LeafRows(n)), n.next)) == Collapse(n)
  {
    var rows := LeafRows(n);
    assert EntriesOf(rows) == n.entries;
    if n.payloads == [] {
      assert forall i :: 0 <= i < |rows| ==> PayloadsOf(rows)[i] == [];
    } else {
      assert PayloadsOf(rows) == n.payloads;
    }
  }

  /** The head of a node body, and where its rows or separators stand. */
  lemma BodyHead(body: Bytes, tag: byte, count: nat, link: PageId, rest: Bytes)
    requires Stands(body, 0, [tag] + Word(count, 2) + Word(link, 4) + rest) && count < 65536
    ensures body != [] && body[0] == tag && ReadWord(body, 1, 2) == Some(count) && ReadWord(body, 3, 4) == Some(link)
    ensures Stands(body, 7, rest)
  {
    hide Word;
    hide Stands;
    hide ReadWord;
    Widths();
    hide Base;
    StandsParts(body, 0, [tag] + Word(count, 2) + Word(link, 4), rest);
    StandsParts(body, 0, [tag] + Word(count, 2), Word(link, 4));
    StandsParts(body, 0, [tag], Word(count, 2));
    ReadBack(body, 1, count, 2);
    ReadBack(body, 3, link, 4);
    StandsIs(body, 0, [tag]);
    assert body[0..1][0] == body[0];
  }

  lemma LeafParsed(body: Bytes, n: Node)
    requires n.Leaf? && Sound(n) && Stands(body, 0, Body(n)) && BodyLen(n) < 65536
    ensures ParseBody(body) == Some(Collapse(n))
  {
    hide Word;
    hide Stands;
    hide ReadWord;
    hide EncodeRows;
    hide DecodeRows;
    hide Collapse;
    var rows := LeafRows(n);
    RowsAtLeast(rows);
    BodyHead(body, NODE_LEAF, |n.entries|, n.next, EncodeRows(rows));
    RowsRound(body, 7, rows);
    RowsRebuild(n);
  }

  lemma InternalParsed(body: Bytes, n: Node)
    requires n.Internal? && Sound(n) && Stands(body, 0, Body(n)) && BodyLen(n) < 65536
    ensures ParseBody(body) == Some(n)
  {
    hide Word;
    hide Stands;
    hide ReadWord;
    hide EncodeSeps;
    hide DecodeSeps;
    KeysAtLeast(n.keys);
    BodyHead(body, NODE_INTERNAL, |n.keys|, n.children[0], EncodeSeps(n.keys, n.children));
    SepsRound(body, 7, n.keys, n.children);
  }

  /** Reading back a written node gives the node, up to an empty payload list. */
  lemma PageRound(n: Node, pid: PageId, size: nat)
    requires Fits(n, size)
    ensures Parse(PageOf(n, pid, size)) == Some(Collapse(n))
  {
    hide Word;
    hide Body;
    hide Collapse;
    hide ParseBody;
    hide BodyLen;
    BodyBytes(n);
    var page := PageOf(n, pid, size);
    var body := page[PAGE_HEADER..];
    assert body == Body(n) + Zeros(size - PAGE_HEADER - BodyLen(n));
    assert Stands(body, 0, Body(n));
    if n.Leaf? {
      LeafParsed(body, n);
    } else {
      InternalParsed(body, n);
      CollapseInner(n);
    }
  }

  lemma CollapseInner(n: Node)
    requires n.Internal?
    ensures Collapse(n) == n
  {
  }

  // ── the loops that lay out and read back a page ────────────────────────────

  lemma EncodeNextRow(rows: seq<Row>, i: nat)
    requires i < |rows|
    ensures EncodeRows(rows[..i + 1]) == EncodeRows(rows[..i]) + EncodeRow(rows[i])
  {
    hide EncodeRow;
    assert rows[..i + 1][..i] == rows[..i];
  }

  lemma EncodeNextSep(keys: seq<Key>, children: seq<PageId>, i: nat)
    requires |children| == |keys| + 1 && i < |keys|
    ensures EncodeSeps(keys[..i + 1], children[..i + 2]) ==
              EncodeSeps(keys[..i], children[..i + 1]) + EncodeKey(keys[i]) + Word(children[i + 1], 4)
  {
    hide EncodeKey;
    hide Word;
    assert keys[..i + 1][..i] == keys[..i] && children[..i + 2][..i + 1] == children[..i + 1];
  }

  lemma EncodeNone()
    ensures EncodeRows([]) == []
  {
  }

  method LayRows(n: Node) returns (payload: Bytes)
    requires n.Leaf?
    ensures payload == EncodeRows(LeafRows(n))
  {
    hide EncodeRow;
    payload := [];
    var i := 0;
    ghost var rows := LeafRows(n);
    hide EncodeRows;
    EncodeNone();
    assert rows[..0] == [];
    while i < |n.entries|
      invariant i <= |n.entries| == |rows| && payload == EncodeRows(rows[..i])
    {
      var row := Row(n.entries[i].key, n.entries[i].rid, PayloadAt(n.payloads, i));
      EncodeNextRow(rows, i);
      payload := payload + EncodeRow(row);
      i := i + 1;
    }
    assert rows[..i] == rows;
  }

  method LaySeps(keys: seq<Key>, children: seq<PageId>) returns (payload: Bytes)
    requires |children| == |keys| + 1
    ensures payload == EncodeSeps(keys, children)
  {
    hide EncodeKey;
    hide Word;
    payload := [];
    var i := 0;
    while i < |keys|
      invariant i <= |keys| && payload == EncodeSeps(keys[..i], children[..i + 1])
    {
      EncodeNextSep(keys, children, i);
      payload := payload + EncodeKey(keys[i]) + Word(children[i + 1], 4);
      i := i + 1;
    }
    assert keys[..i] == keys && children[..i + 1] == children;
  }

  /** `Node::serialize`. */
  method Serialize(n: Node, pid: PageId, size: nat) returns (page: Bytes)
    requires Fits(n, size)
    ensures page == PageOf(n, pid, size)
  {
    hide Word;
    hide EncodeRows;
    hide EncodeSeps;
    hide BodyLen;
    hide LeafRows;
    BodyBytes(n);
    var body: Bytes;
    match n {
      case Leaf(entries, _, next) =>
        body := LayRows(n);
        body := [NODE_LEAF] + Word(|entries|, 2) + Word(next, 4) + body;
      case Internal(keys, children) =>
        body := LaySeps(keys, children);
        body := [NODE_INTERNAL] + Word(|keys|, 2) + Word(children[0], 4) + body;
    }
    page := Word(pid, 4) + [PAGE_TYPE_BTREE] + Zeros(23) + body + Zeros(size - PAGE_HEADER - |body|);
  }

  lemma {:induction false} DecodeRowsStuck(buf: Bytes, pos: nat, k: nat, count: nat)
    requires k <= count && DecodeRows(buf, pos, k) == None
    ensures DecodeRows(buf, pos, count) == None
    decreases count - k
  {
    hide DecodeRow;
    if k < count { DecodeRowsStuck(buf, pos, k + 1, count); }
  }

  lemma {:induction false} DecodeSepsStuck(buf: Bytes, pos: nat, first: PageId, k: nat, count: nat)
    requires k <= count && DecodeSeps(buf, pos, first, k) == None
    ensures DecodeSeps(buf, pos, first, count) == None
    decreases count - k
  {
    hide DecodeSep;
    if k < count { DecodeSepsStuck(buf, pos, first, k + 1, count); }
  }

  lemma SplitRows(rows: seq<Row>, r: Row)
    ensures EntriesOf(rows + [r]) == EntriesOf(rows) + [Entry(r.key, r.rid)]
    ensures PayloadsOf(rows + [r]) == PayloadsOf(rows) + [r.payload]
  {
  }

  lemma NoRows()
    ensures EntriesOf([]) == [] && PayloadsOf([]) == []
  {
  }

  /** The leaf half of `Node::deserialize`. */
  method ReadLeaf(body: Bytes, count: nat, next: PageId) returns (r: Option<Node>)
    ensures r == match DecodeRows(body, 7, count)
                 case None => None
                 case Some((rows, _)) => Some(Collapse(Leaf(EntriesOf(rows), PayloadsOf(rows), next)))
  {
    hide DecodeRow;
    hide EntriesOf;
    hide PayloadsOf;
    var entries: seq<Entry> := [];
    var payloads: seq<seq<byte>> := [];
    var hasIncludes := false;
    var pos, i := 7, 0;
    ghost var rows: seq<Row> := [];
    NoRows();
    while i < count
      invariant i <= count && DecodeRows(body, 7, i) == Some((rows, pos))
      invariant entries == EntriesOf(rows) && payloads == PayloadsOf(rows)
      invariant hasIncludes <==> exists k :: 0 <= k < |payloads| && payloads[k] != []
    {
      var row := DecodeRow(body, pos);
      if row.None? {
        DecodeRowsStuck(body, 7, i + 1, count);
        return None;
      }
      SplitRows(rows, row.value.0);
      rows := rows + [row.value.0];
      if row.value.0.payload != [] {
        assert (payloads + [row.value.0.payload])[|payloads|] != [];
        hasIncludes := true;
      }
      assert forall k :: 0 <= k < |payloads| ==> (payloads + [row.value.0.payload])[k] == payloads[k];
      payloads := payloads + [row.value.0.payload];
      entries := entries + [Entry(row.value.0.key, row.value.0.rid)];
      pos := row.value.1;
      i := i + 1;
    }
    return Some(Leaf(entries, if hasIncludes then payloads else [], next));
  }

  /** The internal half of `Node::deserialize`. */
  method ReadInternal(body: Bytes, count: nat, first: PageId) returns (r: Option<Node>)
    ensures r == match DecodeSeps(body, 7, first, count)
                 case None => None
                 case Some((keys, children, _)) => Some(Internal(keys, children))
  {
    hide DecodeSep;
    var keys: seq<Key> := [];
    var children := [first];
    var pos, i := 7, 0;
    while i < count
      invariant i <= count && DecodeSeps(body, 7, first, i) == Some((keys, children, pos))
    {
      var sep := DecodeSep(body, pos);
      if sep.None? {
        DecodeSepsStuck(body, 7, first, i + 1, count);
        return None;
      }
      keys, children, pos := keys + [sep.value.0], children + [sep.value.1], sep.value.2;
      i := i + 1;
    }
    return Some(Internal(keys, children));
  }

  /** `Node::deserialize`. */
  method Deserialize(page: Bytes) returns (r: Option<Node>)
    ensures r == Parse(page)
  {
    if |page| < PAGE_HEADER { return None; }
    var body := page[PAGE_HEADER..];
    hide DecodeRows;
    hide DecodeSeps;
    hide Collapse;
    hide ReadWord;
    if body == [] || (body[0] != NODE_LEAF && body[0] != NODE_INTERNAL) { return None; }
    var count, link := ReadWord(body, 1, 2), ReadWord(body, 3, 4);
    if count.None? || link.None? { return None; }
    ReadFits(body, 3);
    if body[0] == NODE_LEAF {
      r := ReadLeaf(body, count.value, link.value);
    } else {
      r := ReadInternal(body, count.value, link.value);
    }
  }

  lemma ReadFits(buf: Bytes, pos: nat)
    ensures ReadWord(buf, pos, 4).Some? ==> ReadWord(buf, pos, 4).value < 0x1_0000_0000
  {
    Widths();
  }
}
