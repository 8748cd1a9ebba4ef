/**
  Index keys: the orderable projection of a SQL literal, and row ids.

  The source derives its key order (variants in declaration order, text by bytes).
  `Rank` embeds that order into the reals, so that every later proof about key
  order is a proof about real inequalities.
 */
module Keys {

  type byte = x: int | 0 <= x < 256
  type Int64 = x: int | -0x8000_0000_0000_0000 <= x < 0x8000_0000_0000_0000

  datatype Option<T> = None | Some(value: T)

  /** A text key is the byte sequence of a Rust `String`. */
  datatype Key = IntKey(n: Int64) | TextKey(s: seq<byte>) | BoolKey(b: bool)

  datatype Kind = IntKind | TextKind | BoolKind

  function KindOf(k: Key): Kind {
    match k
    case IntKey(_) => IntKind
    case TextKey(_) => TextKind
    case BoolKey(_) => BoolKind
  }

  // ── the derived order ──────────────────────────────────────────────────────

  predicate TextLess(s: seq<byte>, t: seq<byte>) {
    if t == [] then false
    else if s == [] then true
    else s[0] < t[0] || (s[0] == t[0] && TextLess(s[1..], t[1..]))
  }

  /** `a < b` in the derived order: Int before Text before Bool. */
  predicate Less(a: Key, b: Key)
    ensures Less(a, b) <==> Rank(a) < Rank(b)
  {
    match (a, b)
    case (IntKey(m), IntKey(n)) => m < n
    case (TextKey(s), TextKey(t)) => TextRankOrder(s, t); TextLess(s, t)
    case (BoolKey(x), BoolKey(y)) => !x && y
    case (IntKey(_), _) => true
    case (TextKey(_), BoolKey(_)) => true
    case _ => false
  }

  predicate AtMost(a: Key, b: Key)
    ensures AtMost(a, b) <==> Rank(a) <= Rank(b)
  {
    !Less(b, a)
  }

  // ── the embedding ──────────────────────────────────────────────────────────

  const BOTTOM: real := -9223372036854775809.0
  const TEXT_BASE: real := 9223372036854775808.0
  const TOP: real := 9223372036854775812.0

  ghost function TextRank(s: seq<byte>): (r: real)
    ensures 0.0 <= r < 1.0
    ensures s != [] ==> 0.0 < r
  {
    if s == [] then 0.0 else (s[0] as real + 1.0 + TextRank(s[1..])) / 257.0
  }

  /** Every key lies strictly between the two end fences. */
  ghost function Rank(k: Key): (r: real)
    ensures BOTTOM < r < TOP
  {
    match k
    case IntKey(n) => n as real
    case TextKey(s) => TEXT_BASE + TextRank(s)
    case BoolKey(b) => TEXT_BASE + (if b then 2.0 else 1.0)
  }

  lemma {:induction false} TextRankOrder(s: seq<byte>, t: seq<byte>)
    ensures TextLess(s, t) <==> TextRank(s) < TextRank(t)
    ensures TextRank(s) == TextRank(t) ==> s == t
  {
    if s != [] && t != [] {
      TextRankOrder(s[1..], t[1..]);
      if s[0] == t[0] {
        assert s == [s[0]] + s[1..] && t == [t[0]] + t[1..];
      }
    }
  }

  /** Equal rank means equal key: the derived order is total. */
  lemma RankInjective(a: Key, b: Key)
    requires Rank(a) == Rank(b)
    ensures a == b
  {
    match (a, b)
    case (TextKey(s), TextKey(t)) => TextRankOrder(s, t);
    case _ =>
  }

  // ── row ids and entries ────────────────────────────────────────────────────

  type Word32 = x: int | 0 <= x < 0x1_0000_0000
  type Word16 = x: int | 0 <= x < 0x1_0000
  type PageId = Word32

  const NO_PAGE: PageId := 0xFFFF_FFFF

  datatype RowId = RowId(page: PageId, slot: Word16)

  datatype Entry = Entry(key: Key, rid: RowId)

  predicate RowIdLess(a: RowId, b: RowId) {
    a.page < b.page || (a.page == b.page && a.slot < b.slot)
  }

  /** The order the leaf's binary search probes with: key first, row id second. */
  predicate EntryLess(a: Entry, b: Entry)
    ensures EntryLess(a, b) ==> Rank(a.key) <= Rank(b.key)
    ensures Rank(a.key) < Rank(b.key) ==> EntryLess(a, b)
  {
    Less(a.key, b.key) || (a.key == b.key && RowIdLess(a.rid, b.rid))
  }

  predicate Between(k: Key, min: Key, max: Key) {
    !Less(k, min) && !Less(max, k)
  }

  /** Comparing two entries has exactly three outcomes. */
  lemma EntryTrichotomy(a: Entry, b: Entry)
    ensures EntryLess(a, b) || EntryLess(b, a) || a == b
    ensures !(EntryLess(a, b) && EntryLess(b, a))
    ensures !EntryLess(a, a)
  {
    if Rank(a.key) == Rank(b.key) { RankInjective(a.key, b.key); }
  }

  lemma EntryLessTrans(a: Entry, b: Entry, c: Entry)
    requires EntryLess(a, b) && EntryLess(b, c)
    ensures EntryLess(a, c)
  {
  }

  /** Entries ascend strictly, by key and then row id. */
  predicate Ascending(entries: seq<Entry>) {
    forall i, j :: 0 <= i < j < |entries| ==> EntryLess(entries[i], entries[j])
  }

  /** Entries that ascend are all different. */
  lemma AscendingOnce(entries: seq<Entry>, e: Entry)
    requires Ascending(entries)
    ensures multiset(entries)[e] <= 1
  {
    if e in entries {
      var i :| 0 <= i < |entries| && entries[i] == e;
      assert entries == entries[..i] + [e] + entries[i + 1..];
      forall j | 0 <= j < |entries| && j != i ensures entries[j] != e {
        EntryTrichotomy(e, e);
        assert if i < j then EntryLess(entries[i], entries[j]) else EntryLess(entries[j], entries[i]);
      }
      assert e !in entries[..i] && e !in entries[i + 1..];
      assert multiset(entries) == multiset(entries[..i]) + multiset{e} + multiset(entries[i + 1..]);
    }
  }
}
