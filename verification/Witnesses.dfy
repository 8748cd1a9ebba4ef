/**
  Concrete trees on which a batch makes no progress, a split overflows a page, a pair is
  stored twice, or a stored pair is passed over.
 */
module Witnesses {
  import opened Keys
  import opened Nodes
  import opened Shapes
  import opened Steps
  import opened Searches
  import opened Trees
  import opened Sizes
  import opened Overflows
  import opened Inserts
  import opened Edits
  import opened Walks
  import opened Merges
  import opened Patches
  import opened Batches
  import opened BTree

  function Int(n: int): Key
    requires -100 <= n <= 100
  {
    IntKey(n)
  }

  function At(k: int, slot: Word16): Entry
    requires -100 <= k <= 100
  {
    Entry(Int(k), RowId(1, slot))
  }

  // ── a separator below the least key of its right leaf ──────────────────────

  /**
    A leaf that held (5, slot 9) as well was split there, which made 5 the separator, and
    that pair was removed; see `LooseBuilt`.
   */
  function LoosePages(): Pages {
    map[1 := Internal([Int(5)], [2, 3]),
        2 := Leaf([At(1, 0), At(5, 0)], [], 3),
        3 := Leaf([At(7, 0), At(9, 0)], [], NO_PAGE)]
  }

  /** A split of a leaf with these entries, and the removal of the first entry of its right half. */
  lemma LooseBuilt()
    ensures var full := Leaf([At(1, 0), At(5, 0), At(5, 9), At(7, 0), At(9, 0)], [], NO_PAGE);
            && PlainLeaf(LeafRight(full), 3, LooseShape())
            && LoosePages() == map[1 := Internal([LeafSep(full)], [2, 3]), 2 := LeafLeft(full, 3),
                                   3 := DropAt(LeafRight(full), 0)]
  {
    var full := Leaf([At(1, 0), At(5, 0), At(5, 9), At(7, 0), At(9, 0)], [], NO_PAGE);
    assert LeafRight(full).entries == [At(5, 9), At(7, 0), At(9, 0)];
    assert LeafLeft(full, 3).entries == [At(1, 0), At(5, 0)];
    assert DropAt(LeafRight(full), 0).entries == [At(7, 0), At(9, 0)];
  }

  ghost function LooseShape(): Shape {
    Shape(map[1 := Span(1, 0.0, 1.0), 2 := Span(0, 0.0, 0.5), 3 := Span(0, 0.5, 1.0)],
          map[0.0 := BOTTOM, 0.5 := 5.0, 1.0 := TOP])
  }

  lemma LooseFacts()
    ensures var g := LooseShape();
            && g.spans.Keys == {1, 2, 3} && g.fence.Keys == {0.0, 0.5, 1.0}
            && g.spans[1] == Span(1, 0.0, 1.0) && g.spans[2] == Span(0, 0.0, 0.5) && g.spans[3] == Span(0, 0.5, 1.0)
            && g.fence[0.0] == BOTTOM && g.fence[0.5] == 5.0 && g.fence[1.0] == TOP
  {
  }

  lemma LooseFences(g: Shape)
    requires g.fence.Keys == {0.0, 0.5, 1.0} && g.fence[0.0] == BOTTOM && g.fence[0.5] == 5.0 && g.fence[1.0] == TOP
    ensures FenceOk(g)
  {
    assert forall x :: x in g.fence <==> x in g.fence.Keys;
  }

  lemma LooseSpans(g: Shape)
    requires g.spans.Keys == {1, 2, 3} && g.fence.Keys == {0.0, 0.5, 1.0}
    requires g.spans[1] == Span(1, 0.0, 1.0) && g.spans[2] == Span(0, 0.0, 0.5) && g.spans[3] == Span(0, 0.5, 1.0)
    ensures SpansOk(g) && Disjoint(g) && FencesAtLeaves(g) && RootOk(g, 1, {})
  {
    assert forall p :: p in g.spans <==> p in g.spans.Keys;
    assert forall x :: x in g.fence <==> x in g.fence.Keys;
  }

  lemma LooseShapeOk()
    ensures ShapeOk(LooseShape()) && RootOk(LooseShape(), 1, {})
  {
    hide *;
    LooseFacts();
    LooseFences(LooseShape());
    LooseSpans(LooseShape());
    ShapeIntro(LooseShape());
  }

  lemma ShapeIntro(g: Shape)
    requires FenceOk(g) && SpansOk(g) && Disjoint(g) && FencesAtLeaves(g)
    ensures ShapeOk(g)
  {
  }

  lemma TreeIntro(pages: Pages, root: PageId, g: Shape, kind: Kind)
    requires ShapeOk(g) && RootOk(g, root, {}) && g.spans.Keys <= pages.Keys
    requires forall p :: p in g.spans.Keys ==> PageOk(pages, p, g, {}, kind)
    ensures TreeInv(pages, root, g, {}, kind)
  {
    hide ShapeOk;
    hide RootOk;
    hide PageOk;
  }

  lemma LooseLeaves()
    ensures LoosePages().Keys == {1, 2, 3}
    ensures LeafOk(LoosePages()[2], 2, LooseShape()) && LeafOk(LoosePages()[3], 3, LooseShape())
    ensures NodeKind(LoosePages()[2], IntKind) && NodeKind(LoosePages()[3], IntKind)
  {
  }

  lemma LooseRoot()
    ensures InnerOk(LoosePages()[1], 1, LooseShape(), {}) && NodeKind(LoosePages()[1], IntKind)
  {
    var n, g := LoosePages()[1], LooseShape();
    LooseFacts();
    hide LooseShape;
    assert ChildrenOk(n, 1, g);
    assert Tiled(n, 1, g, {}, 0) && Tiled(n, 1, g, {}, 1);
  }

  lemma LooseTree()
    ensures TreeInv(LoosePages(), 1, LooseShape(), {}, IntKind)
  {
    hide *;
    var pages, g, kind := LoosePages(), LooseShape(), IntKind;
    LooseFacts();
    LooseShapeOk();
    LooseLeaves();
    LooseRoot();
    ShapeOkParts(g);
    LeafPage(pages, 2, g, {}, kind);
    LeafPage(pages, 3, g, {}, kind);
    PageFromInner(pages, 1, g, {}, kind);
    TreeIntro(pages, 1, g, kind);
  }

  lemma LooseRoutes()
    ensures var pages := LoosePages();
            && Landing(Eq, pages, 1, 1, Int(5)) == 2 && LandingInsert(pages, 1, 1, Int(5)) == 3
            && BodyLen(pages[2]) == 45 && BodyLen(pages[3]) == 45 && BodyLen(pages[1]) == 20
  {
    var pages := LoosePages();
    assert RouteReadFrom([Int(5)], Int(5), 0) == 0;
    assert RouteInsertFrom([Int(5)], Int(5), 1) == 1;
    assert RouteInsertFrom([Int(5)], Int(5), 0) == 1;
    BareLeafLen(pages[2], IntKind);
    BareLeafLen(pages[3], IntKind);
    InnerLen(pages[1], IntKind);
  }

  lemma LooseFits(cap: nat)
    requires cap >= MIN_PAGE - PAGE_HEADER
    ensures Fitting(LoosePages(), LooseShape(), cap)
  {
    LooseRoutes();
    hide BodyLen;
  }

  /** Pairs of the key 5 with `count` row ids. */
  function Fives(count: nat): seq<Entry>
    requires count < 0xFFFF
  {
    seq(count, i requires 0 <= i < count => At(5, i + 1))
  }

  lemma {:induction false} FivesLen(count: nat)
    requires count < 0xFFFF
    ensures RunLen(Fives(count)) == 19 * count
  {
    if count > 0 {
      assert Fives(count)[..count - 1] == Fives(count - 1);
      FivesLen(count - 1);
    }
  }

  /**
    A read of `v` lands on leaf `home`, which owns the keys of the run but has no room for
    it, while an insert of `v` is routed to leaf `target`, which does not own `v`.
   */
  ghost predicate Stalls(pages: Pages, root: PageId, depth: nat, cap: nat, run: seq<Entry>, v: Key,
                         home: PageId, target: PageId)
  {
    && |run| >= 2 && KeysSorted(run) && run[0].key == v && home in pages && pages[home].Leaf?
    && pages[home].entries != []
    && Landing(Eq, pages, root, depth, v) == home
    && (forall e :: e in run ==>
          Between(e.key, pages[home].entries[0].key, pages[home].entries[|pages[home].entries| - 1].key))
    && cap < BodyLen(pages[home]) + RunLen(run)
    && LandingInsert(pages, root, depth, v) == target && Misses(pages, target, v)
  }

  /**
    Where a separator is not exact a batch can be turned away, whatever the page size: the
    round deals with no entry and changes no page, so the next round is the same again.
   */
  lemma BatchCanStall(pageSize: nat)
    requires MIN_PAGE <= pageSize <= 0x1_0000
    ensures var pages, g, cap := LoosePages(), LooseShape(), BodyCapacity(pageSize);
            && TreeInv(pages, 1, g, {}, IntKind) && Fitting(pages, g, cap) && Bare(pages, g)
            && Stalls(pages, 1, 1, cap, Fives(Enough(cap)), Int(5), 2, 3)
  {
    hide *;
    var cap := BodyCapacity(pageSize);
    CapacityIs(pageSize);
    LooseTree();
    LooseFits(cap);
    LooseBare();
    LooseStalls(cap, Enough(cap));
  }

  /** More entries than the left leaf has room for. */
  function Enough(cap: nat): (count: nat)
    ensures 4068 <= cap <= 0x1_0000 ==> 2 <= count < 0xFFFF && cap < 45 + 19 * count
    ensures count < 0xFFFF
  {
    if 4068 <= cap <= 0x1_0000 then (cap - 45) / 19 + 1 else 0
  }

  lemma LooseStalls(cap: nat, count: nat)
    requires 2 <= count < 0xFFFF && cap < 45 + 19 * count
    ensures Stalls(LoosePages(), 1, 1, cap, Fives(count), Int(5), 2, 3)
  {
    LooseRoutes();
    FivesLen(count);
    FivesFacts(count);
    LooseMisses();
    hide BodyLen;
    hide RunLen;
    hide Landing;
    hide LandingInsert;
    hide Misses;
    hide Fives;
    hide KeysSorted;
  }

  lemma CapacityIs(pageSize: nat)
    requires pageSize >= MIN_PAGE
    ensures BodyCapacity(pageSize) == pageSize - 28 && pageSize >= 4096
    ensures BodyCapacity(pageSize) >= MIN_PAGE - PAGE_HEADER
  {
  }

  lemma FivesFacts(count: nat)
    requires count < 0xFFFF
    ensures var run := Fives(count);
            |run| == count && KeysSorted(run)
            && forall e :: e in run ==> e.key == Int(5) && Between(e.key, Int(1), Int(5))
  {
  }

  lemma LooseMisses()
    ensures Misses(LoosePages(), 3, Int(5))
  {
  }

  lemma LooseBare()
    ensures Bare(LoosePages(), LooseShape()) && LoosePages().Keys == {1, 2, 3} && LoosePages()[2].Leaf?
  {
  }

  /**
    On the same tree an insert of the stored pair (5, row 0) searches the right leaf and stores
    the pair a second time.
   */
  lemma PairCanBeStoredTwice(pageSize: nat)
    requires MIN_PAGE <= pageSize
    ensures var pages, cap := LoosePages(), BodyCapacity(pageSize);
            && TreeInv(pages, 1, LooseShape(), {}, IntKind) && Fitting(pages, LooseShape(), cap)
            && At(5, 0) in pages[2].entries
            && LandingInsert(pages, 1, 1, Int(5)) == 3 && !HitAt(pages, 3, At(5, 0))
  {
    LooseTree();
    LooseFits(BodyCapacity(pageSize));
    LooseRoutes();
    hide TreeInv;
    hide Fitting;
    var pages := LoosePages();
    assert pages[2].entries[1] == At(5, 0);
    assert Ascending(pages[3].entries);
    AscendingHit(pages[3].entries, At(5, 0), 0, 2);
  }

  // ── halves larger than their page ──────────────────────────────────────────

  /** `len` times the same letter. */
  function Word(letter: byte, len: nat): (k: Key)
    ensures k.TextKey? && |k.s| == len && forall i :: 0 <= i < len ==> k.s[i] == letter
  {
    TextKey(seq(len, _ => letter))
  }

  function TextLeaf(len: nat): Node {
    Leaf([Entry(Word(97, 10), RowId(1, 0)), Entry(Word(98, len), RowId(1, 0))], [], NO_PAGE)
  }

  lemma TextOrder(a: nat, b: nat)
    requires a > 0 && b > 0
    ensures Less(Word(97, 10), Word(98, a)) && Less(Word(98, a), Word(99, b))
  {
  }

  /** One leaf with keys in order is a tree. */
  lemma LoneLeaf(n: Node, kind: Kind)
    requires n.Leaf? && n.payloads == [] && n.next == NO_PAGE && KeysSorted(n.entries) && NodeKind(n, kind)
    ensures TreeInv(map[1 := n], 1, FreshShape(1), {}, kind)
  {
    var pages: Pages := map[1 := Leaf([], [], NO_PAGE)];
    FreshTree(1, kind);
    hide TreeInv;
    hide KeysSorted;
    hide NodeKind;
    assert LeafOk(n, 1, FreshShape(1));
    hide LeafOk;
    RewriteLeaf(pages, 1, FreshShape(1), {}, kind, 1, n);
    assert pages[1 := n] == map[1 := n];
  }

  lemma TextTree(len: nat)
    requires len > 0
    ensures TreeInv(map[1 := TextLeaf(len)], 1, FreshShape(1), {}, TextKind)
  {
    TextOrder(len, 1);
    hide Word;
    hide Less;
    hide TreeInv;
    TwoEntries(Entry(Word(97, 10), RowId(1, 0)), Entry(Word(98, len), RowId(1, 0)), TextKind);
    LoneLeaf(TextLeaf(len), TextKind);
  }

  lemma TwoEntries(a: Entry, b: Entry, kind: Kind)
    requires Less(a.key, b.key) && KindOf(a.key) == kind && KindOf(b.key) == kind
    ensures KeysSorted([a, b]) && NodeKind(Leaf([a, b], [], NO_PAGE), kind)
  {
    hide Rank;
    hide Less;
  }

  lemma TextSizes(len: nat, e: Entry)
    requires e.key.TextKey?
    ensures BodyLen(TextLeaf(len)) == 43 + len
    ensures var full := LeafInsert(TextLeaf(len), 2, e, []);
            BodyLen(full) == 56 + len + |e.key.s| && BodyLen(LeafRight(full)) == 33 + len + |e.key.s|
  {
    var a, b := Row(Word(97, 10), RowId(1, 0), []), Row(Word(98, len), RowId(1, 0), []);
    var c := Row(e.key, e.rid, []);
    var full := LeafInsert(TextLeaf(len), 2, e, []);
    assert RowsOf(TextLeaf(len).entries, []) == [a] + [b];
    assert RowsOf(full.entries, []) == ([a] + [b]) + [c];
    assert RowsOf(LeafRight(full).entries, []) == [b] + [c];
    RowsLenConcat([a], [b]);
    RowsLenConcat([a] + [b], [c]);
    RowsLenConcat([b], [c]);
    assert RowsLen([a]) == RowLen(a) && RowsLen([b]) == RowLen(b) && RowsLen([c]) == RowLen(c);
  }

  /**
    Whatever the page size, a leaf that fits and a key that fits a page of its own can split
    into a right half that does not fit: two text keys of half a page each.
   */
  lemma TextSplitCanPanic(pageSize: nat)
    requires MIN_PAGE <= pageSize <= 0x1_0000
    ensures var cap := BodyCapacity(pageSize);
            var pages: Pages := map[1 := TextLeaf(cap / 2)];
            var e := Entry(Word(99, cap / 2 + 1), RowId(1, 0));
            && TreeInv(pages, 1, FreshShape(1), {}, TextKind) && Fitting(pages, FreshShape(1), cap)
            && NODE_HEADER + RowLen(Row(e.key, e.rid, [])) <= cap
            && LandingInsert(pages, 1, 0, e.key) == 1 && !HitAt(pages, 1, e)
            && forall full :: LeafPlus(pages, 1, e, [], full) ==> cap < BodyLen(full) && TooWide(full, cap)
  {
    var cap := BodyCapacity(pageSize);
    var len := cap / 2;
    var pages: Pages := map[1 := TextLeaf(len)];
    var e := Entry(Word(99, len + 1), RowId(1, 0));
    TextTree(len);
    TextOrder(len, len + 1);
    TextSizes(len, e);
    hide TreeInv;
    hide BodyLen;
    hide Less;
    TextMiss(len, e);
    forall full | LeafPlus(pages, 1, e, [], full) ensures full == LeafInsert(TextLeaf(len), 2, e, []) {
      var pos: nat :| IsInsertPos(pages[1].entries, e, pos) && full == LeafInsert(pages[1], pos, e, []);
      TextPos(len, e, pos);
    }
  }

  lemma TextMiss(len: nat, e: Entry)
    requires len > 0 && Less(Word(98, len), e.key)
    ensures !HitAt(map[1 := TextLeaf(len)], 1, e)
  {
    TextOrder(len, 1);
    hide Word;
    hide Less;
    hide Bisect;
    MissAbove(TextLeaf(len).entries, e);
  }

  lemma MissAbove(es: seq<Entry>, e: Entry)
    requires |es| == 2 && Less(es[0].key, es[1].key) && Less(es[1].key, e.key)
    ensures !Bisect(es, e, 0, 2)
  {
    hide Less;
    hide Bisect;
    hide Rank;
    AscendingHit(es, e, 0, 2);
  }

  lemma TextPos(len: nat, e: Entry, pos: nat)
    requires len > 0 && Less(Word(98, len), e.key) && IsInsertPos(TextLeaf(len).entries, e, pos)
    ensures pos == 2
  {
    TextOrder(len, 1);
    hide Word;
    hide Less;
  }

  /** A full leaf of an 8 KiB page, and a run of as many keys again and one more. */
  function FullLeaf(): Node {
    Leaf(seq(429, i requires 0 <= i < 429 => Entry(IntKey(i), RowId(1, 0))), [], NO_PAGE)
  }

  function LongRun(): seq<Entry> {
    seq(430, i requires 0 <= i < 430 => Entry(IntKey(if i < 429 then i else 428), RowId(1, i + 1)))
  }

  lemma {:induction false} MergedAll(old': seq<Entry>, new': seq<Entry>)
    requires AsSet(old') !! AsSet(new')
    ensures |Merged(old', new')| == |old'| + |new'|
    decreases |old'| + |new'|
  {
    if old' != [] && new' != [] {
      SetCons(old');
      SetCons(new');
      hide AsSet;
      hide EntryLess;
      if EntryLess(old'[0], new'[0]) {
        MergedAll(old'[1..], new');
      } else {
        MergedAll(old', new'[1..]);
      }
    }
  }

  lemma FullTree()
    ensures TreeInv(map[1 := FullLeaf()], 1, FreshShape(1), {}, IntKind)
    ensures Fitting(map[1 := FullLeaf()], FreshShape(1), BodyCapacity(8192))
    ensures Bare(map[1 := FullLeaf()], FreshShape(1))
  {
    hide TreeInv;
    LoneLeaf(FullLeaf(), IntKind);
    BareLeafLen(FullLeaf(), IntKind);
    hide BodyLen;
  }

  lemma FullSlots()
    ensures FullLeaf().entries[0].key == IntKey(0) && FullLeaf().entries[428].key == IntKey(428)
    ensures forall e :: e in FullLeaf().entries ==> e.rid.slot == 0
  {
  }

  lemma LongSlots()
    ensures |LongRun()| == 430 && KeysSorted(LongRun())
    ensures forall e :: e in LongRun() ==>
              e.rid.slot > 0 && KindOf(e.key) == IntKind && Between(e.key, IntKey(0), IntKey(428))
  {
  }

  lemma LongRunFacts()
    ensures var n, run := FullLeaf(), LongRun();
            && |run| == 430 && KeysSorted(run) && AsSet(n.entries) !! AsSet(run)
            && (forall e :: e in run ==> KindOf(e.key) == IntKind)
            && RunCount(run, n.entries[0].key, n.entries[428].key) == 430
  {
    FullSlots();
    LongSlots();
    var n, run := FullLeaf(), LongRun();
    hide LongRun;
    hide KeysSorted;
    hide Between;
    RunCountIs(run, n.entries[0].key, n.entries[428].key, 430);
    hide FullLeaf;
    hide RunCount;
    forall e | e in AsSet(n.entries) ensures e !in AsSet(run) {
      assert e.rid.slot == 0;
    }
  }

  lemma LongMerge()
    ensures |BatchLeaf(FullLeaf(), LongRun()).entries| == 859
  {
    LongRunFacts();
    var n, run := FullLeaf(), LongRun();
    hide LongRun;
    hide Merged;
    hide RunCount;
    hide AsSet;
    MergedAll(n.entries, run);
    assert run[..430] == run;
  }

  /** A batch can pass the size guard of its split and still leave a half that does not fit. */
  lemma BatchSplitCanPanic()
    ensures var pages: Pages, cap := map[1 := FullLeaf()], BodyCapacity(8192);
            && TreeInv(pages, 1, FreshShape(1), {}, IntKind) && Fitting(pages, FreshShape(1), cap)
            && Bare(pages, FreshShape(1))
            && KeysSorted(LongRun()) && SplitTooWide(pages, 1, LongRun(), cap)
  {
    OneLeaf();
    hide *;
    FullTree();
    LongRunFacts();
    LongMerge();
    NarrowSplitTooWide(map[1 := FullLeaf()], 1, FreshShape(1), IntKind, BodyCapacity(8192), 1, LongRun());
    LongSizes();
  }

  lemma OneLeaf()
    ensures 1 in FreshShape(1).spans && FreshShape(1).spans[1].level == 0 && MIN_PAGE <= 8192
    ensures Narrow(IntKind, BodyCapacity(8192))
  {
  }

  lemma LongSizes()
    ensures var cap := BodyCapacity(8192);
            cap < NODE_HEADER + EntryWidth(IntKind) * 859 <= 2 * cap
            && NODE_HEADER + EntryWidth(IntKind) * HalfUp(859) > cap
  {
  }

  // ── an emptied leaf in front of a stored pair ──────────────────────────────

  /** Two splits made 5 and 9 separators, and the last pair between them was removed; see `GappyBuilt`. */
  function GappyPages(): Pages {
    map[1 := Internal([Int(5), Int(9)], [2, 3, 4]),
        2 := Leaf([At(1, 0)], [], 3),
        3 := Leaf([], [], 4),
        4 := Leaf([At(9, 0)], [], NO_PAGE)]
  }

  /** A tree whose separators are the first keys of its leaves, and the removal of the only entry of one. */
  lemma GappyBuilt()
    ensures var before := GappyPages()[3 := Leaf([At(5, 0)], [], 4)];
            Plain(before, GappyShape()) && GappyPages() == before[3 := DropAt(before[3], 0)]
  {
    var before := GappyPages()[3 := Leaf([At(5, 0)], [], 4)];
    assert DropAt(before[3], 0).entries == [];
    assert before[3 := DropAt(before[3], 0)] == GappyPages();
  }

  ghost function GappyShape(): Shape {
    Shape(map[1 := Span(1, 0.0, 1.0), 2 := Span(0, 0.0, 0.25), 3 := Span(0, 0.25, 0.5), 4 := Span(0, 0.5, 1.0)],
          map[0.0 := BOTTOM, 0.25 := 5.0, 0.5 := 9.0, 1.0 := TOP])
  }

  lemma GappyFacts()
    ensures var g := GappyShape();
            && g.spans.Keys == {1, 2, 3, 4} && g.fence.Keys == {0.0, 0.25, 0.5, 1.0}
            && g.spans[1] == Span(1, 0.0, 1.0) && g.spans[2] == Span(0, 0.0, 0.25) && g.spans[3] == Span(0, 0.25, 0.5)
            && g.spans[4] == Span(0, 0.5, 1.0)
            && g.fence[0.0] == BOTTOM && g.fence[0.25] == 5.0 && g.fence[0.5] == 9.0 && g.fence[1.0] == TOP
  {
  }

  lemma GappyFences(g: Shape)
    requires g.fence.Keys == {0.0, 0.25, 0.5, 1.0}
    requires g.fence[0.0] == BOTTOM && g.fence[0.25] == 5.0 && g.fence[0.5] == 9.0 && g.fence[1.0] == TOP
    ensures FenceOk(g)
  {
    assert forall x :: x in g.fence <==> x in g.fence.Keys;
  }

  lemma GappySpans(g: Shape)
    requires g.spans.Keys == {1, 2, 3, 4} && g.fence.Keys == {0.0, 0.25, 0.5, 1.0}
    requires g.spans[1] == Span(1, 0.0, 1.0) && g.spans[2] == Span(0, 0.0, 0.25) && g.spans[3] == Span(0, 0.25, 0.5)
    requires g.spans[4] == Span(0, 0.5, 1.0)
    ensures SpansOk(g) && Disjoint(g) && FencesAtLeaves(g) && RootOk(g, 1, {})
  {
    assert forall p :: p in g.spans <==> p in g.spans.Keys;
    assert forall x :: x in g.fence <==> x in g.fence.Keys;
  }

  lemma GappyShapeOk()
    ensures ShapeOk(GappyShape()) && RootOk(GappyShape(), 1, {})
  {
    hide *;
    GappyFacts();
    GappyFences(GappyShape());
    GappySpans(GappyShape());
    ShapeIntro(GappyShape());
  }

  lemma GappyLeaves()
    ensures GappyPages().Keys == {1, 2, 3, 4}
    ensures LeafOk(GappyPages()[2], 2, GappyShape()) && LeafOk(GappyPages()[3], 3, GappyShape())
    ensures LeafOk(GappyPages()[4], 4, GappyShape())
    ensures NodeKind(GappyPages()[2], IntKind) && NodeKind(GappyPages()[3], IntKind)
    ensures NodeKind(GappyPages()[4], IntKind)
  {
  }

  lemma GappyRoot()
    ensures InnerOk(GappyPages()[1], 1, GappyShape(), {}) && NodeKind(GappyPages()[1], IntKind)
  {
    var n, g := GappyPages()[1], GappyShape();
    GappyFacts();
    hide GappyShape;
    assert ChildrenOk(n, 1, g);
    assert Tiled(n, 1, g, {}, 0) && Tiled(n, 1, g, {}, 1) && Tiled(n, 1, g, {}, 2);
  }

  lemma GappyTree()
    ensures TreeInv(GappyPages(), 1, GappyShape(), {}, IntKind)
  {
    hide *;
    var pages, g, kind := GappyPages(), GappyShape(), IntKind;
    GappyFacts();
    GappyShapeOk();
    GappyLeaves();
    GappyRoot();
    ShapeOkParts(g);
    LeafPage(pages, 2, g, {}, kind);
    LeafPage(pages, 3, g, {}, kind);
    LeafPage(pages, 4, g, {}, kind);
    PageFromInner(pages, 1, g, {}, kind);
    TreeIntro(pages, 1, g, kind);
  }

  lemma GappyChain()
    ensures LeavesUnder(GappyPages(), 1, 1) == [2, 3, 4]
  {
    var pages := GappyPages();
    assert [2, 3, 4][..2] == [2, 3] && [2, 3][..1] == [2] && [2][..0] == [];
    assert LeavesOfAll(pages, [2], 0) == [2];
    assert LeavesOfAll(pages, [2, 3], 0) == [2] + [3];
    assert LeavesOfAll(pages, [2, 3, 4], 0) == [2, 3] + [4];
  }

  lemma GappyLanding()
    ensures Landing(Eq, GappyPages(), 1, 1, Int(9)) == 3
  {
    assert RouteReadFrom([Int(5), Int(9)], Int(9), 1) == 1;
    assert RouteReadFrom([Int(5), Int(9)], Int(9), 0) == 1;
  }

  /** A read of 9 lands on the emptied leaf: `remove` stops there and `set_value` finds no key, yet 9 is stored. */
  lemma PairCanBePassedOver()
    ensures var pages := GappyPages();
            var leaves := LeavesUnder(pages, 1, 1);
            && TreeInv(pages, 1, GappyShape(), {}, IntKind) && leaves == [2, 3, 4]
            && HasAt(pages, leaves, 2, At(9, 0)) && Landing(Eq, pages, 1, 1, Int(9)) == leaves[1]
            && !Reached(pages, leaves, 1, At(9, 0)) && !HasKeyAt(pages, leaves[1], Int(9))
  {
    GappyTree();
    GappyChain();
    GappyLanding();
    hide TreeInv;
    hide LeavesUnder;
    hide Landing;
    var pages, leaves := GappyPages(), [2, 3, 4];
    assert !NonEmptyAt(pages, leaves, 1);
    assert !HasAt(pages, leaves, 1, At(9, 0));
  }
}
