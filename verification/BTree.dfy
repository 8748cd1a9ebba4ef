/**
  The durable B+tree used by one thread: pages, the root pointer of the meta page and
  the page allocator, with every operation written as the page reads and writes it makes.
 */
module BTree {
  import opened Keys
  import opened Nodes
  import opened Shapes
  import opened Steps
  import opened Searches
  import opened Trees
  import opened Spelling
  import opened Lookups
  import opened Partitions
  import opened Crabbing
  import opened Sizes
  import opened Overflows
  import opened Accounts
  import opened Inserts
  import opened Edits
  import opened Walks
  import opened Sorting
  import opened Merges
  import opened Patches
  import opened InPlace
  import opened Batches

  class DiskBTree {
    const cap: nat
    ghost const kind: Kind
    var pages: Pages
    var root: PageId
    var next: nat
    ghost var g: Shape

    ghost predicate Valid()
      reads this
    {
      TreeInv(pages, root, g, {}, kind) && Room(pages, next) && Fitting(pages, g, cap)
    }

    ghost function Depth(): nat
      reads this
    {
      if root in g.spans then g.spans[root].level else 0
    }

    ghost function Leaves(): seq<PageId>
      reads this
    {
      LeavesUnder(pages, root, Depth())
    }

    /** The rows of the tree in leaf-chain order. */
    ghost function Contents(): seq<Row>
      reads this
    {
      Flat(pages, Leaves())
    }

    /** Allocate a meta page and an empty leaf root. */
    constructor (cap: nat, ghost kind: Kind, root: PageId)
      requires root != NO_PAGE && cap >= MIN_PAGE - PAGE_HEADER
      ensures Valid() && Contents() == [] && this.cap == cap && this.kind == kind
    {
      this.cap := cap;
      this.kind := kind;
      this.root := root;
      this.pages := map[root := Leaf([], [], NO_PAGE)];
      this.next := root as nat + 1;
      this.g := FreshShape(root);
      new;
      FreshTree(root, kind);
      LeafLen(Leaf([], [], NO_PAGE));
      FlatOne(this.pages, root);
      assert LeavesUnder(this.pages, root, 0) == [root];
    }

    // ── lookups ──────────────────────────────────────────────────────────────

    /** Descend to the leftmost leaf that can hold an admitted row. */
    method FindLeaf(op: Op, v: Key) returns (pid: PageId, ghost i: nat)
      requires Valid()
      ensures i < |Leaves()| && Leaves()[i] == pid && Admitted(op, Flat(pages, Leaves()[..i]), v) == []
      ensures Tiling(g, Leaves(), 0.0, 1.0) && TreeInv(pages, root, g, {}, kind)
      ensures pid in g.spans && g.spans[pid].level == 0 && pid == Landing(op, pages, root, Depth(), v)
      ensures FromLeft(op) || StartsBelow(g, pid, v)
    {
      hide *;
      OpenTree(this);
      RootClear(op, pages, root, g, kind, v);
      pid := root;
      RootStartsBelow(pages, root, g, kind, v);
      TreePage(pages, root, g, {}, kind, pid);
      LeafOrInner(pages, root, g, kind, pid);
      while pages[pid].Internal?
        invariant pid in g.spans && pid in pages && LeftClear(op, pages, g, v, g.spans[pid].a)
        invariant pages[pid].Internal? <==> g.spans[pid].level > 0
        invariant Landing(op, pages, pid, g.spans[pid].level, v) == Landing(op, pages, root, Depth(), v)
        invariant FromLeft(op) || StartsBelow(g, pid, v)
        decreases g.spans[pid].level
      {
        DescendClear(op, pages, root, g, {}, kind, pid, v);
        LandingStep(op, pages, pid, g.spans[pid].level, v);
        StaysBelow(op, pages, root, g, kind, pid, v);
        pid := pages[pid].children[RouteRead(op, pages[pid].keys, v)];
        TreePage(pages, root, g, {}, kind, pid);
        LeafOrInner(pages, root, g, kind, pid);
      }
      LandingEnd(op, pages, pid, v);
      i := StartsAt(op, pages, root, g, kind, pid, v, Leaves());
    }

    /** `search_eq` and `search_range`: all admitted rows in chain order. */
    method Search(op: Op, v: Key) returns (out: seq<Row>)
      requires Valid()
      ensures out == Admitted(op, Contents(), v) && Answers(op, Contents(), v, out)
    {
      hide *;
      ContentsIs(this);
      RowsInOrder(this);
      SortedAnswers(op, Contents(), v);
      var pid; ghost var i;
      pid, i := FindLeaf(op, v);
      ghost var leaves := Leaves();
      out := [];
      while true
        invariant i < |leaves| && pid == leaves[i] && out == Admitted(op, Flat(pages, leaves[..i]), v)
        decreases |leaves| - i
      {
        ScanOne(op, pages, root, g, kind, leaves, i, v);
        var hits, past := ScanLeaf(op, pages[pid], v);
        out := out + hits;
        if past { ScanPast(op, pages, root, g, kind, leaves, i, v); }
        if i + 1 == |leaves| { WholeChain(leaves, i); }
        ChainPage(pages, root, g, kind, leaves, i);
        if past || pages[pid].next == NO_PAGE { break; }
        pid := pages[pid].next;
        i := i + 1;
      }
    }

    /** `search_range_limit`: the first `limit` admitted rows. */
    method SearchLimit(op: Op, v: Key, limit: nat) returns (out: seq<Row>)
      requires Valid()
      ensures var all := Admitted(op, Contents(), v);
              out == (if |all| <= limit then all else all[..limit])
    {
      hide *;
      out := [];
      if limit == 0 { return; }
      ContentsIs(this);
      var pid; ghost var i;
      pid, i := FindLeaf(op, v);
      ghost var leaves := Leaves();
      while true
        invariant i < |leaves| && pid == leaves[i] && out == Admitted(op, Flat(pages, leaves[..i]), v) && |out| < limit
        decreases |leaves| - i
      {
        ScanOne(op, pages, root, g, kind, leaves, i, v);
        var done;
        out, done := ScanLeafLimit(op, pages[pid], v, out, limit);
        AdmittedUpTo(op, pages, leaves, i + 1, v);
        if PastIn(op, pages[pid], v) { ScanPast(op, pages, root, g, kind, leaves, i, v); }
        if i + 1 == |leaves| { WholeChain(leaves, i); }
        ChainPage(pages, root, g, kind, leaves, i);
        if done || pages[pid].next == NO_PAGE { break; }
        pid := pages[pid].next;
        i := i + 1;
      }
    }

    /** `search_range_partition`: the row ids of a range scan in `n` contiguous slices. */
    method SearchPartition(op: Op, v: Key, n: nat) returns (parts: seq<seq<RowId>>)
      requires Valid()
      ensures n <= 1 ==> parts == [RidsOf(Admitted(op, Contents(), v))]
      ensures n >= 2 ==> Fair(parts, n, RidsOf(Admitted(op, Contents(), v)))
    {
      hide *;
      if n <= 1 {
        var all := Search(op, v);
        return [RidsOf(all)];
      }
      ContentsIs(this);
      var pid; ghost var i;
      pid, i := FindLeaf(op, v);
      ghost var leaves := Leaves();
      var slices: seq<seq<RowId>> := [];
      var total := 0;
      NoRids();
      while true
        invariant i < |leaves| && pid == leaves[i] && total == |Concat(slices)|
        invariant Concat(slices) == RidsOf(Admitted(op, Flat(pages, leaves[..i]), v))
        decreases |leaves| - i
      {
        ScanOne(op, pages, root, g, kind, leaves, i, v);
        var hits, past := ScanLeaf(op, pages[pid], v);
        RidsConcat(Admitted(op, Flat(pages, leaves[..i]), v), hits);
        ConcatAppend(slices, RidsOf(hits));
        total := total + |hits|;
        if hits != [] { slices := slices + [RidsOf(hits)]; }
        if past { ScanPast(op, pages, root, g, kind, leaves, i, v); }
        if i + 1 == |leaves| { WholeChain(leaves, i); }
        ChainPage(pages, root, g, kind, leaves, i);
        if past || pages[pid].next == NO_PAGE { break; }
        pid := pages[pid].next;
        i := i + 1;
      }
      assert Concat(slices) == RidsOf(Admitted(op, Flat(pages, leaves), v));
      parts := Distribute(slices, total, n);
    }

    // ── inserting ────────────────────────────────────────────────────────────

    /** Descend to the leaf a key belongs to; with `early`, forget all frames above a safe node. */
    method DescendTo(job: Job, early: bool) returns (frames: seq<Frame>, meta: bool)
      requires Valid() && KindOf(job.key) == kind
      ensures frames != [] && Path(pages, g, frames) && Bottom(cap, root, job, meta, frames) && (!early ==> meta)
      ensures Top(frames).node.Leaf? && InRange(g, Top(frames).pid, job.key)
      ensures Top(frames).pid == LandingInsert(pages, root, Depth(), job.key)
      ensures frames == Descent(pages, root, Depth(), job, early, cap)
    {
      hide *;
      OpenTree(this);
      RootInRange(pages, root, g, kind, job.key);
      PathRoot(pages, g, root);
      frames, meta := [Frame(root, pages[root], 0)], true;
      DescentStart(pages, root, Depth(), job, early, cap);
      BottomIntro(cap, root, job, meta, frames);
      TopIsLast(frames);
      while Top(frames).node.Internal?
        invariant frames != [] && Path(pages, g, frames) && Bottom(cap, root, job, meta, frames) && (!early ==> meta)
        invariant InRange(g, Top(frames).pid, job.key) && Top(frames).pid in g.spans
        invariant LandingInsert(pages, Top(frames).pid, g.spans[Top(frames).pid].level, job.key) ==
                    LandingInsert(pages, root, Depth(), job.key)
        invariant Down(pages, frames, g.spans[Top(frames).pid].level, job, early, cap) ==
                    Descent(pages, root, Depth(), job, early, cap)
        decreases g.spans[Top(frames).pid].level
      {
        var f := Top(frames);
        TopIsLast(frames);
        PathDown(pages, root, g, kind, job, frames);
        PathTop(pages, g, frames);
        LandingInsertStep(pages, f.pid, g.spans[f.pid].level, job.key);
        var idx := RouteInsert(f.node.keys, job.key);
        var child := f.node.children[idx];
        var node := pages[child];
        DownStep(pages, frames, g.spans[f.pid].level, job, early, cap, idx, child);
        BottomParts(cap, root, job, meta, frames);
        frames := frames[|frames| - 1 := f.(route := idx)];
        if early && InsertSafe(node, job.key, |job.payload|, cap) {
          frames, meta := [], false;
        }
        assert [] + [Frame(child, node, 0)] == [Frame(child, node, 0)];
        frames := frames + [Frame(child, node, 0)];
        BottomIntro(cap, root, job, meta, frames);
        TopIsLast(frames);
      }
      PathTop(pages, g, frames);
      LeafOrNode(Top(frames).node);
      DownEnd(pages, frames, g.spans[Top(frames).pid].level, job, early, cap);
      LandingInsertEnd(pages, Top(frames).pid, g.spans[Top(frames).pid].level, job.key);
    }

    /** Allocate a page id, unless they are used up. */
    method AllocPage() returns (page: Option<PageId>)
      requires Room(pages, next)
      modifies this`next
      ensures page.None? <==> old(next) >= NO_PAGE as int
      ensures Room(pages, next) && (page.None? ==> next == old(next))
      ensures page.Some? ==>
                page.value as int == old(next) && next == old(next) + 1 && page.value !in pages && page.value != NO_PAGE
    {
      if next >= NO_PAGE as int { return None; }
      page := Some(next as PageId);
      next := next + 1;
    }

    /** `split_internal`: the right half to a fresh page, then the left half in place. */
    method SplitInternal(full: Node, job: Job, meta: bool, frames: seq<Frame>, sep: Sep, ghost rows: seq<Row>)
      returns (end: Ending, up: Sep)
      requires TreeInv(pages, root, g, {sep.child}, kind) && Room(pages, next) && frames != [] && Spells(pages, g, rows)
      requires Climbing(Config(cap, kind), pages, root, g, job, meta, frames, sep) && Fitting(pages, g, cap)
      requires full == InternalInsert(Top(frames).node, Top(frames).route, sep.key, sep.child) && BodyLen(full) > cap
      modifies this`pages, this`next, this`g
      ensures Room(pages, next) && Spells(pages, g, rows) && Fitting(pages, g, cap)
      ensures (Plain(old(pages), old(g)) ==> Plain(pages, g)) && (Bare(old(pages), old(g)) ==> Bare(pages, g))
      ensures end.OutOfPages? <==> old(next) >= NO_PAGE as int
      ensures end.Panicked? <==>
                old(next) < NO_PAGE as int && (BodyLen(InternalRight(full)) > cap || BodyLen(InternalLeft(full)) > cap)
      ensures !end.Finished? ==> TreeInv(pages, root, g, {sep.child}, kind)
      ensures end.Finished? ==> TreeInv(pages, root, g, {up.child}, kind)
                                && Climbing(Config(cap, kind), pages, root, g, job, meta, frames[..|frames| - 1], up)
      ensures Climb(old(pages), frames, root, sep, old(next), cap) ==
                if end.Finished? then Climb(pages, frames[..|frames| - 1], root, up, next, cap)
                else Outcome(end, pages, root, next)
    {
      hide *;
      up := sep;
      ClimbSplits(pages, frames, root, sep, next, cap, full);
      var page := AllocPage();
      if page.None? { return OutOfPages, up; }
      if BodyLen(InternalRight(full)) > cap { return Panicked, up; }
      if BodyLen(InternalLeft(full)) > cap {
        OrphanWrite(pages, root, g, {sep.child}, kind, cap, next, page.value, InternalRight(full), rows);
        pages := pages[page.value := InternalRight(full)];
        return Panicked, up;
      }
      ghost var g' := InnerSplitWrite(Config(cap, kind), pages, root, g, job, meta, frames, sep, full, page.value,
                                      rows);
      pages := pages[page.value := InternalRight(full)];
      pages := pages[Top(frames).pid := InternalLeft(full)];
      g := g';
      RoomOf(old(pages), pages, next, page.value);
      return Finished, Sep(InternalSep(full), page.value);
    }

    /**
      Carry a separator up the retained frames: absorb it, or split and go on; when
      the frames run out the root has split and a new root is put above both halves.
     */
    method Propagate(job: Job, stack: seq<Frame>, meta: bool, first: Sep, ghost rows: seq<Row>)
      returns (end: Ending, ghost pend: set<PageId>)
      requires TreeInv(pages, root, g, {first.child}, kind) && Room(pages, next) && Spells(pages, g, rows)
      requires Fitting(pages, g, cap)
      requires Climbing(Config(cap, kind), pages, root, g, job, meta, stack, first)
      modifies this`pages, this`root, this`next, this`g
      ensures TreeInv(pages, root, g, pend, kind) && Room(pages, next) && Spells(pages, g, rows)
      ensures end.Finished? ==> pend == {}
      ensures Fitting(pages, g, cap) && (Narrow(kind, cap) ==> !end.Panicked?)
      ensures (Plain(old(pages), old(g)) ==> Plain(pages, g)) && (Bare(old(pages), old(g)) ==> Bare(pages, g))
      ensures Outcome(end, pages, root, next) == Climb(old(pages), stack, old(root), first, old(next), cap)
      ensures end.Panicked? <==> ClimbBursts(stack, old(root), first, old(next), cap)
    {
      hide *;
      ClimbPanicsIff(pages, stack, root, first, next, cap);
      var frames, sep := stack, first;
      while frames != []
        invariant Climb(pages, frames, root, sep, next, cap) ==
                    Climb(old(pages), stack, old(root), first, old(next), cap)
        invariant TreeInv(pages, root, g, {sep.child}, kind) && Room(pages, next) && Spells(pages, g, rows)
        invariant Fitting(pages, g, cap)
        invariant Climbing(Config(cap, kind), pages, root, g, job, meta, frames, sep)
        invariant (Plain(old(pages), old(g)) ==> Plain(pages, g)) && (Bare(old(pages), old(g)) ==> Bare(pages, g))
        decreases |frames|
      {
        var f := Top(frames);
        var full := InternalInsert(f.node, f.route, sep.key, sep.child);
        if BodyLen(full) <= cap {
          ClimbAbsorbs(pages, frames, root, sep, next, cap, full);
          AbsorbWrite(Config(cap, kind), pages, root, g, job, meta, frames, sep, rows);
          RoomIn(pages, next, f.pid, full);
          pages := pages[f.pid := full];
          return Finished, {};
        }
        if Narrow(kind, cap) { NarrowClimb(Config(cap, kind), pages, root, g, job, meta, frames, sep, full); }
        var up;
        end, up := SplitInternal(full, job, meta, frames, sep, rows);
        if !end.Finished? { return end, {sep.child}; }
        frames, sep := frames[..|frames| - 1], up;
      }
      ClimbTops(pages, root, sep, next, cap);
      var top := AllocPage();
      if top.None? { return OutOfPages, {sep.child}; }
      ClimbedOut(Config(cap, kind), pages, root, g, job, meta, sep);
      RootWaitingFacts(Config(cap, kind), root, g, sep);
      if Narrow(kind, cap) { NarrowTop(kind, cap, root, sep); }
      if BodyLen(Internal([sep.key], [root, sep.child])) > cap { return Panicked, {sep.child}; }
      ghost var g' := RootWrite(Config(cap, kind), pages, root, g, sep, top.value, rows);
      RoomTop(pages, next, top.value, Internal([sep.key], [root, sep.child]));
      pages := pages[top.value := Internal([sep.key], [root, sep.child])];
      root := top.value;
      g := g';
      return Finished, {};
    }

    /** `split_leaf`: the right half to a fresh page, then the left half in place. */
    method SplitLeaf(full: Node, job: Job, meta: bool, frames: seq<Frame>, ghost rows: seq<Row>)
      returns (end: Ending, up: Sep, ghost k: nat)
      requires TreeInv(pages, root, g, {}, kind) && Room(pages, next) && Spells(pages, g, rows)
      requires Fitting(pages, g, cap)
      requires frames != [] && Path(pages, g, frames) && Top(frames).node.Leaf?
      requires Bottom(cap, root, job, meta, frames) && (|frames| == 1 ==> meta)
      requires LeafOk(full, Top(frames).pid, g) && NodeKind(full, kind) && full.Leaf? && full.entries != []
      requires RowSet(Top(frames).node) <= RowSet(full)
      modifies this`pages, this`next, this`g
      ensures Room(pages, next) && Fitting(pages, g, cap)
      ensures end.OutOfPages? <==> old(next) >= NO_PAGE as int
      ensures end.Panicked? <==> old(next) < NO_PAGE as int && TooWide(full, cap)
      ensures Plain(old(pages), old(g)) && PlainToSplit(full, Top(frames).pid, old(g)) ==> Plain(pages, g)
      ensures Bare(old(pages), old(g)) && full.payloads == [] ==> Bare(pages, g)
      ensures !end.Finished? ==> TreeInv(pages, root, g, {}, kind) && Spells(pages, g, rows)
      ensures end.Finished? ==>
                && TreeInv(pages, root, g, {up.child}, kind)
                && Climbing(Config(cap, kind), pages, root, g, job, meta, frames[..|frames| - 1], up)
                && LeafStretch(rows, k, Top(frames).node)
                && Spells(pages, g, Splice(rows, k, LeafRows(full), k + |LeafRows(Top(frames).node)|))
      ensures BodyLen(full) > cap ==>
                PutLeaf(old(pages), frames, full, root, old(next), cap) ==
                if end.Finished? then Climb(pages, frames[..|frames| - 1], root, up, next, cap)
                else Outcome(end, pages, root, next)
    {
      hide *;
      k, up := 0, Sep(job.key, NO_PAGE);
      if BodyLen(full) > cap { PutSplits(pages, frames, full, root, next, cap); }
      var page := AllocPage();
      if page.None? { return OutOfPages, up, k; }
      TooWideIs(full, cap, page.value);
      if BodyLen(LeafRight(full)) > cap { return Panicked, up, k; }
      if BodyLen(LeafLeft(full, page.value)) > cap {
        OrphanWrite(pages, root, g, {}, kind, cap, next, page.value, LeafRight(full), rows);
        pages := pages[page.value := LeafRight(full)];
        return Panicked, up, k;
      }
      ghost var g';
      g', k := LeafSplitWrite(Config(cap, kind), pages, root, g, job, meta, frames, full, page.value, rows);
      StretchIs(pages, g, Top(frames).pid, rows, k);
      pages := pages[page.value := LeafRight(full)];
      pages := pages[Top(frames).pid := LeafLeft(full, page.value)];
      g := g';
      RoomOf(old(pages), pages, next, page.value);
      return Finished, Sep(LeafSep(full), page.value), k;
    }

    /** Write the row into the leaf at the end of the path, at a place where the search ended. */
    method PutRow(job: Job, meta: bool, frames: seq<Frame>, pos: nat) returns (end: Ending)
      requires Valid() && KindOf(job.key) == kind && job.task.PutOne?
      requires frames != [] && Path(pages, g, frames) && Bottom(cap, root, job, meta, frames)
      requires Top(frames).node.Leaf? && InRange(g, Top(frames).pid, job.key)
      requires IsInsertPos(Top(frames).node.entries, Entry(job.key, job.rid), pos)
      modifies this`pages, this`root, this`next, this`g
      ensures end.Finished? ==> Valid() && Inserted(old(Contents()), Contents(), Row(job.key, job.rid, job.payload))
      ensures !end.Finished? ==>
                Halted(pages, root, g, kind, old(Contents()), Row(job.key, job.rid, job.payload))
      ensures Outcome(end, pages, root, next) ==
                PutLeaf(old(pages), frames, LeafInsert(Top(frames).node, pos, Entry(job.key, job.rid), job.payload),
                        old(root), old(next), cap)
      ensures Narrow(kind, cap) && Bare(old(pages), old(g)) && job.payload == [] ==> !end.Panicked?
      ensures job.payload == [] ==>
                (Plain(old(pages), old(g)) ==> Plain(pages, g)) && (Bare(old(pages), old(g)) ==> Bare(pages, g))
    {
      hide *;
      var e := Entry(job.key, job.rid);
      ghost var row := Row(job.key, job.rid, job.payload);
      ghost var rows := Contents();
      ghost var c := Config(cap, kind);
      OpenTree(this);
      EntryIs(job);
      var f := Top(frames);
      LeafTop(pages, root, g, kind, frames);
      var full := LeafInsert(f.node, pos, e, job.payload);
      if BodyLen(full) <= cap {
        PutFits(pages, frames, full, root, next, cap);
        ghost var k := LeafFitWrite(c, pages, root, g, job, frames, pos, full, rows);
        InsertedIntro(rows, k, row);
        RoomIn(pages, next, f.pid, full);
        pages := pages[f.pid := full];
        CloseTree(this, Splice(rows, k, [row], k));
        return Finished;
      }
      LeafRooted(c, root, g, job, meta, frames, pos, full);
      ghost var at := LeafInsertSpelled(g, f, pos, job, full, kind);
      if Plain(pages, g) && job.payload == [] {
        PlainAt(pages, g, f.pid);
        PlainGrow(f.node, f.pid, g, pos, e);
      }
      if Bare(pages, g) && job.payload == [] {
        BareAt(pages, g, f.pid);
        BareStays(f.node, pos, e);
        FitAt(pages, g, cap, f.pid);
        PosInside(f.node.entries, e, pos);
        if Narrow(kind, cap) { NarrowLeafHalves(f.node, pos, e, kind, cap); }
      }
      RowSetOf(f.node, full, row);
      var up; ghost var k;
      end, up, k := SplitLeaf(full, job, meta, frames, rows);
      if !end.Finished? {
        HaltedSame(pages, root, g, kind, rows, row);
        return;
      }
      StretchParts(rows, k, f.node);
      SpliceInner(rows, k, LeafRows(f.node), at, row);
      ghost var rows' := Splice(rows, k + at, [row], k + at);
      InsertedIntro(rows, k + at, row);
      ghost var pend;
      end, pend := Propagate(job, frames[..|frames| - 1], meta, up, rows');
      if end.Finished? { CloseTree(this, rows'); } else { HaltedNew(pages, root, g, kind, pend, rows, rows', row); }
    }

    /**
      `insert_with_include`: add one row, or nothing if the search hits the exact pair in
      the leaf. `full` is that leaf with the row in it.
     */
    method Insert(key: Key, rid: RowId, payload: seq<byte>) returns (end: Ending, ghost full: Node)
      requires Valid() && KindOf(key) == kind
      modifies this`pages, this`root, this`next, this`g
      ensures end.Finished? ==> Valid()
      ensures end.Finished? ==>
                if HitAt(old(pages), old(LandingInsert(pages, root, Depth(), key)), Entry(key, rid)) then
                                  Contents() == old(Contents())
                                else Inserted(old(Contents()), Contents(), Row(key, rid, payload))
      ensures HitAt(old(pages), old(LandingInsert(pages, root, Depth(), key)), Entry(key, rid)) ==>
                && end.Finished? && HasPair(old(Contents()), key, rid)
                && pages == old(pages) && root == old(root) && next == old(next) && g == old(g)
      ensures !end.Finished? ==> Halted(pages, root, g, kind, old(Contents()), Row(key, rid, payload))
      ensures !HitAt(old(pages), old(LandingInsert(pages, root, Depth(), key)), Entry(key, rid)) ==>
                && LeafPlus(old(pages), old(LandingInsert(pages, root, Depth(), key)), Entry(key, rid), payload, full)
                && Outcome(end, pages, root, next) ==
                   PutLeaf(old(pages), old(Descent(pages, root, Depth(), Job(key, rid, payload, PutOne), true, cap)),
                           full, old(root), old(next), cap)
      ensures end.Panicked? <==>
                && !HitAt(old(pages), old(LandingInsert(pages, root, Depth(), key)), Entry(key, rid))
                && PutBursts(old(Descent(pages, root, Depth(), Job(key, rid, payload, PutOne), true, cap)), full,
                             old(root), old(next), cap)
      ensures end.Panicked? && payload == [] ==>
                Burst(kind, cap, next, PairSet(old(Contents())), PairSet(old(Contents())), multiset{Entry(key, rid)})
      ensures old(next) <= next && (end.OutOfPages? ==> next >= NO_PAGE as int)
      ensures forall lim ::
                Slender(old(pages), lim) && RowSlim(Row(key, rid, payload), lim) && Roomy(cap, lim, lim.row) ==>
                  !end.Panicked? && Slender(pages, lim)
      ensures Narrow(kind, cap) && Bare(old(pages), old(g)) && payload == [] ==> !end.Panicked?
      ensures payload == [] ==>
                (Plain(old(pages), old(g)) ==> Plain(pages, g)) && (Bare(old(pages), old(g)) ==> Bare(pages, g))
      ensures Neat(old(pages)) ==> Neat(pages)
    {
      hide *;
      var job := Job(key, rid, payload, PutOne);
      OpenTree(this);
      var frames, meta := DescendTo(job, true);
      var f := Top(frames);
      LeafTop(pages, root, g, kind, frames);
      var found, pos := BinarySearch(f.node.entries, Entry(key, rid));
      HitAtIs(pages, f.pid, f.node, Entry(key, rid));
      full := f.node;
      if found {
        PairStored(pages, root, g, kind, f, Contents(), pos);
        return Finished, full;
      }
      full := LeafInsert(f.node, pos, Entry(key, rid), payload);
      LeafPlusIntro(pages, f.pid, f.node, Entry(key, rid), payload, pos);
      PutPanicsIff(pages, frames, full, root, next, cap);
      PutRunsOut(pages, frames, full, root, next, cap);
      if Neat(pages) { InsertNeat(pages, g, frames, f.node, pos, Entry(key, rid), payload, root, next, cap); }
      forall lim | Slender(pages, lim) && RowSlim(Row(key, rid, payload), lim) && Roomy(cap, lim, lim.row)
        ensures !PutLeaf(pages, frames, full, root, next, cap).end.Panicked?
        ensures Slender(PutLeaf(pages, frames, full, root, next, cap).pages, lim)
      {
        InsertSlim(pages, root, g, kind, cap, next, frames, pos, Row(key, rid, payload), lim);
      }
      ghost var attempt := Attempt(pages, root, g, next, Contents(), job, true, full);
      if payload == [] { InsertEnlarges(this, frames, f, attempt, pos, Entry(key, rid)); }
      end := PutRow(job, meta, frames, pos);
      if end.Panicked? && payload == [] { BurstIntro(attempt, kind, cap, next, multiset{Entry(key, rid)}); }
    }

    // ── rewriting one leaf ───────────────────────────────────────────────────

    /**
      `remove`: walk right from the landing leaf until the pair is found, or a leaf is
      empty or ends with a greater key. `start` is where the walk begins.
     */
    method Remove(v: Key, rid: RowId) returns (removed: bool, ghost start: nat)
      requires Valid()
      modifies this`pages
      ensures Valid() && start < |old(Leaves())| && old(Leaves())[start] == old(Landing(Eq, pages, root, Depth(), v))
      ensures old(Admitted(Eq, Flat(pages, Leaves()[..start]), v)) == []
      ensures removed <==> Reached(old(pages), old(Leaves()), start, Entry(v, rid))
      ensures !removed ==> pages == old(pages)
      ensures removed ==>
                exists k: nat :: FirstPairAt(old(Contents()), k, Entry(v, rid))
                                 && Contents() == Splice(old(Contents()), k, [], k + 1)
    {
      hide *;
      OpenTree(this);
      var e := Entry(v, rid);
      var pid;
      pid, start := FindLeaf(Eq, v);
      ghost var leaves, i := Leaves(), start;
      ContentsIs(this);
      forall x: nat | x < start ensures !HasAt(pages, leaves, x, e) { NotLeft(pages, leaves, start, x, e); }
      while true
        invariant pages == old(pages) && start <= i < |leaves| && pid == leaves[i]
        invariant forall x: nat :: start <= x < i ==> !HasAt(pages, leaves, x, e) && NonEmptyAt(pages, leaves, x)
        decreases |leaves| - i
      {
        ScanOne(Eq, pages, root, g, kind, leaves, i, v);
        ChainPage(pages, root, g, kind, leaves, i);
        LeafInTiling(g, leaves, i);
        HasAtIs(pages, leaves, i, e);
        var n := pages[pid];
        var past := n.entries == [] || Less(v, n.entries[|n.entries| - 1].key);
        var at := FindPair(n.entries, e);
        if at < |n.entries| {
          ReachedIntro(pages, leaves, start, i, e);
          ghost var k := DropWrite(pages, root, g, kind, pid, at, Contents());
          FirstOfPair(pages, g, leaves, i, n, at, k, e);
          RoomIn(pages, next, pid, DropAt(n, at));
          DropFits(pages, root, g, kind, cap, pid, at);
          ghost var rows := Contents();
          pages := pages[pid := DropAt(n, at)];
          CloseTree(this, Splice(rows, k, [], k + 1));
          return true, start;
        }
        if past || n.next == NO_PAGE {
          PastWitness(n, v);
          NotReached(pages, root, g, kind, leaves, start, i, e);
          return false, start;
        }
        NonEmptyIs(pages, leaves, i);
        pid := n.next;
        i := i + 1;
      }
    }

    /** `set_value`: give the first entry for `v` in the landing leaf another row id. */
    method SetValue(v: Key, rid: RowId) returns (found: bool)
      requires Valid()
      modifies this`pages
      ensures Valid()
      ensures found <==> HasKeyAt(old(pages), old(Landing(Eq, pages, root, Depth(), v)), v)
      ensures !found ==> pages == old(pages)
      ensures found ==> exists k: nat :: FirstKeyAt(old(Contents()), k, v)
                                         && Contents() == old(Contents())[k := old(Contents())[k].(rid := rid)]
    {
      hide *;
      OpenTree(this);
      var pid; ghost var i;
      pid, i := FindLeaf(Eq, v);
      LeafPageOf(pages, root, g, kind, pid);
      var n := pages[pid];
      var slot := FindKey(n, v);
      HasKeyAtIs(pages, pid, v);
      if slot == |n.entries| { return false; }
      ghost var rows := Contents();
      ghost var k := SetWrite(pages, root, g, kind, pid, slot, rid, rows);
      ContentsIs(this);
      FirstOfKey(pages, g, Leaves(), i, n, slot, k, v);
      RoomIn(pages, next, pid, SetRid(n, slot, rid));
      SetFits(pages, g, cap, pid, slot, rid);
      pages := pages[pid := SetRid(n, slot, rid)];
      CloseTree(this, rows[k := rows[k].(rid := rid)]);
      return true;
    }

    /**
      `update_rowid_inplace`: walk right until the pair is found and patch its row id;
      if it is nowhere, insert the new pair instead.
     */
    method UpdateRowId(key: Key, was: RowId, rid: RowId) returns (end: Ending, ghost patched: bool)
      requires Valid() && KindOf(key) == kind
      modifies this`pages, this`root, this`next, this`g
      ensures patched <==> HasPair(old(Contents()), key, was)
      ensures patched ==> end.Finished? && Valid()
                          && exists k: nat :: FirstPairAt(old(Contents()), k, Entry(key, was))
                                              && Contents() == old(Contents())[k := old(Contents())[k].(rid := rid)]
      ensures !patched && end.Finished? ==> Valid()
      ensures !patched && end.Finished? ==>
                if HitAt(old(pages), old(LandingInsert(pages, root, Depth(), key)), Entry(key, rid)) then
                  Contents() == old(Contents())
                else Inserted(old(Contents()), Contents(), Row(key, rid, []))
      ensures !end.Finished? ==> Halted(pages, root, g, kind, old(Contents()), Row(key, rid, []))
      ensures Narrow(kind, cap) && Bare(old(pages), old(g)) ==> !end.Panicked?
      ensures forall lim :: Slender(old(pages), lim) && RowSlim(Row(key, rid, []), lim) && Roomy(cap, lim, lim.row) ==>
                              !end.Panicked?
      ensures end.Panicked? ==>
                Burst(kind, cap, next, PairSet(old(Contents())), PairSet(old(Contents())), multiset{Entry(key, rid)})
      ensures old(next) <= next && (end.OutOfPages? ==> next >= NO_PAGE as int)
    {
      hide *;
      OpenTree(this);
      ContentsIs(this);
      var e := Entry(key, was);
      var pid; ghost var start;
      pid, start := FindLeaf(Eq, key);
      ghost var leaves, i := Leaves(), start;
      StoredSomewhere(pages, leaves, e);
      ghost var rows := Contents();
      forall x: nat | x < start ensures !HasAt(pages, leaves, x, e) {
        NotLeft(pages, leaves, start, x, e);
      }
      while true
        invariant pages == old(pages) && root == old(root) && next == old(next) && g == old(g)
        invariant Valid() && Contents() == rows && i < |leaves| && pid == leaves[i]
        invariant forall x: nat :: x < i ==> !HasAt(pages, leaves, x, e)
        decreases |leaves| - i
      {
        OpenTree(this);
        ScanOne(Eq, pages, root, g, kind, leaves, i, key);
        ChainPage(pages, root, g, kind, leaves, i);
        LeafInTiling(g, leaves, i);
        HasAtIs(pages, leaves, i, e);
        LeafLink(pages, root, g, {}, kind, pid);
        var n := pages[pid];
        var at, past := ScanPair(n.entries, e);
        if !past && at < |n.entries| {
          ghost var k := SetWrite(pages, root, g, kind, pid, at, rid, rows);
          FirstOfPair(pages, g, leaves, i, n, at, k, e);
          RoomIn(pages, next, pid, SetRid(n, at, rid));
          SetFits(pages, g, cap, pid, at, rid);
          pages := pages[pid := SetRid(n, at, rid)];
          CloseTree(this, rows[k := rows[k].(rid := rid)]);
          return Finished, true;
        }
        if past || n.next == NO_PAGE {
          forall x: nat ensures !HasAt(pages, leaves, x, e) {
            HasAtInside(pages, leaves, x, e);
            if i < x < |leaves| { NotRight(pages, root, g, kind, leaves, i, x, e); }
          }
          break;
        }
        pid := n.next;
        i := i + 1;
      }
      ghost var full;
      end, full := Insert(key, rid, []);
      patched := false;
    }

    // ── batches ──────────────────────────────────────────────────────────────

    /** Insert payload-free pairs one by one. */
    method InsertEach(es: seq<Entry>) returns (end: Ending)
      requires Valid() && (forall e :: e in es ==> KindOf(e.key) == kind)
      modifies this`pages, this`root, this`next, this`g
      ensures end.Finished? ==> Valid() && Added(old(Contents()), Contents(), es)
      ensures Stopped(end, pages, root, g, next, kind, cap, old(Contents()), es)
      ensures (Plain(old(pages), old(g)) ==> Plain(pages, g)) && (Bare(old(pages), old(g)) ==> Bare(pages, g))
      ensures Narrow(kind, cap) && Bare(old(pages), old(g)) ==> !end.Panicked?
      ensures forall lim :: Slim(old(pages), cap, es, lim) ==> !end.Panicked? && Slender(pages, lim)
      ensures old(next) <= next && (Neat(old(pages)) ==> Neat(pages))
      ensures es == [] ==>
                end.Finished? && pages == old(pages) && root == old(root) && next == old(next) && g == old(g)
    {
      hide *;
      var k := 0;
      AddedNone(Contents(), es);
      forall lim | Slim(pages, cap, es, lim) ensures Slender(pages, lim) { SlimParts(pages, cap, es, lim); }
      while k < |es|
        invariant forall lim :: Slim(old(pages), cap, es, lim) ==> Slender(pages, lim)
        invariant k <= |es| && Valid() && Added(old(Contents()), Contents(), es[..k])
        invariant (Plain(old(pages), old(g)) ==> Plain(pages, g)) && (Bare(old(pages), old(g)) ==> Bare(pages, g))
        invariant old(next) <= next && (Neat(old(pages)) ==> Neat(pages))
        invariant k == 0 ==> pages == old(pages) && root == old(root) && next == old(next) && g == old(g)
      {
        ghost var rows := Contents();
        ghost var full;
        forall lim | Slim(old(pages), cap, es, lim)
          ensures Slender(pages, lim) && RowSlim(Row(es[k].key, es[k].rid, []), lim) && Roomy(cap, lim, lim.row)
        {
          SlimParts(old(pages), cap, es, lim);
          PairSlimRow(es[k], lim);
        }
        assert es[k] in es;
        end, full := Insert(es[k].key, es[k].rid, []);
        if !end.Finished? {
          OneStopped(end, pages, root, g, next, kind, cap, rows, es[k]);
          StoppedLater(end, pages, root, g, next, kind, cap, old(Contents()), rows, es, k, k + 1);
          return;
        }
        OneAdded(rows, Contents(), es[k]);
        AddedJoin(old(Contents()), rows, Contents(), es, k, k + 1);
        k := k + 1;
      }
      assert es[..k] == es;
      FinishedStops(pages, root, g, next, kind, cap, old(Contents()), es);
      return Finished;
    }

    /**
      `patch_many`: patch in place, leaf by leaf, and insert what is not found. If every old
      pair is where a read of its key lands, all patches are made in place; and for patches
      none of which undoes another, pairs are exchanged one for one only then.
     */
    method PatchMany(patches: seq<Patch>) returns (end: Ending)
      requires Valid() && (forall x :: x in patches ==> KindOf(x.key) == kind)
      modifies this`pages, this`root, this`next, this`g
      ensures end.Finished? ==>
                Valid() && Effect(PairSet(old(Contents())), PairSet(Contents()), {}, patches, Separate(patches))
      ensures PatchStopped(end, pages, root, g, next, kind, cap, PairSet(old(Contents())), patches)
      ensures end.Finished? ==>
                exists found, missed :: Settles(old(Contents()), Contents(), found, missed, patches)
      ensures AllHeld(old(pages), old(root), old(Depth()), patches) ==>
                && end.Finished? && Exchanged(old(Contents()), Contents(), patches)
                && root == old(root) && next == old(next) && g == old(g)
      ensures end.Finished? && Strict(patches) && Exchanged(old(Contents()), Contents(), patches) ==>
                AllHeld(old(pages), old(root), old(Depth()), patches)
      ensures old(next) <= next
    {
      hide *;
      ghost var before, rows := PairSet(Contents()), Contents();
      var ps := SortBy(patches, PatchLess);
      SortedPatches(patches, ps);
      KindsPerm(patches, ps, kind);
      SetsPerm(patches, ps);
      BagsPerm(patches, ps);
      HeldPerm(pages, root, Depth(), patches, ps);
      EffectNone(before, Separate(ps));
      assert ps[..0] == [];
      SettlesNone(rows);
      ShiftedNone(pages, root, Depth());
      ghost var found, missed: seq<Patch> := [], [];
      var i := 0;
      while i < |ps|
        invariant i <= |ps| && Valid() && Effect(before, PairSet(Contents()), {}, ps[..i], Separate(ps))
        invariant Settles(rows, Contents(), found, missed, ps[..i]) && old(next) <= next
        invariant missed == [] ==>
                    && root == old(root) && next == old(next) && g == old(g) && Depth() == old(Depth())
                    && Shifted(old(pages), pages, root, Depth(), ps[..i])
        invariant AllHeld(old(pages), old(root), old(Depth()), ps) ==> missed == []
        decreases |ps| - i
      {
        ghost var mid, was := Contents(), pages;
        if AllHeld(old(pages), old(root), old(Depth()), ps) { HeldRest(old(pages), pages, root, Depth(), ps, i); }
        var j; ghost var f, m;
        end, j, f, m := PatchRound(ps, i);
        if !end.Finished? {
          PatchedBefore(end, pages, root, g, next, kind, cap, before, PairSet(mid), ps, i, j);
          PatchStoppedPerm(end, pages, root, g, next, kind, cap, before, ps, patches);
          return;
        }
        EffectJoin(before, PairSet(mid), PairSet(Contents()), ps, i, j);
        SettlesJoin(rows, mid, Contents(), ps, i, j, found, missed, f, m);
        if missed + m == [] { ShiftedJoin(old(pages), was, pages, root, Depth(), ps, i, j); }
        found, missed, i := found + f, missed + m, j;
      }
      assert ps[..i] == ps;
      EffectPerm(before, PairSet(Contents()), patches, ps);
      SettledIff(rows, Contents(), found, missed, ps);
      AllFound(rows, Contents(), found, missed, old(pages), pages, old(root), old(Depth()), ps, patches);
      PatchFinished(pages, root, g, next, kind, cap, before, patches);
      return Finished;
    }

    /** One round of `PatchMany`: the leaf of the `i`-th patch, and every patch made there. */
    method PatchRound(ps: seq<Patch>, i: nat) returns (end: Ending, j: nat, ghost f: seq<Patch>, ghost m: seq<Patch>)
      requires Valid() && i < |ps| && KeysRise(ps) && (forall x :: x in ps ==> KindOf(x.key) == kind)
      modifies this`pages, this`root, this`next, this`g
      ensures i < j <= |ps|
      ensures end.Finished? ==>
                && Valid() && Effect(PairSet(old(Contents())), PairSet(Contents()), {}, ps[i..j], Separate(ps))
                && Settles(old(Contents()), Contents(), f, m, ps[i..j])
      ensures PatchStopped(end, pages, root, g, next, kind, cap, PairSet(old(Contents())), ps[i..j])
      ensures m == [] ==>
                && end.Finished? && root == old(root) && next == old(next) && g == old(g) && Depth() == old(Depth())
                && Shifted(old(pages), pages, root, Depth(), ps[i..j])
      ensures AllHeld(old(pages), old(root), old(Depth()), ps[i..]) ==> m == []
      ensures old(next) <= next
    {
      hide *;
      OpenTree(this);
      ghost var mid, was := Contents(), pages;
      var pid; ghost var at;
      pid, at := FindLeaf(Eq, ps[i].key);
      LeafPageOf(pages, root, g, kind, pid);
      var n := pages[pid];
      var late;
      late, j := [Entry(ps[i].key, ps[i].now)], i + 1;
      EffectOne(PairSet(mid), ps, i);
      OneMissed(n.entries, ps, i);
      OneLands(pages, root, Depth(), ps, i);
      f, m := [], [ps[i]];
      ghost var n0 := n;
      if n.entries != [] {
        var n', modified;
        n', modified, late, j := PatchLeaf(ps, i, n);
        RunLands(pages, root, g, kind, Depth(), ps, i, j);
        f, m := PatchedAccount(n.entries, ps[i..j]);
        ghost var rows' := EditWrite(pages, root, g, kind, pid, n', mid);
        EffectWhole(PairSet(mid), PairSet(rows'), EntrySet(n), EntrySet(n'), AsSet(late), ps[i..j], Separate(ps));
        RoomIn(pages, next, pid, n');
        EditFits(pages, g, cap, pid, n');
        SameWrite(pages, pid, n');
        if modified { pages := pages[pid := n']; }
        n0 := n';
        CloseTree(this, rows');
      }
      ghost var level := Depth();
      DepthIs(this, root, g);
      if AllHeld(was, root, level, ps[i..]) { EnoughLeft(was, root, level, pid, ps, i, j); }
      if m == [] { RunShifts(was, root, level, pid, n0, late, ps[i..j], f, m); }
      ghost var cur := Contents();
      LateKinds(ps, i, j, late, PairSet(mid), PairSet(cur), Separate(ps), kind);
      end := InsertEach(late);
      LateStopped(end, pages, root, g, next, kind, cap, PairSet(mid), cur, late, ps[i..j], Separate(ps), n.entries,
                  n0.entries, f, m);
      if end.Finished? {
        AddedParts(cur, Contents(), late);
        EffectDone(PairSet(mid), PairSet(cur), AsSet(late), ps[i..j], Separate(ps));
        SettlesRun(mid, cur, Contents(), n.entries, n0.entries, late, ps[i..j], f, m);
      }
    }

    /** Write the leaf at the end of the path with the first `n` entries of the batch merged in. */
    method PutRun(job: Job, meta: bool, frames: seq<Frame>, batch: seq<Entry>, n: nat, full: Node)
      returns (end: Ending)
      requires Valid() && Bare(pages, g) && 0 < n <= |batch| && KeysSorted(batch)
      requires forall e :: e in batch ==> KindOf(e.key) == kind
      requires frames != [] && Path(pages, g, frames) && Top(frames).node.Leaf? && Top(frames).node.entries != []
      requires Bottom(cap, root, job, meta, frames) && (|frames| == 1 ==> meta)
      requires forall k :: 0 <= k < n ==> Between(batch[k].key, Top(frames).node.entries[0].key,
                                                  Top(frames).node.entries[|Top(frames).node.entries| - 1].key)
      requires full == Leaf(Merged(Top(frames).node.entries, batch[..n]), [], Top(frames).node.next)
      modifies this`pages, this`root, this`next, this`g
      ensures end.Finished? ==> Valid() && Added(old(Contents()), Contents(), batch[..n])
      ensures !end.Finished? ==>
                Partial(pages, root, g, kind, PairSet(old(Contents())), PairSet(old(Contents())) + AsSet(batch[..n]))
      ensures Outcome(end, pages, root, next) == PutLeaf(old(pages), frames, full, old(root), old(next), cap)
      ensures (Plain(old(pages), old(g)) ==> Plain(pages, g)) && Bare(pages, g)
      ensures BodyLen(full) > cap && TooWide(full, cap) && old(next) < NO_PAGE as int ==> end.Panicked?
      ensures Narrow(kind, cap) && end.Panicked? ==> BodyLen(full) > cap && TooWide(full, cap)
    {
      hide *;
      OpenTree(this);
      ghost var rows := Contents();
      ghost var before, run := PairSet(rows), batch[..n];
      var f := Top(frames);
      LeafTop(pages, root, g, kind, frames);
      BareAt(pages, g, f.pid);
      FitAt(pages, g, cap, f.pid);
      PrefixOf(batch, n);
      MergedLeaf(f.node, f.pid, g, kind, run);
      MergedPlain(f.node, f.pid, g, run);
      MergedGrows(f.node.entries, run);
      if BodyLen(full) <= cap {
        ghost var rows' := ReplaceWrite(pages, root, g, kind, f.pid, full, rows);
        MergedPairs(before, PairSet(rows'), EntrySet(f.node), EntrySet(full), AsSet(run));
        GrownBy(rows, rows', f.node.entries, full.entries, multiset(run));
        PutFits(pages, frames, full, root, next, cap);
        RoomIn(pages, next, f.pid, full);
        FitWrite(pages, g, cap, f.pid, full);
        BareWrite(pages, g, f.pid, full);
        if Plain(pages, g) { PlainAt(pages, g, f.pid); PlainWrite(pages, g, f.pid, full); }
        pages := pages[f.pid := full];
        CloseTree(this, rows');
        AddedIntro(rows, rows', run);
        return Finished;
      }
      AtLeastTwo(f.node, run, cap);
      if Plain(pages, g) { PlainAt(pages, g, f.pid); PlainPair(full, f.pid, g); }
      var up; ghost var k;
      end, up, k := SplitLeaf(full, job, meta, frames, rows);
      if !end.Finished? { PartialSame(pages, root, g, kind, rows, before + AsSet(run)); return; }
      StretchParts(rows, k, f.node);
      LeafPairs(f.node);
      LeafPairs(full);
      PairSetSplice(rows, k, LeafRows(f.node), LeafRows(full));
      ghost var rows' := Splice(rows, k, LeafRows(full), k + |LeafRows(f.node)|);
      MergedPairs(before, PairSet(rows'), EntrySet(f.node), EntrySet(full), AsSet(run));
      GrownSplice(rows, k, f.node, full, multiset(run));
      ghost var pend;
      end, pend := Propagate(job, frames[..|frames| - 1], meta, up, rows');
      if end.Finished? {
        CloseTree(this, rows');
        AddedIntro(rows, rows', run);
      } else {
        PartialIntro(pages, root, g, kind, pend, rows', before, before + AsSet(run));
      }
    }

    /**
      `insert_batch_in_txn`: merge the leading entries of `batch` that lie between the
      first and last key of the leaf the first one is routed to. Returns how many
      entries are dealt with; none if the first one lies outside that leaf's keys.
     */
    method InsertBatch(batch: seq<Entry>) returns (end: Ending, n: nat)
      requires Valid() && Bare(pages, g) && batch != [] && KeysSorted(batch)
      requires forall e :: e in batch ==> KindOf(e.key) == kind
      modifies this`pages, this`root, this`next, this`g
      ensures end.Finished? ==> Valid() && n <= |batch| && Added(old(Contents()), Contents(), batch[..n])
      ensures end.Finished? ==>
                (n == 0 <==> Misses(old(pages), old(LandingInsert(pages, root, Depth(), batch[0].key)), batch[0].key))
      ensures end.Finished? && n == 0 ==> pages == old(pages) && root == old(root) && next == old(next) && g == old(g)
      ensures Stopped(end, pages, root, g, next, kind, cap, old(Contents()), batch)
      ensures (Plain(old(pages), old(g)) ==> Plain(pages, g)) && Bare(pages, g)
      ensures SplitTooWide(old(pages), old(LandingInsert(pages, root, Depth(), batch[0].key)), batch, cap)
              && old(next) < NO_PAGE as int ==>
                end.Panicked?
      ensures Narrow(kind, cap) && end.Panicked? ==>
                SplitTooWide(old(pages), old(LandingInsert(pages, root, Depth(), batch[0].key)), batch, cap)
      ensures forall lim :: Slim(old(pages), cap, batch, lim) ==> !end.Panicked? && Slender(pages, lim)
      ensures old(next) <= next && (Neat(old(pages)) && Ascending(batch) ==> Neat(pages))
    {
      hide *;
      OpenTree(this);
      ghost var rows := Contents();
      var job := Job(batch[0].key, batch[0].rid, [], PutOne);
      FirstOf(batch);
      FinishedStops(pages, root, g, next, kind, cap, rows, batch);
      AddedNone(rows, batch);
      var frames, meta := DescendTo(job, false);
      var f := Top(frames);
      LeafTop(pages, root, g, kind, frames);
      BareAt(pages, g, f.pid);
      FitAt(pages, g, cap, f.pid);
      MissesIs(pages, f.pid, batch[0].key);
      SplitTooWideIs(pages, f.pid, f.node, batch, cap);
      forall lim | Slim(pages, cap, batch, lim) ensures Slender(pages, lim) && Slim(pages, cap, [batch[0]], lim) {
        SlimParts(pages, cap, batch, lim);
        SlimFirst(pages, cap, batch, lim);
      }
      if f.node.entries == [] {
        end := InsertEach(batch[..1]);
        StoppedPart(end, pages, root, g, next, kind, cap, rows, batch, 0, 1);
        return end, 1;
      }
      var min, max := f.node.entries[0].key, f.node.entries[|f.node.entries| - 1].key;
      n := CountRun(batch, 0, min, max);
      assert batch[0..] == batch;
      PrefixOf(batch, n);
      if n == 0 { return Finished, 0; }
      LeafParts(g, f.pid, f.node, kind);
      SortedLeaf(f.node, f.pid, g);
      var combined := Merge(f.node.entries, batch[..n]);
      var full := Leaf(combined, [], f.node.next);
      if BodyLen(full) > 2 * cap {
        end := InsertEach(batch[..1]);
        StoppedPart(end, pages, root, g, next, kind, cap, rows, batch, 0, 1);
        return end, 1;
      }
      forall lim | Slim(pages, cap, batch, lim)
        ensures !PutLeaf(pages, frames, full, root, next, cap).end.Panicked?
        ensures Slender(PutLeaf(pages, frames, full, root, next, cap).pages, lim)
      {
        BatchSlim(pages, root, g, kind, cap, next, frames, batch, n, full, lim);
      }
      PutPanicsIff(pages, frames, full, root, next, cap);
      PutRunsOut(pages, frames, full, root, next, cap);
      if Neat(pages) && Ascending(batch) { BatchNeat(pages, g, frames, f.node, batch, n, root, next, cap); }
      ghost var attempt := Attempt(pages, root, g, next, rows, job, false, full);
      BatchEnlarges(this, frames, f, attempt, batch, n);
      BottomParts(cap, root, job, meta, frames);
      end := PutRun(job, meta, frames, batch, n, full);
      if end.Panicked? { BatchBursts(attempt, kind, cap, next, batch); }
      BatchStopped(end, pages, root, g, next, kind, cap, rows, batch, n);
      return end, n;
    }

    /**
      `insert_many_in_txn`: sort, then per round absorb into the leaf a read lands on
      every entry it owns and has room for, or hand the run to `InsertBatch`, or insert
      one entry. Each round deals with at least one entry.
     */
    method InsertMany(entries: seq<Entry>) returns (end: Ending)
      requires Valid() && Plain(pages, g) && (forall e :: e in entries ==> KindOf(e.key) == kind)
      modifies this`pages, this`root, this`next, this`g
      ensures end.Finished? ==> Valid() && Plain(pages, g) && Added(old(Contents()), Contents(), entries)
      ensures Stopped(end, pages, root, g, next, kind, cap, old(Contents()), entries)
      ensures Modest(kind, cap, |entries|) ==> !end.Panicked?
      ensures forall lim :: Slim(old(pages), cap, entries, lim) ==> !end.Panicked? && Slender(pages, lim)
      ensures old(next) <= next && (Neat(old(pages)) && Different(entries) ==> Neat(pages))
    {
      hide *;
      var es := SortBy(entries, EntryLess);
      SortedEntries(entries, es);
      if Different(entries) { DifferentAscends(entries, es); }
      AddedNone(Contents(), es);
      forall lim | Slim(pages, cap, entries, lim) ensures Slim(pages, cap, es, lim) && Slender(pages, lim) {
        SlimPerm(pages, cap, entries, es, lim);
        SlimParts(pages, cap, entries, lim);
      }
      var i := 0;
      while i < |es|
        invariant i <= |es| && Valid() && Plain(pages, g) && Added(old(Contents()), Contents(), es[..i])
        invariant forall lim :: Slim(old(pages), cap, entries, lim) ==> Slim(pages, cap, es, lim)
        invariant old(next) <= next && (Neat(old(pages)) && Different(entries) ==> Neat(pages))
        decreases |es| - i
      {
        ghost var was, rows := pages, Contents();
        var done;
        end, done := InsertRound(es, i);
        forall lim | Slim(old(pages), cap, entries, lim)
          ensures !end.Panicked? && Slender(pages, lim) && Slim(pages, cap, es, lim)
        {
          SlimAfter(was, pages, cap, es, lim);
        }
        if !end.Finished? {
          StoppedLater(end, pages, root, g, next, kind, cap, old(Contents()), rows, es, i, |es|);
          StoppedPerm(end, pages, root, g, next, kind, cap, old(Contents()), es, entries);
          return;
        }
        AddedJoin(old(Contents()), rows, Contents(), es, i, i + done);
        i := i + done;
      }
      assert es[..i] == es;
      forall lim | Slim(old(pages), cap, entries, lim) ensures Slender(pages, lim) { SlimParts(pages, cap, es, lim); }
      AddedPerm(old(Contents()), Contents(), es, entries);
      FinishedStops(pages, root, g, next, kind, cap, old(Contents()), entries);
      return Finished;
    }

    /** One round of `InsertMany` at index `i` of the sorted entries. */
    method InsertRound(es: seq<Entry>, i: nat) returns (end: Ending, done: nat)
      requires Valid() && Plain(pages, g) && i < |es| && KeysSorted(es)
      requires forall e :: e in es ==> KindOf(e.key) == kind
      modifies this`pages, this`root, this`next, this`g
      ensures end.Finished? ==> Valid() && Plain(pages, g) && 0 < done <= |es| - i
      ensures end.Finished? ==> Added(old(Contents()), Contents(), es[i..i + done])
      ensures Stopped(end, pages, root, g, next, kind, cap, old(Contents()), es[i..])
      ensures Modest(kind, cap, |es|) ==> !end.Panicked?
      ensures forall lim :: Slim(old(pages), cap, es, lim) ==> !end.Panicked? && Slender(pages, lim)
      ensures old(next) <= next && (Neat(old(pages)) && Ascending(es) ==> Neat(pages))
    {
      hide *;
      OpenTree(this);
      ModestIsNarrow(kind, cap, |es|);
      ghost var rows := Contents();
      FinishedStops(pages, root, g, next, kind, cap, rows, es[i..]);
      var pid; ghost var at;
      pid, at := FindLeaf(Eq, es[i].key);
      EqDescends();
      LeafPageOf(pages, root, g, kind, pid);
      PlainIsBare(pages, g);
      RunFacts(es, i, 1);
      var n := pages[pid];
      var count := 0;
      if n.entries != [] {
        count := CountRun(es, i, n.entries[0].key, n.entries[|n.entries| - 1].key);
        RunFacts(es, i, count);
      }
      if count >= 2 && BodyLen(n) + RunLen(es[i..i + count]) > cap {
        end, done := BatchOf(es, i, count, pid, n);
        return;
      }
      if count >= 1 {
        done := AbsorbInto(es, i, pid, n);
        if done > 0 {
          FinishedStops(pages, root, g, next, kind, cap, rows, es[i..]);
          return Finished, done;
        }
        if count >= 2 {
          end, done := BatchOf(es, i, count, pid, n);
          return;
        }
      }
      forall lim | Slim(pages, cap, es, lim) ensures Slim(pages, cap, es[i..i + 1], lim) {
        SlimPart(pages, cap, es, i, i + 1, lim);
      }
      end := InsertEach(es[i..i + 1]);
      StoppedPart(end, pages, root, g, next, kind, cap, rows, es, i, i + 1);
      return end, 1;
    }

    /** Rewrite a leaf with the entries from `i` on that lie between its keys, as far as they fit. */
    method AbsorbInto(es: seq<Entry>, i: nat, pid: PageId, n: Node) returns (done: nat)
      requires Valid() && Plain(pages, g) && i < |es| && n.Leaf? && n.entries != []
      requires forall e :: e in es ==> KindOf(e.key) == kind
      requires pid in g.spans && g.spans[pid].level == 0 && pid in pages && pages[pid] == n
      modifies this`pages
      ensures Valid() && Plain(pages, g) && i + done <= |es|
      ensures Added(old(Contents()), Contents(), es[i..i + done])
      ensures done == 0 ==> pages == old(pages)
      ensures forall lim :: Slim(old(pages), cap, es, lim) ==> Slender(pages, lim)
      ensures Neat(old(pages)) ==> Neat(pages)
    {
      hide *;
      OpenTree(this);
      ghost var rows := Contents();
      LeafPageOf(pages, root, g, kind, pid);
      PlainAt(pages, g, pid);
      PlainIsBare(pages, g);
      BareAt(pages, g, pid);
      FitAt(pages, g, cap, pid);
      var n', j := AbsorbRun(n, es, i, cap, pid, g, kind);
      done := j - i;
      forall lim | Slim(pages, cap, es, lim) ensures Slender(pages, lim) { SlimParts(pages, cap, es, lim); }
      if done == 0 {
        assert es[i..i] == es[..0];
        AddedNone(rows, es);
        return;
      }
      AbsorbedParts(n, n', pid, g, kind, es[i..j]);
      forall lim | Slim(pages, cap, es, lim) ensures Slender(pages[pid := n'], lim) {
        AbsorbSlim(pages, cap, pid, n, n', es, i, j, lim);
      }
      ghost var rows' := ReplaceWrite(pages, root, g, kind, pid, n', rows);
      MergedPairs(PairSet(rows), PairSet(rows'), EntrySet(n), EntrySet(n'), AsSet(es[i..j]));
      RoomIn(pages, next, pid, n');
      FitWrite(pages, g, cap, pid, n');
      PlainWrite(pages, g, pid, n');
      GrownBy(rows, rows', n.entries, n'.entries, multiset(es[i..j]));
      if Neat(pages) { NeatAbsorbed(pages, pid, n, n'); }
      pages := pages[pid := n'];
      CloseTree(this, rows');
      AddedIntro(rows, rows', es[i..j]);
    }

    /** Hand a run that the landing leaf owns to `InsertBatch`. */
    method BatchOf(es: seq<Entry>, i: nat, count: nat, pid: PageId, n: Node) returns (end: Ending, done: nat)
      requires Valid() && Plain(pages, g) && KeysSorted(es) && i + count <= |es| && count >= 2
      requires forall e :: e in es ==> KindOf(e.key) == kind
      requires pid in g.spans && g.spans[pid].level == 0 && pid in pages && pages[pid] == n && LeafOk(n, pid, g)
      requires n.entries != []
      requires StartsBelow(g, pid, es[i].key) && Between(es[i].key, n.entries[0].key, n.entries[|n.entries| - 1].key)
      modifies this`pages, this`root, this`next, this`g
      ensures end.Finished? ==> Valid() && Plain(pages, g) && 0 < done <= |es| - i
      ensures end.Finished? ==> Added(old(Contents()), Contents(), es[i..i + done])
      ensures Stopped(end, pages, root, g, next, kind, cap, old(Contents()), es[i..])
      ensures Modest(kind, cap, |es|) ==> !end.Panicked?
      ensures forall lim :: Slim(old(pages), cap, es, lim) ==> !end.Panicked? && Slender(pages, lim)
      ensures old(next) <= next && (Neat(old(pages)) && Ascending(es) ==> Neat(pages))
    {
      hide *;
      OpenTree(this);
      PlainIsBare(pages, g);
      RunFacts(es, i, count);
      forall lim | Slim(pages, cap, es, lim) ensures Slim(pages, cap, es[i..i + count], lim) {
        SlimPart(pages, cap, es, i, i + count, lim);
      }
      ModestIsNarrow(kind, cap, |es|);
      var run := es[i..i + count];
      ghost var target := LandingInsert(pages, root, Depth(), run[0].key);
      LandsInRange(this, run[0].key);
      NeverMisses(pages, root, g, kind, pid, n, target, run[0].key);
      if Modest(kind, cap, |es|) { ModestFits(pages, root, g, kind, cap, target, run, |es|); }
      RunAscends(es, i, count);
      ghost var rows := Contents();
      end, done := InsertBatch(run);
      StoppedPart(end, pages, root, g, next, kind, cap, rows, es, i, i + count);
      if end.Finished? { assert run[..done] == es[i..i + done]; }
    }
  }

  // ── small facts the methods open one at a time ─────────────────────────────

  ghost predicate Room(pages: Pages, next: nat) {
    forall p :: p in pages ==> p < next
  }

  lemma OpenTree(t: DiskBTree)
    requires t.Valid()
    ensures TreeInv(t.pages, t.root, t.g, {}, t.kind) && Room(t.pages, t.next) && Fitting(t.pages, t.g, t.cap)
    ensures t.root in t.g.spans && t.root in t.pages && Tiling(t.g, t.Leaves(), 0.0, 1.0)
    ensures t.Depth() == t.g.spans[t.root].level
    ensures WellFormed(t.pages, t.root, t.g.spans[t.root].level, t.Contents())
    ensures Spells(t.pages, t.g, t.Contents()) && (set r | r in t.Contents()) == Rows(t.pages, t.g)
  {
    hide TreeInv;
    hide WellFormed;
    hide Tiling;
    hide Flat;
    ShapeParts(t.pages, t.root, t.g, {}, t.kind);
    var depth, rows := ShapeMeansTree(t.pages, t.root, t.g, t.kind);
    WellFormedRows(t.pages, t.root, depth, rows);
  }

  lemma WellFormedRows(pages: Pages, root: PageId, depth: nat, rows: seq<Row>)
    requires WellFormed(pages, root, depth, rows)
    ensures rows == Flat(pages, LeavesUnder(pages, root, depth))
  {
    hide Bounded;
    hide Chained;
    hide Flat;
  }

  lemma RowsInOrder(t: DiskBTree)
    requires t.Valid()
    ensures RowsSorted(t.Contents())
  {
    OpenTree(t);
    hide *;
    WellFormedSorted(t.pages, t.root, t.g.spans[t.root].level, t.Contents());
  }

  lemma WellFormedSorted(pages: Pages, root: PageId, depth: nat, rows: seq<Row>)
    requires WellFormed(pages, root, depth, rows)
    ensures RowsSorted(rows)
  {
    hide Bounded;
    hide Chained;
    hide Flat;
    hide RowsSorted;
  }

  /** The searches of a tree for the same key divide its rows. */
  lemma SearchLaws(t: DiskBTree, v: Key)
    requires t.Valid()
    ensures var rows := t.Contents();
            && Admitted(Lt, rows, v) + Admitted(Eq, rows, v) + Admitted(Gt, rows, v) == rows
            && Admitted(Le, rows, v) == Admitted(Lt, rows, v) + Admitted(Eq, rows, v)
            && Admitted(Ge, rows, v) == Admitted(Eq, rows, v) + Admitted(Gt, rows, v)
            && Below(Admitted(Lt, rows, v), v) && Same(Admitted(Eq, rows, v), v) && Above(Admitted(Gt, rows, v), v)
  {
    hide *;
    RowsInOrder(t);
    SearchesDivide(t.Contents(), v);
  }

  lemma ContentsIs(t: DiskBTree)
    ensures t.Contents() == Flat(t.pages, t.Leaves())
  {
    hide Flat;
  }

  lemma RootClear(op: Op, pages: Pages, root: PageId, g: Shape, kind: Kind, v: Key)
    requires TreeInv(pages, root, g, {}, kind)
    ensures root in g.spans && LeftClear(op, pages, g, v, g.spans[root].a)
  {
    hide TreeInv;
    hide LeafRows;
    hide Admits;
    ShapeParts(pages, root, g, {}, kind);
    RootSpans(g, root);
    forall q | q in g.spans ensures 0.0 <= g.spans[q].a {
      EndsInside(g, q);
    }
  }

  lemma LeafOrInner(pages: Pages, root: PageId, g: Shape, kind: Kind, p: PageId)
    requires TreeInv(pages, root, g, {}, kind) && p in g.spans
    ensures p in pages && (pages[p].Internal? <==> g.spans[p].level > 0)
  {
    hide TreeInv;
    TreePage(pages, root, g, {}, kind, p);
  }

  lemma ChainPage(pages: Pages, root: PageId, g: Shape, kind: Kind, leaves: seq<PageId>, i: nat)
    requires TreeInv(pages, root, g, {}, kind) && Tiling(g, leaves, 0.0, 1.0) && i < |leaves|
    ensures i + 1 < |leaves| ==> leaves[i + 1] != NO_PAGE
  {
    hide TreeInv;
    if i + 1 < |leaves| {
      ShapeParts(pages, root, g, {}, kind);
      assert SpanOk(g, leaves[i + 1]);
    }
  }

  lemma AdmittedUpTo(op: Op, pages: Pages, leaves: seq<PageId>, i: nat, v: Key)
    requires i <= |leaves|
    ensures Admitted(op, Flat(pages, leaves[..i]), v) <= Admitted(op, Flat(pages, leaves), v)
  {
    hide Admits;
    assert leaves == leaves[..i] + leaves[i..];
    FlatConcat(pages, leaves[..i], leaves[i..]);
    AdmittedConcat(op, Flat(pages, leaves[..i]), Flat(pages, leaves[i..]), v);
  }

  lemma NoRids()
    ensures RidsOf([]) == [] && Concat([]) == []
  {
  }

  lemma RootInRange(pages: Pages, root: PageId, g: Shape, kind: Kind, v: Key)
    requires TreeInv(pages, root, g, {}, kind)
    ensures root in g.spans && InRange(g, root, v)
  {
    hide TreeInv;
    ShapeParts(pages, root, g, {}, kind);
    RootSpans(g, root);
  }

  lemma BottomIntro(cap: nat, root: PageId, job: Job, meta: bool, frames: seq<Frame>)
    requires frames != [] && (meta ==> frames[0].pid == root)
    requires !meta ==> InsertSafe(frames[0].node, job.key, |job.payload|, cap)
    ensures Bottom(cap, root, job, meta, frames)
  {
    hide InsertSafe;
  }

  lemma RoomOf(pages: Pages, pages': Pages, next: nat, p: PageId)
    requires Room(pages, next) && pages'.Keys == pages.Keys + {p} && p as int < next
    ensures Room(pages', next)
  {
    forall x | x in pages' ensures x < next {
      assert x in pages'.Keys;
    }
  }

  lemma RoomIn(pages: Pages, next: nat, p: PageId, n: Node)
    requires Room(pages, next) && p in pages
    ensures Room(pages[p := n], next)
  {
  }

  lemma RoomTop(pages: Pages, next: nat, p: PageId, n: Node)
    requires Room(pages, next) && p as int < next
    ensures Room(pages[p := n], next)
  {
  }

  lemma ClimbedOut(c: Config, pages: Pages, root: PageId, g: Shape, job: Job, meta: bool, sep: Sep)
    requires Climbing(c, pages, root, g, job, meta, [], sep)
    ensures RootWaiting(c, root, root, g, {sep.child}, sep)
  {
    hide RootWaiting;
  }

  /** Whether a bisection between `lo` and `hi` meets the very entry. */
  predicate Bisect(entries: seq<Entry>, e: Entry, lo: nat, hi: nat)
    requires lo <= hi <= |entries|
    decreases hi - lo
  {
    lo < hi && var mid := lo + (hi - lo) / 2;
               entries[mid] == e
               || if EntryLess(entries[mid], e) then Bisect(entries, e, mid + 1, hi) else Bisect(entries, e, lo, mid)
  }

  /** Bisection over entries compared by key, then row id; needs no order to end correctly. */
  method BinarySearch(entries: seq<Entry>, e: Entry) returns (found: bool, pos: nat)
    ensures found ==> pos < |entries| && entries[pos] == e
    ensures !found ==> IsInsertPos(entries, e, pos)
    ensures found <==> Bisect(entries, e, 0, |entries|)
  {
    var lo, hi := 0, |entries|;
    while lo < hi
      invariant lo <= hi <= |entries|
      invariant lo > 0 ==> EntryLess(entries[lo - 1], e)
      invariant hi < |entries| ==> EntryLess(e, entries[hi])
      invariant Bisect(entries, e, lo, hi) <==> Bisect(entries, e, 0, |entries|)
      decreases hi - lo
    {
      var mid := lo + (hi - lo) / 2;
      EntryTrichotomy(entries[mid], e);
      if entries[mid] == e { return true, mid; }
      if EntryLess(entries[mid], e) { lo := mid + 1; } else { hi := mid; }
    }
    return false, lo;
  }

  /** The search of leaf `p` meets the pair. */
  predicate HitAt(pages: Pages, p: PageId, e: Entry) {
    p in pages && pages[p].Leaf? && Bisect(pages[p].entries, e, 0, |pages[p].entries|)
  }

  lemma HitAtIs(pages: Pages, p: PageId, n: Node, e: Entry)
    requires p in pages && pages[p] == n && n.Leaf?
    ensures HitAt(pages, p, e) <==> Bisect(n.entries, e, 0, |n.entries|)
  {
    hide Bisect;
  }

  predicate Within(entries: seq<Entry>, e: Entry, lo: nat, hi: nat)
    requires lo <= hi <= |entries|
  {
    exists i :: lo <= i < hi && entries[i] == e
  }

  /** Where the entries ascend by key, then row id, the search meets the pair exactly if it is there. */
  lemma {:induction false} AscendingHit(entries: seq<Entry>, e: Entry, lo: nat, hi: nat)
    requires Ascending(entries) && lo <= hi <= |entries|
    ensures Bisect(entries, e, lo, hi) <==> Within(entries, e, lo, hi)
    decreases hi - lo
  {
    if lo < hi {
      var mid := lo + (hi - lo) / 2;
      AscendingHit(entries, e, lo, mid);
      AscendingHit(entries, e, mid + 1, hi);
      hide Ascending;
      hide Within;
      hide EntryLess;
      SideOf(entries, e, lo, mid, hi);
    }
  }

  /** An entry is at `mid` or on the side the comparison says. */
  lemma SideOf(entries: seq<Entry>, e: Entry, lo: nat, mid: nat, hi: nat)
    requires Ascending(entries) && lo <= mid < hi <= |entries|
    ensures Within(entries, e, lo, hi) <==>
              || entries[mid] == e
              || if EntryLess(entries[mid], e) then Within(entries, e, mid + 1, hi) else Within(entries, e, lo, mid)
  {
    hide EntryLess;
    EntryTrichotomy(e, entries[mid]);
  }

  /** `full` is leaf `p` with the row at a place where the search can end. */
  ghost predicate LeafPlus(pages: Pages, p: PageId, e: Entry, payload: seq<byte>, full: Node) {
    && p in pages && pages[p].Leaf?
    && exists pos: nat :: IsInsertPos(pages[p].entries, e, pos) && full == LeafInsert(pages[p], pos, e, payload)
  }

  lemma LeafPlusIntro(pages: Pages, p: PageId, n: Node, e: Entry, payload: seq<byte>, pos: nat)
    requires p in pages && pages[p] == n && n.Leaf? && IsInsertPos(n.entries, e, pos)
    ensures LeafPlus(pages, p, e, payload, LeafInsert(n, pos, e, payload))
  {
    hide EntryLess;
  }

  lemma PathSome(pages: Pages, g: Shape, frames: seq<Frame>)
    requires Path(pages, g, frames)
    ensures frames != []
  {
  }

  lemma PathInner(pages: Pages, g: Shape, frames: seq<Frame>)
    requires Path(pages, g, frames)
    ensures forall i :: 0 <= i < |frames| - 1 ==> frames[i].node.Internal?
  {
    hide *;
    forall i | 0 <= i < |frames| - 1 ensures frames[i].node.Internal? { PathLink(pages, g, frames, i); }
  }

  /** An insert at a place where the search ends leaves every leaf ascending. */
  lemma InsertNeat(pages: Pages, g: Shape, frames: seq<Frame>, n: Node, pos: nat, e: Entry, payload: seq<byte>,
                   root: PageId, next: nat, cap: nat)
    requires Path(pages, g, frames) && Neat(pages) && n == Top(frames).node && n.Leaf?
    requires IsInsertPos(n.entries, e, pos)
    ensures Neat(PutLeaf(pages, frames, LeafInsert(n, pos, e, payload), root, next, cap).pages)
  {
    hide *;
    PathSome(pages, g, frames);
    PathInner(pages, g, frames);
    PathTop(pages, g, frames);
    NeatAt(pages, Top(frames).pid);
    NeatInsert(n, pos, e, payload);
    PutNeat(pages, frames, LeafInsert(n, pos, e, payload), root, next, cap);
  }

  lemma NeatInsert(n: Node, pos: nat, e: Entry, payload: seq<byte>)
    requires NodeNeat(n) && n.Leaf? && IsInsertPos(n.entries, e, pos)
    ensures NodeNeat(LeafInsert(n, pos, e, payload))
  {
    InsertPosAscends(n.entries, e, pos);
  }

  lemma InsertEnlarges(t: DiskBTree, frames: seq<Frame>, f: Frame, a: Attempt, pos: nat, e: Entry)
    requires t.Valid() && a.pages == t.pages && a.root == t.root && a.g == t.g && a.early
    requires frames == Descent(t.pages, t.root, t.Depth(), a.job, true, t.cap) && f == Top(frames)
    requires f.pid in t.g.spans && LeafOk(f.node, f.pid, t.g) && NodeKind(f.node, t.kind)
    requires IsInsertPos(f.node.entries, e, pos) && a.full == LeafInsert(f.node, pos, e, [])
    ensures PathOf(a, t.cap) == frames && Enlarged(Top(PathOf(a, t.cap)).node, a.full, multiset{e})
  {
    PathIs(t, a);
    hide *;
    LeafParts(t.g, f.pid, f.node, t.kind);
    PosInside(f.node.entries, e, pos);
    EnlargedOne(f.node, pos, e);
  }

  lemma PathIs(t: DiskBTree, a: Attempt)
    requires a.pages == t.pages && a.root == t.root && a.g == t.g
    ensures PathOf(a, t.cap) == Descent(t.pages, t.root, t.Depth(), a.job, a.early, t.cap)
  {
    hide Descent;
  }

  /** Writing a page outside the tree changes nothing that is said of the tree. */
  lemma OrphanWrite(pages: Pages, root: PageId, g: Shape, pend: set<PageId>, kind: Kind, cap: nat, next: nat, r: PageId,
                    n: Node,
                    rows: seq<Row>)
    requires TreeInv(pages, root, g, pend, kind) && Spells(pages, g, rows) && Room(pages, next)
    requires Fitting(pages, g, cap)
    requires r !in pages && r as int < next
    ensures TreeInv(pages[r := n], root, g, pend, kind) && Spells(pages[r := n], g, rows) && Room(pages[r := n], next)
    ensures Fitting(pages[r := n], g, cap)
    ensures (Plain(pages, g) ==> Plain(pages[r := n], g)) && (Bare(pages, g) ==> Bare(pages[r := n], g))
  {
    hide *;
    ShapeParts(pages, root, g, pend, kind);
    WriteOutside(pages, root, g, pend, kind, r, n);
    SpellsInner(pages, pages[r := n], g, g, rows);
    RoomTop(pages, next, r, n);
    FitOutside(pages, g, cap, r, n);
    ExtendsSelf(g);
    if Plain(pages, g) { PlainInner(pages, pages[r := n], g, g); }
    if Bare(pages, g) { BareInner(pages, pages[r := n], g, g); }
  }

  lemma FitOutside(pages: Pages, g: Shape, cap: nat, r: PageId, n: Node)
    requires Fitting(pages, g, cap) && r !in g.spans
    ensures Fitting(pages[r := n], g, cap)
  {
    hide BodyLen;
  }

  /** `rows'` is `rows` with `row` put in at one position. */
  ghost predicate Inserted(rows: seq<Row>, rows': seq<Row>, row: Row) {
    exists k: nat :: k <= |rows| && rows' == Splice(rows, k, [row], k)
  }

  /**
    Page ids ran out or a write panicked halfway: the pages still read correctly from left to right, with
    or without the new row, though a right half may not be linked into its parent.
   */
  ghost predicate Halted(pages: Pages, root: PageId, g: Shape, kind: Kind, rows: seq<Row>, row: Row) {
    exists pend, rows' ::
      TreeInv(pages, root, g, pend, kind) && Spells(pages, g, rows') && (rows' == rows || Inserted(rows, rows', row))
  }

  /** The rows of node `n` are the stretch of `rows` that starts at `k`. */
  ghost predicate LeafStretch(rows: seq<Row>, k: nat, n: Node) {
    k + |LeafRows(n)| <= |rows| && rows[k..k + |LeafRows(n)|] == LeafRows(n)
  }

  lemma StretchIs(pages: Pages, g: Shape, p: PageId, rows: seq<Row>, k: nat)
    requires LeafSpells(pages, g, p, rows, k)
    ensures p in pages && LeafStretch(rows, k, pages[p])
  {
    hide LeafRows;
  }

  lemma StretchParts(rows: seq<Row>, k: nat, n: Node)
    requires LeafStretch(rows, k, n)
    ensures k + |LeafRows(n)| <= |rows| && rows[k..k + |LeafRows(n)|] == LeafRows(n)
  {
    hide LeafRows;
  }

  lemma InsertedIntro(rows: seq<Row>, k: nat, row: Row)
    requires k <= |rows|
    ensures Inserted(rows, Splice(rows, k, [row], k), row)
  {
  }

  lemma HaltedSame(pages: Pages, root: PageId, g: Shape, kind: Kind, rows: seq<Row>, row: Row)
    requires TreeInv(pages, root, g, {}, kind) && Spells(pages, g, rows)
    ensures Halted(pages, root, g, kind, rows, row)
  {
    hide TreeInv;
    hide Spells;
  }

  lemma HaltedNew(pages: Pages, root: PageId, g: Shape, kind: Kind, pend: set<PageId>, rows: seq<Row>, rows': seq<Row>,
                  row: Row)
    requires TreeInv(pages, root, g, pend, kind) && Spells(pages, g, rows') && Inserted(rows, rows', row)
    ensures Halted(pages, root, g, kind, rows, row)
  {
    hide TreeInv;
    hide Spells;
    hide Inserted;
  }

  /** A closed tree holds what its leaves spell. */
  lemma CloseTree(t: DiskBTree, rows: seq<Row>)
    requires TreeInv(t.pages, t.root, t.g, {}, t.kind) && Room(t.pages, t.next) && Spells(t.pages, t.g, rows)
    requires Fitting(t.pages, t.g, t.cap)
    ensures t.Valid() && t.Contents() == rows
  {
    hide TreeInv;
    hide Spells;
    hide WellFormed;
    hide Tiling;
    hide Flat;
    OpenTree(t);
    ShapeParts(t.pages, t.root, t.g, {}, t.kind);
    SpellsUnique(t.pages, t.g, t.Contents(), rows);
  }

  lemma PairStored(pages: Pages, root: PageId, g: Shape, kind: Kind, f: Frame, rows: seq<Row>, pos: nat)
    requires TreeInv(pages, root, g, {}, kind) && Spells(pages, g, rows) && ShapeOk(g) && g.spans.Keys <= pages.Keys
    requires f.pid in g.spans && g.spans[f.pid].level == 0 && f.pid in pages && pages[f.pid] == f.node
    requires f.node.Leaf? && pos < |f.node.entries|
    ensures HasPair(rows, f.node.entries[pos].key, f.node.entries[pos].rid)
  {
    hide *;
    var k := SpellsLeaf(pages, g, rows, f.pid, f.node);
    StretchOf(pages, g, f.pid, rows, k);
    RowAt(f.node, pos);
    assert rows[k..k + |LeafRows(f.node)|][pos] == rows[k + pos];
    PairAt(rows, k + pos);
  }

  lemma PairAt(rows: seq<Row>, i: nat)
    requires i < |rows|
    ensures HasPair(rows, rows[i].key, rows[i].rid)
  {
  }

  lemma LeafInTiling(g: Shape, leaves: seq<PageId>, i: nat)
    requires Tiling(g, leaves, 0.0, 1.0) && i < |leaves|
    ensures leaves[i] in g.spans && g.spans[leaves[i]].level == 0
  {
  }

  lemma HasAtIs(pages: Pages, leaves: seq<PageId>, i: nat, e: Entry)
    requires i < |leaves| && leaves[i] in pages && pages[leaves[i]].Leaf?
    ensures HasAt(pages, leaves, i, e) <==> e in pages[leaves[i]].entries
  {
  }

  lemma NonEmptyIs(pages: Pages, leaves: seq<PageId>, i: nat)
    requires i < |leaves| && leaves[i] in pages && pages[leaves[i]].Leaf? && pages[leaves[i]].entries != []
    ensures NonEmptyAt(pages, leaves, i)
  {
  }

  lemma PastWitness(n: Node, v: Key)
    requires n.Leaf?
    ensures n.entries != [] && Less(v, n.entries[|n.entries| - 1].key) ==> exists x :: x in n.entries && Less(v, x.key)
  {
    if n.entries != [] { assert n.entries[|n.entries| - 1] in n.entries; }
  }

  /** Row `k` is the first one for the pair. */
  ghost predicate FirstPairAt(rows: seq<Row>, k: nat, e: Entry) {
    && k < |rows| && rows[k].key == e.key && rows[k].rid == e.rid
    && forall m :: 0 <= m < k ==> Entry(rows[m].key, rows[m].rid) != e
  }

  /** Row `k` is the first one with the key. */
  ghost predicate FirstKeyAt(rows: seq<Row>, k: nat, v: Key) {
    k < |rows| && rows[k].key == v && forall m :: 0 <= m < k ==> rows[m].key != v
  }

  /** Where in the rows of the chain an entry of leaf `x` stands. */
  lemma RowsAround(pages: Pages, g: Shape, leaves: seq<PageId>, x: nat, n: Node, at: nat, k: nat)
    requires Tiling(g, leaves, 0.0, 1.0) && x < |leaves| && leaves[x] in pages && pages[leaves[x]] == n && n.Leaf?
    requires at <= k && at < |n.entries| && StartsRows(pages, g, leaves[x], k - at)
    ensures var rows, a := Flat(pages, leaves), Flat(pages, leaves[..x]);
            && k < |rows| && |a| == k - at && rows[..k - at] == a
            && (forall m :: 0 <= m <= at ==> rows[k - at + m].key == n.entries[m].key
                                             && rows[k - at + m].rid == n.entries[m].rid)
  {
    hide *;
    FlatAround(pages, leaves, x);
    RowsAre(n);
    StartIs(pages, g, leaves, x, k - at);
    MiddleRows(Flat(pages, leaves[..x]), LeafRows(n), Flat(pages, leaves[x + 1..]));
    var rows, a := Flat(pages, leaves), Flat(pages, leaves[..x]);
    forall m | 0 <= m <= at
      ensures rows[k - at + m].key == n.entries[m].key && rows[k - at + m].rid == n.entries[m].rid
    {
      assert rows[|a| + m] == LeafRows(n)[m];
    }
  }

  lemma StartIs(pages: Pages, g: Shape, leaves: seq<PageId>, x: nat, k: nat)
    requires Tiling(g, leaves, 0.0, 1.0) && x < |leaves| && StartsRows(pages, g, leaves[x], k)
    ensures k == |Flat(pages, leaves[..x])|
  {
    hide Tiling;
    hide Flat;
  }

  lemma MiddleRows(a: seq<Row>, b: seq<Row>, c: seq<Row>)
    ensures (a + b + c)[..|a|] == a && forall m :: 0 <= m < |b| ==> (a + b + c)[|a| + m] == b[m]
  {
  }

  lemma RowsAre(n: Node)
    requires n.Leaf?
    ensures |LeafRows(n)| == |n.entries|
    ensures forall m :: 0 <= m < |n.entries| ==>
              LeafRows(n)[m].key == n.entries[m].key && LeafRows(n)[m].rid == n.entries[m].rid
  {
  }

  lemma FirstOfPair(pages: Pages, g: Shape, leaves: seq<PageId>, x: nat, n: Node, at: nat, k: nat, e: Entry)
    requires Tiling(g, leaves, 0.0, 1.0) && x < |leaves| && leaves[x] in pages && pages[leaves[x]] == n && n.Leaf?
    requires at <= k && at < |n.entries| && StartsRows(pages, g, leaves[x], k - at) && n.entries[at] == e
    requires (forall j :: 0 <= j < at ==> n.entries[j] != e) && (forall j: nat :: j < x ==> !HasAt(pages, leaves, j, e))
    ensures FirstPairAt(Flat(pages, leaves), k, e)
  {
    hide *;
    RowsAround(pages, g, leaves, x, n, at, k);
    StoredSomewhere(pages, leaves[..x], e);
    forall j: nat ensures !HasAt(pages, leaves[..x], j, e) {
      HasAtPrefix(pages, leaves, x, j, e);
    }
    NotAmong(Flat(pages, leaves[..x]), e);
    var rows := Flat(pages, leaves);
    forall m | k - at <= m < k ensures Entry(rows[m].key, rows[m].rid) != e {
      var j := m - (k - at);
      assert rows[k - at + j].key == n.entries[j].key && rows[k - at + j].rid == n.entries[j].rid;
    }
    assert rows[k - at + at] == rows[k];
    FirstPairIntro(rows, k, k - at, e);
  }

  lemma HasAtPrefix(pages: Pages, leaves: seq<PageId>, x: nat, j: nat, e: Entry)
    requires x <= |leaves|
    ensures HasAt(pages, leaves[..x], j, e) ==> j < x && HasAt(pages, leaves, j, e)
  {
  }

  lemma NotAmong(rows: seq<Row>, e: Entry)
    requires !HasPair(rows, e.key, e.rid)
    ensures forall m :: 0 <= m < |rows| ==> Entry(rows[m].key, rows[m].rid) != e
  {
  }

  lemma FirstPairIntro(rows: seq<Row>, k: nat, start: nat, e: Entry)
    requires start <= k < |rows| && Entry(rows[k].key, rows[k].rid) == e
    requires forall m :: 0 <= m < start ==> Entry(rows[..start][m].key, rows[..start][m].rid) != e
    requires forall m :: start <= m < k ==> Entry(rows[m].key, rows[m].rid) != e
    ensures FirstPairAt(rows, k, e)
  {
    forall m | 0 <= m < k ensures Entry(rows[m].key, rows[m].rid) != e {
      if m < start { assert rows[..start][m] == rows[m]; }
    }
  }

  lemma FirstOfKey(pages: Pages, g: Shape, leaves: seq<PageId>, x: nat, n: Node, at: nat, k: nat, v: Key)
    requires Tiling(g, leaves, 0.0, 1.0) && x < |leaves| && leaves[x] in pages && pages[leaves[x]] == n && n.Leaf?
    requires at <= k && at < |n.entries| && StartsRows(pages, g, leaves[x], k - at) && n.entries[at].key == v
    requires (forall j :: 0 <= j < at ==> n.entries[j].key != v) && Admitted(Eq, Flat(pages, leaves[..x]), v) == []
    ensures FirstKeyAt(Flat(pages, leaves), k, v)
  {
    hide *;
    RowsAround(pages, g, leaves, x, n, at, k);
    var rows, a := Flat(pages, leaves), Flat(pages, leaves[..x]);
    forall m | 0 <= m < |a| ensures a[m].key != v {
      AdmittedIn(Eq, a, v, a[m]);
      EqAdmits(a[m].key, v);
    }
    forall m | k - at <= m < k ensures rows[m].key != v {
      var j := m - (k - at);
      assert rows[k - at + j].key == n.entries[j].key;
    }
    assert rows[k - at + at] == rows[k];
    FirstKeyIntro(rows, k, k - at, v);
  }

  lemma EqAdmits(k: Key, v: Key)
    ensures Admits(Eq, k, v) <==> k == v
  {
  }

  lemma FirstKeyIntro(rows: seq<Row>, k: nat, start: nat, v: Key)
    requires start <= k < |rows| && rows[k].key == v
    requires forall m :: 0 <= m < start ==> rows[..start][m].key != v
    requires forall m :: start <= m < k ==> rows[m].key != v
    ensures FirstKeyAt(rows, k, v)
  {
    forall m | 0 <= m < k ensures rows[m].key != v {
      if m < start { assert rows[..start][m] == rows[m]; }
    }
  }

  predicate HasKey(n: Node, v: Key) {
    n.Leaf? && exists i :: 0 <= i < |n.entries| && n.entries[i].key == v
  }

  predicate HasKeyAt(pages: Pages, p: PageId, v: Key) {
    p in pages && HasKey(pages[p], v)
  }

  lemma HasKeyAtIs(pages: Pages, p: PageId, v: Key)
    requires p in pages
    ensures HasKeyAt(pages, p, v) <==> HasKey(pages[p], v)
  {
    hide HasKey;
  }

  method FindKey(n: Node, v: Key) returns (i: nat)
    requires n.Leaf?
    ensures i <= |n.entries| && (i < |n.entries| ==> n.entries[i].key == v)
    ensures i < |n.entries| <==> HasKey(n, v)
    ensures forall j :: 0 <= j < i ==> n.entries[j].key != v
  {
    i := 0;
    while i < |n.entries| && n.entries[i].key != v
      invariant i <= |n.entries| && forall j :: 0 <= j < i ==> n.entries[j].key != v
    {
      i := i + 1;
    }
  }

  lemma HasAtInside(pages: Pages, leaves: seq<PageId>, x: nat, e: Entry)
    ensures HasAt(pages, leaves, x, e) ==> x < |leaves|
  {
    hide LeafHas;
  }

  /** Look for a pair, but not beyond a greater key. */
  method ScanPair(entries: seq<Entry>, e: Entry) returns (at: nat, past: bool)
    requires KeysSorted(entries)
    ensures at <= |entries| && (!past && at < |entries| ==> entries[at] == e)
    ensures forall j :: 0 <= j < at ==> entries[j] != e
    ensures !past && at < |entries| <==> e in entries
    ensures past ==> exists x :: x in entries && Less(e.key, x.key)
  {
    at, past := 0, false;
    while at < |entries|
      invariant at <= |entries| && !past && forall j :: 0 <= j < at ==> entries[j] != e
    {
      if Less(e.key, entries[at].key) {
        assert entries[at] in entries;
        return at, true;
      }
      if entries[at] == e { return; }
      at := at + 1;
    }
  }

  /** The pages spell a set of pairs between the two bounds, though a page may be pending. */
  ghost predicate Partial(pages: Pages, root: PageId, g: Shape, kind: Kind, least: set<Entry>, most: set<Entry>) {
    exists pend, rows :: TreeInv(pages, root, g, pend, kind) && Spells(pages, g, rows) && least <= PairSet(rows) <= most
  }

  lemma PartialWiden(pages: Pages, root: PageId, g: Shape, kind: Kind, least: set<Entry>, most: set<Entry>,
                     least': set<Entry>, most': set<Entry>)
    requires Partial(pages, root, g, kind, least, most) && least' <= least && most <= most'
    ensures Partial(pages, root, g, kind, least', most')
  {
    hide TreeInv;
    hide Spells;
    hide PairSet;
    var pend, rows :| TreeInv(pages, root, g, pend, kind) && Spells(pages, g, rows) && least <= PairSet(rows) <= most;
  }

  lemma InsertedPairs(rows: seq<Row>, rows': seq<Row>, row: Row)
    ensures Inserted(rows, rows', row) ==> PairSet(rows') == PairSet(rows) + {Entry(row.key, row.rid)}
  {
    if Inserted(rows, rows', row) {
      var k: nat :| k <= |rows| && rows' == Splice(rows, k, [row], k);
      assert rows == rows[..k] + rows[k..];
      PairSetConcat(rows[..k], rows[k..]);
      PairSetConcat(rows[..k] + [row], rows[k..]);
      PairSetConcat(rows[..k], [row]);
      assert PairSet([row]) == {Entry(row.key, row.rid)};
    }
  }

  /** Exactly the pairs of `es` are added, none of them more often than it is among them, and no row is lost. */
  ghost predicate Added(rows: seq<Row>, rows': seq<Row>, es: seq<Entry>) {
    PairSet(rows') == PairSet(rows) + AsSet(es) && Grown(rows, rows', multiset(es))
  }

  /**
    An operation that was to add `es` to `rows` and did not finish: it ran out of page ids
    because there are none left, it panicked because a page would have burst, and what it
    leaves still reads from left to right, with some of `es` added.
   */
  ghost predicate Stopped(end: Ending, pages: Pages, root: PageId, g: Shape, next: nat, kind: Kind, cap: nat,
                          rows: seq<Row>, es: seq<Entry>) {
    && (end.OutOfPages? ==> next >= NO_PAGE as int)
    && (end.Panicked? ==> Burst(kind, cap, next, PairSet(rows), PairSet(rows) + AsSet(es), multiset(es)))
    && (!end.Finished? ==> Partial(pages, root, g, kind, PairSet(rows), PairSet(rows) + AsSet(es)))
  }

  lemma AddedIntro(rows: seq<Row>, rows': seq<Row>, es: seq<Entry>)
    requires PairSet(rows') == PairSet(rows) + AsSet(es) && Grown(rows, rows', multiset(es))
    ensures Added(rows, rows', es)
  {
    hide PairSet;
    hide Grown;
  }

  lemma AddedParts(rows: seq<Row>, rows': seq<Row>, es: seq<Entry>)
    requires Added(rows, rows', es)
    ensures PairSet(rows') == PairSet(rows) + AsSet(es) && Grown(rows, rows', multiset(es))
  {
    hide PairSet;
    hide Grown;
  }

  lemma AddedNone(rows: seq<Row>, es: seq<Entry>)
    ensures Added(rows, rows, es[..0])
  {
    hide PairSet;
    GrownSame(rows, multiset(es[..0]));
  }

  lemma OneAdded(rows: seq<Row>, rows': seq<Row>, e: Entry)
    requires Inserted(rows, rows', Row(e.key, e.rid, [])) || (rows' == rows && HasPair(rows, e.key, e.rid))
    ensures Added(rows, rows', [e])
  {
    hide *;
    InsertedPairs(rows, rows', Row(e.key, e.rid, []));
    InsertedGrows(rows, rows', Row(e.key, e.rid, []));
    HasPairIs(rows, e);
    GrownSame(rows, multiset{e});
    SetOne(e);
    assert multiset([e]) == multiset{e};
    AddedIntro(rows, rows', [e]);
  }

  lemma SetOne(e: Entry)
    ensures AsSet([e]) == {e}
  {
  }

  lemma AddedJoin(rows: seq<Row>, mid: seq<Row>, rows': seq<Row>, es: seq<Entry>, i: nat, j: nat)
    requires i <= j <= |es| && Added(rows, mid, es[..i])
    requires Added(mid, rows', es[i..j]) || (j == i + 1 && Added(mid, rows', [es[i]]))
    ensures Added(rows, rows', es[..j])
  {
    hide *;
    if j == i + 1 { assert es[i..j] == [es[i]]; }
    AddedParts(rows, mid, es[..i]);
    AddedParts(mid, rows', es[i..j]);
    BagPart(es, i, j);
    JoinRun(es, i, j - i);
    assert i + (j - i) == j;
    GrownJoin(rows, mid, rows', multiset(es[..i]), multiset(es[i..j]), multiset(es[..j]));
    assert PairSet(rows') == PairSet(rows) + (AsSet(es[..i]) + AsSet(es[i..j]));
    AddedIntro(rows, rows', es[..j]);
  }

  lemma AddedPerm(rows: seq<Row>, rows': seq<Row>, es: seq<Entry>, es': seq<Entry>)
    requires Added(rows, rows', es) && multiset(es) == multiset(es') && AsSet(es) == AsSet(es')
    ensures Added(rows, rows', es')
  {
    hide PairSet;
    hide Grown;
  }

  lemma StoppedIs(end: Ending, pages: Pages, root: PageId, g: Shape, next: nat, kind: Kind, cap: nat,
                  rows: seq<Row>, es: seq<Entry>)
    ensures Stopped(end, pages, root, g, next, kind, cap, rows, es) <==>
              && (end.OutOfPages? ==> next >= NO_PAGE as int)
              && (end.Panicked? ==> Burst(kind, cap, next, PairSet(rows), PairSet(rows) + AsSet(es), multiset(es)))
              && (!end.Finished? ==> Partial(pages, root, g, kind, PairSet(rows), PairSet(rows) + AsSet(es)))
  {
    hide Burst;
    hide Partial;
    hide PairSet;
    hide AsSet;
  }

  lemma FinishedStops(pages: Pages, root: PageId, g: Shape, next: nat, kind: Kind, cap: nat, rows: seq<Row>,
                      es: seq<Entry>)
    ensures Stopped(Finished, pages, root, g, next, kind, cap, rows, es)
  {
    hide Burst;
    hide Partial;
  }

  lemma StoppedWiden(end: Ending, pages: Pages, root: PageId, g: Shape, next: nat, kind: Kind, cap: nat,
                     rows: seq<Row>, es: seq<Entry>, rows': seq<Row>, es': seq<Entry>)
    requires Stopped(end, pages, root, g, next, kind, cap, rows, es)
    requires PairSet(rows') <= PairSet(rows) && PairSet(rows) + AsSet(es) <= PairSet(rows') + AsSet(es')
    requires multiset(es) <= multiset(es')
    ensures Stopped(end, pages, root, g, next, kind, cap, rows', es')
  {
    hide *;
    StoppedIs(end, pages, root, g, next, kind, cap, rows, es);
    StoppedIs(end, pages, root, g, next, kind, cap, rows', es');
    var least, most, least', most' := PairSet(rows), PairSet(rows) + AsSet(es), PairSet(rows'),
                                      PairSet(rows') + AsSet(es');
    if end.Panicked? {
      BurstWiden(kind, cap, next, least, most, multiset(es), next, least', most', multiset(es'));
    }
    if !end.Finished? { PartialWiden(pages, root, g, kind, least, most, least', most'); }
  }

  lemma PartSets(es: seq<Entry>, i: nat, j: nat)
    requires i <= j <= |es|
    ensures multiset(es[i..j]) <= multiset(es[i..]) && AsSet(es[i..j]) <= AsSet(es[i..])
  {
    assert es[i..] == es[i..j] + es[j..];
    SetConcat(es[i..j], es[j..]);
    hide AsSet;
  }

  lemma StoppedPart(end: Ending, pages: Pages, root: PageId, g: Shape, next: nat, kind: Kind, cap: nat,
                    rows: seq<Row>, es: seq<Entry>, i: nat, j: nat)
    requires i <= j <= |es|
    requires Stopped(end, pages, root, g, next, kind, cap, rows, es[i..j])
             || (i == 0 && Stopped(end, pages, root, g, next, kind, cap, rows, es[..j]))
    ensures Stopped(end, pages, root, g, next, kind, cap, rows, es[i..])
    ensures i == 0 ==> Stopped(end, pages, root, g, next, kind, cap, rows, es)
  {
    hide *;
    if i == 0 { assert es[i..j] == es[..j] && es[i..] == es; }
    PartSets(es, i, j);
    StoppedWiden(end, pages, root, g, next, kind, cap, rows, es[i..j], rows, es[i..]);
  }

  lemma LaterSets(rows: seq<Row>, mid: seq<Row>, es: seq<Entry>, i: nat, j: nat)
    requires i <= j <= |es| && Added(rows, mid, es[..i])
    ensures PairSet(rows) <= PairSet(mid) && PairSet(mid) + AsSet(es[i..j]) <= PairSet(rows) + AsSet(es)
  {
    AddedParts(rows, mid, es[..i]);
    hide PairSet;
    hide Grown;
    assert AsSet(es[..i]) <= AsSet(es) && AsSet(es[i..j]) <= AsSet(es);
  }

  /** Stopped after the entries before `i` were added. */
  lemma StoppedLater(end: Ending, pages: Pages, root: PageId, g: Shape, next: nat, kind: Kind, cap: nat,
                     rows: seq<Row>, mid: seq<Row>, es: seq<Entry>, i: nat, j: nat)
    requires i <= j <= |es| && Added(rows, mid, es[..i])
    requires Stopped(end, pages, root, g, next, kind, cap, mid, es[i..j])
             || (j == i + 1 && Stopped(end, pages, root, g, next, kind, cap, mid, [es[i]]))
             || (j == |es| && Stopped(end, pages, root, g, next, kind, cap, mid, es[i..]))
    ensures Stopped(end, pages, root, g, next, kind, cap, rows, es)
  {
    hide *;
    if j == i + 1 { assert es[i..j] == [es[i]]; }
    if j == |es| { assert es[i..j] == es[i..]; }
    BagPart(es, i, j);
    LaterSets(rows, mid, es, i, j);
    StoppedWiden(end, pages, root, g, next, kind, cap, mid, es[i..j], rows, es);
  }

  lemma StoppedPerm(end: Ending, pages: Pages, root: PageId, g: Shape, next: nat, kind: Kind, cap: nat,
                    rows: seq<Row>, es: seq<Entry>, es': seq<Entry>)
    requires Stopped(end, pages, root, g, next, kind, cap, rows, es)
    requires multiset(es) == multiset(es') && AsSet(es) == AsSet(es')
    ensures Stopped(end, pages, root, g, next, kind, cap, rows, es')
  {
    hide *;
    StoppedWiden(end, pages, root, g, next, kind, cap, rows, es, rows, es');
  }

  /** A single insert that did not finish. */
  lemma OneStopped(end: Ending, pages: Pages, root: PageId, g: Shape, next: nat, kind: Kind, cap: nat,
                   rows: seq<Row>, e: Entry)
    requires !end.Finished? && Halted(pages, root, g, kind, rows, Row(e.key, e.rid, []))
    requires end.OutOfPages? ==> next >= NO_PAGE as int
    requires end.Panicked? ==> Burst(kind, cap, next, PairSet(rows), PairSet(rows), multiset{e})
    ensures Stopped(end, pages, root, g, next, kind, cap, rows, [e])
  {
    hide *;
    HaltedPairs(pages, root, g, kind, rows, Row(e.key, e.rid, []));
    SetOne(e);
    assert multiset([e]) == multiset{e};
    StoppedIs(end, pages, root, g, next, kind, cap, rows, [e]);
    if end.Panicked? {
      BurstWiden(kind, cap, next, PairSet(rows), PairSet(rows), multiset{e}, next, PairSet(rows), PairSet(rows) + {e},
                 multiset([e]));
    }
  }

  /** A batch whose leaf could not be put in place. */
  lemma BatchStopped(end: Ending, pages: Pages, root: PageId, g: Shape, next: nat, kind: Kind, cap: nat,
                     rows: seq<Row>, batch: seq<Entry>, n: nat)
    requires n <= |batch| && (end.OutOfPages? ==> next >= NO_PAGE as int)
    requires end.Panicked? ==>
               Burst(kind, cap, next, PairSet(rows), PairSet(rows) + AsSet(batch), multiset(batch))
    requires !end.Finished? ==> Partial(pages, root, g, kind, PairSet(rows), PairSet(rows) + AsSet(batch[..n]))
    ensures Stopped(end, pages, root, g, next, kind, cap, rows, batch)
  {
    hide *;
    StoppedIs(end, pages, root, g, next, kind, cap, rows, batch);
    assert batch[0..n] == batch[..n] && batch[0..] == batch;
    PartSets(batch, 0, n);
    if !end.Finished? {
      PartialWiden(pages, root, g, kind, PairSet(rows), PairSet(rows) + AsSet(batch[..n]), PairSet(rows),
                   PairSet(rows) + AsSet(batch));
    }
  }

  lemma InsertedGrows(rows: seq<Row>, rows': seq<Row>, row: Row)
    ensures Inserted(rows, rows', row) ==> Grown(rows, rows', multiset{Entry(row.key, row.rid)})
  {
    if Inserted(rows, rows', row) {
      var k: nat :| k <= |rows| && rows' == Splice(rows, k, [row], k);
      BagInsert(rows, k, row);
    }
  }

  lemma HasPairIs(rows: seq<Row>, e: Entry)
    ensures HasPair(rows, e.key, e.rid) <==> e in PairSet(rows)
  {
    if e in PairSet(rows) {
      var r :| r in rows && e == Entry(r.key, r.rid);
    }
  }

  lemma HaltedPairs(pages: Pages, root: PageId, g: Shape, kind: Kind, rows: seq<Row>, row: Row)
    requires Halted(pages, root, g, kind, rows, row)
    ensures Partial(pages, root, g, kind, PairSet(rows), PairSet(rows) + {Entry(row.key, row.rid)})
  {
    hide TreeInv;
    hide Spells;
    hide PairSet;
    hide Inserted;
    var pend, rows' :| TreeInv(pages, root, g, pend, kind) && Spells(pages, g, rows')
                       && (rows' == rows || Inserted(rows, rows', row));
    InsertedPairs(rows, rows', row);
  }

  lemma KindsPerm(patches: seq<Patch>, ps: seq<Patch>, kind: Kind)
    requires multiset(ps) == multiset(patches) && (forall x :: x in patches ==> KindOf(x.key) == kind)
    ensures forall x :: x in ps ==> KindOf(x.key) == kind
  {
    forall x | x in ps ensures KindOf(x.key) == kind {
      assert x in multiset(ps);
    }
  }

  lemma LateKinds(ps: seq<Patch>, i: nat, j: nat, late: seq<Entry>, mid: set<Entry>, cur: set<Entry>, sep: bool,
                  kind: Kind)
    requires i <= j <= |ps| && Effect(mid, cur, AsSet(late), ps[i..j], sep)
    requires forall x :: x in ps ==> KindOf(x.key) == kind
    ensures forall e :: e in late ==> KindOf(e.key) == kind
  {
    forall e | e in late ensures KindOf(e.key) == kind {
      assert e in AsSet(late);
      assert e in NewOf(ps[i..j]);
      var x :| x in ps[i..j] && e == Entry(x.key, x.now);
      assert x in ps;
    }
  }

  lemma SameWrite(pages: Pages, p: PageId, n: Node)
    ensures p in pages && pages[p] == n ==> pages[p := n] == pages
  {
  }

  /** Patches that were stopped: why, and between which bounds the pairs are that the pages spell. */
  ghost predicate PatchStopped(end: Ending, pages: Pages, root: PageId, g: Shape, next: nat, kind: Kind, cap: nat,
                               pairs: set<Entry>, ps: seq<Patch>) {
    && (end.OutOfPages? ==> next >= NO_PAGE as int)
    && (end.Panicked? ==> Burst(kind, cap, next, pairs - OldOf(ps), pairs + NewOf(ps), NewBag(ps)))
    && (!end.Finished? ==> Partial(pages, root, g, kind, pairs - OldOf(ps), pairs + NewOf(ps)))
  }

  lemma PatchFinished(pages: Pages, root: PageId, g: Shape, next: nat, kind: Kind, cap: nat, pairs: set<Entry>,
                      ps: seq<Patch>)
    ensures PatchStopped(Finished, pages, root, g, next, kind, cap, pairs, ps)
  {
    hide Burst;
    hide Partial;
  }

  lemma PatchStoppedPerm(end: Ending, pages: Pages, root: PageId, g: Shape, next: nat, kind: Kind, cap: nat,
                         pairs: set<Entry>, ps: seq<Patch>, qs: seq<Patch>)
    requires PatchStopped(end, pages, root, g, next, kind, cap, pairs, ps)
    requires OldOf(ps) == OldOf(qs) && NewOf(ps) == NewOf(qs) && NewBag(ps) == NewBag(qs)
    ensures PatchStopped(end, pages, root, g, next, kind, cap, pairs, qs)
  {
    hide Burst;
    hide Partial;
  }

  /** Stopped in the round of the patches from `i` to `j`. */
  lemma PatchedBefore(end: Ending, pages: Pages, root: PageId, g: Shape, next: nat, kind: Kind, cap: nat,
                      before: set<Entry>, mid: set<Entry>, ps: seq<Patch>, i: nat, j: nat)
    requires i <= j <= |ps| && Effect(before, mid, {}, ps[..i], Separate(ps))
    requires PatchStopped(end, pages, root, g, next, kind, cap, mid, ps[i..j])
    ensures PatchStopped(end, pages, root, g, next, kind, cap, before, ps)
  {
    hide *;
    EffectParts(before, mid, {}, ps[..i], Separate(ps));
    assert ps == ps[..i] + (ps[i..j] + ps[j..]);
    SetsConcat(ps[..i], ps[i..j] + ps[j..]);
    SetsConcat(ps[i..j], ps[j..]);
    BagsConcat(ps[..i], ps[i..j] + ps[j..]);
    BagsConcat(ps[i..j], ps[j..]);
    Widened(end, pages, root, g, next, kind, cap, before, mid, OldOf(ps), NewOf(ps), NewBag(ps), OldOf(ps[..i]),
            NewOf(ps[..i]), OldOf(ps[i..j]), NewOf(ps[i..j]), NewBag(ps[i..j]));
    PatchStoppedIs(end, pages, root, g, next, kind, cap, before, ps);
    PatchStoppedIs(end, pages, root, g, next, kind, cap, mid, ps[i..j]);
  }

  lemma PatchStoppedIs(end: Ending, pages: Pages, root: PageId, g: Shape, next: nat, kind: Kind, cap: nat,
                       pairs: set<Entry>, ps: seq<Patch>)
    ensures PatchStopped(end, pages, root, g, next, kind, cap, pairs, ps) <==>
              && (end.OutOfPages? ==> next >= NO_PAGE as int)
              && (end.Panicked? ==> Burst(kind, cap, next, pairs - OldOf(ps), pairs + NewOf(ps), NewBag(ps)))
              && (!end.Finished? ==> Partial(pages, root, g, kind, pairs - OldOf(ps), pairs + NewOf(ps)))
  {
    hide Burst;
    hide Partial;
    hide OldOf;
    hide NewOf;
    hide NewBag;
  }

  lemma Widened(end: Ending, pages: Pages, root: PageId, g: Shape, next: nat, kind: Kind, cap: nat,
                before: set<Entry>, mid: set<Entry>, o: set<Entry>, n: set<Entry>, bag: multiset<Entry>,
                o1: set<Entry>, n1: set<Entry>, o2: set<Entry>, n2: set<Entry>, bag2: multiset<Entry>)
    requires mid <= before + n1 && before - o1 <= mid && o1 + o2 <= o && n1 + n2 <= n && bag2 <= bag
    ensures end.Panicked? && Burst(kind, cap, next, mid - o2, mid + n2, bag2) ==>
              Burst(kind, cap, next, before - o, before + n, bag)
    ensures !end.Finished? && Partial(pages, root, g, kind, mid - o2, mid + n2) ==>
              Partial(pages, root, g, kind, before - o, before + n)
  {
    hide Burst;
    hide Partial;
    assert before - o <= mid - o2 && mid + n2 <= before + n;
    if end.Panicked? && Burst(kind, cap, next, mid - o2, mid + n2, bag2) {
      BurstWiden(kind, cap, next, mid - o2, mid + n2, bag2, next, before - o, before + n, bag);
    }
    if !end.Finished? && Partial(pages, root, g, kind, mid - o2, mid + n2) {
      PartialWiden(pages, root, g, kind, mid - o2, mid + n2, before - o, before + n);
    }
  }

  /** A round whose left-over pairs could not all be inserted. */
  lemma LateStopped(end: Ending, pages: Pages, root: PageId, g: Shape, next: nat, kind: Kind, cap: nat,
                    mid: set<Entry>, cur: seq<Row>, late: seq<Entry>, run: seq<Patch>, sep: bool, es: seq<Entry>,
                    es': seq<Entry>, f: seq<Patch>, m: seq<Patch>)
    requires Stopped(end, pages, root, g, next, kind, cap, cur, late)
    requires Effect(mid, PairSet(cur), AsSet(late), run, sep) && Accounted(es, es', late, f, m, run)
    ensures PatchStopped(end, pages, root, g, next, kind, cap, mid, run)
  {
    hide *;
    StoppedIs(end, pages, root, g, next, kind, cap, cur, late);
    EffectParts(mid, PairSet(cur), AsSet(late), run, sep);
    LateInside(es, es', late, f, m, run);
    PatchStoppedIs(end, pages, root, g, next, kind, cap, mid, run);
    var least, most := mid - OldOf(run), mid + NewOf(run);
    assert PairSet(cur) + AsSet(late) <= most;
    if end.Panicked? {
      BurstWiden(kind, cap, next, PairSet(cur), PairSet(cur) + AsSet(late), multiset(late), next, least, most,
                 NewBag(run));
    }
    if !end.Finished? { PartialWiden(pages, root, g, kind, PairSet(cur), PairSet(cur) + AsSet(late), least, most); }
  }

  lemma LateInside(es: seq<Entry>, es': seq<Entry>, late: seq<Entry>, f: seq<Patch>, m: seq<Patch>, run: seq<Patch>)
    requires Accounted(es, es', late, f, m, run)
    ensures multiset(late) <= NewBag(run)
  {
    hide OldBag;
    assert multiset(late) == NewBag(m);
    hide NewBag;
    assert NewBag(m) <= NewBag(f) + NewBag(m);
  }

  /** A patch of an empty leaf is left over. */
  lemma OneMissed(es: seq<Entry>, ps: seq<Patch>, i: nat)
    requires i < |ps|
    ensures Accounted(es, es, [Entry(ps[i].key, ps[i].now)], [], [ps[i]], ps[i..i + 1])
  {
    assert ps[i..i + 1] == [ps[i]];
    assert NewSeq([ps[i]]) == [Entry(ps[i].key, ps[i].now)];
    assert OldBag([]) == multiset{} && NewBag([]) == multiset{};
  }

  lemma RunShifts(pages: Pages, root: PageId, level: nat, p: PageId, n': Node, late: seq<Entry>, run: seq<Patch>,
                  f: seq<Patch>, m: seq<Patch>)
    requires p in pages && pages[p].Leaf? && n'.Leaf? && LandsOn(pages, root, level, p, run) && m == []
    requires Accounted(pages[p].entries, n'.entries, late, f, m, run)
    ensures late == [] && Shifted(pages, pages[p := n'], root, level, run)
  {
    assert OldBag([]) == multiset{} && NewBag([]) == multiset{} && NewSeq([]) == [];
    assert OldBag(f) == OldBag(run) && NewBag(f) == NewBag(run);
    hide OldBag;
    hide NewBag;
    ShiftedRun(pages, root, level, p, n', run);
  }

  lemma DepthIs(t: DiskBTree, root: PageId, g: Shape)
    requires t.root == root && t.g == g
    ensures t.Depth() == if root in g.spans then g.spans[root].level else 0
  {
  }

  /** All patches were found exactly if their pairs were exchanged, which is to say they were held. */
  lemma AllFound(rows: seq<Row>, rows': seq<Row>, found: seq<Patch>, missed: seq<Patch>, pages: Pages, pages': Pages,
                 root: PageId, level: nat, ps: seq<Patch>, patches: seq<Patch>)
    requires Settles(rows, rows', found, missed, ps) && multiset(ps) == multiset(patches)
    requires missed == [] ==> Shifted(pages, pages', root, level, ps)
    requires missed == [] ==> Exchanged(rows, rows', ps)
    requires Exchanged(rows, rows', ps) && Strict(ps) ==> missed == []
    ensures Settles(rows, rows', found, missed, patches)
    ensures Exchanged(rows, rows', patches) <==> Exchanged(rows, rows', ps)
    ensures Strict(patches) && Exchanged(rows, rows', patches) ==> AllHeld(pages, root, level, patches)
  {
    BagsPerm(ps, patches);
    SamePatches(ps, patches);
    if Strict(patches) && Exchanged(rows, rows', patches) {
      StrictPerm(patches, ps);
      ShiftedHeld(pages, pages', root, level, ps);
      HeldPerm(pages, root, level, ps, patches);
    }
    hide OldBag;
    hide NewBag;
    hide PairBag;
  }

  lemma SamePatches(ps: seq<Patch>, qs: seq<Patch>)
    requires multiset(ps) == multiset(qs)
    ensures forall x :: x in ps <==> x in qs
  {
    forall x ensures x in ps <==> x in qs {
      assert x in multiset(ps) <==> x in multiset(qs);
    }
  }

  lemma StrictPerm(ps: seq<Patch>, qs: seq<Patch>)
    requires Strict(ps) && multiset(ps) == multiset(qs)
    ensures Strict(qs)
  {
    SamePatches(ps, qs);
    SeparatePerm(ps, qs);
  }

  // ── small facts about batches ──────────────────────────────────────────────

  lemma RootStartsBelow(pages: Pages, root: PageId, g: Shape, kind: Kind, v: Key)
    requires TreeInv(pages, root, g, {}, kind)
    ensures StartsBelow(g, root, v)
  {
    hide TreeInv;
    ShapeParts(pages, root, g, {}, kind);
    RootSpans(g, root);
  }

  lemma StaysBelow(op: Op, pages: Pages, root: PageId, g: Shape, kind: Kind, p: PageId, v: Key)
    requires TreeInv(pages, root, g, {}, kind) && p in g.spans && g.spans[p].level > 0
    requires FromLeft(op) || StartsBelow(g, p, v)
    ensures p in pages && pages[p].Internal? && RouteRead(op, pages[p].keys, v) < |pages[p].children|
    ensures FromLeft(op) || StartsBelow(g, pages[p].children[RouteRead(op, pages[p].keys, v)], v)
  {
    hide TreeInv;
    hide RouteRead;
    ReadTarget(op, pages, root, g, {}, kind, p, v);
  }

  /** The leaf has keys, and `k` lies outside their range. */
  predicate Misses(pages: Pages, p: PageId, k: Key) {
    && p in pages && pages[p].Leaf? && pages[p].entries != []
    && !Between(k, pages[p].entries[0].key, pages[p].entries[|pages[p].entries| - 1].key)
  }

  lemma MissesIs(pages: Pages, p: PageId, k: Key)
    requires p in pages && pages[p].Leaf?
    ensures Misses(pages, p, k) <==>
              pages[p].entries != []
              && !Between(k, pages[p].entries[0].key, pages[p].entries[|pages[p].entries| - 1].key)
  {
    hide Between;
  }

  lemma FirstOf(batch: seq<Entry>)
    requires batch != []
    ensures batch[0] in batch && AsSet([batch[0]]) == AsSet(batch[..1]) && AsSet([batch[0]]) <= AsSet(batch)
    ensures batch[..1] == [batch[0]] && multiset([batch[0]]) <= multiset(batch) && batch[0] in multiset(batch)
  {
    assert batch[..1] == [batch[0]];
  }

  lemma GrownBy(rows: seq<Row>, rows': seq<Row>, es: seq<Entry>, es': seq<Entry>, new': multiset<Entry>)
    requires PairBag(rows') + multiset(es) == PairBag(rows) + multiset(es')
    requires multiset(es) <= multiset(es') <= multiset(es) + new'
    ensures Grown(rows, rows', new')
  {
    hide PairBag;
    BagsGrow(PairBag(rows), PairBag(rows'), multiset(es), multiset(es'), new');
  }

  /** Merging part of a run that ascends leaves every leaf ascending. */
  lemma BatchNeat(pages: Pages, g: Shape, frames: seq<Frame>, n: Node, batch: seq<Entry>, count: nat, root: PageId,
                  next: nat, cap: nat)
    requires Path(pages, g, frames) && Neat(pages) && n == Top(frames).node && n.Leaf?
    requires count <= |batch| && Ascending(batch)
    ensures Neat(PutLeaf(pages, frames, Leaf(Merged(n.entries, batch[..count]), [], n.next), root, next, cap).pages)
  {
    hide *;
    PathSome(pages, g, frames);
    PathInner(pages, g, frames);
    PathTop(pages, g, frames);
    NeatAt(pages, Top(frames).pid);
    NeatMerge(n, batch, count);
    PutNeat(pages, frames, Leaf(Merged(n.entries, batch[..count]), [], n.next), root, next, cap);
  }

  lemma NeatMerge(n: Node, batch: seq<Entry>, count: nat)
    requires n.Leaf? && NodeNeat(n) && count <= |batch| && Ascending(batch)
    ensures NodeNeat(Leaf(Merged(n.entries, batch[..count]), [], n.next))
  {
    hide EntryLess;
    assert Ascending(batch[..count]);
    MergedAscends(n.entries, batch[..count]);
  }

  lemma BatchEnlarges(t: DiskBTree, frames: seq<Frame>, f: Frame, a: Attempt, batch: seq<Entry>, count: nat)
    requires a.pages == t.pages && a.root == t.root && a.g == t.g && !a.early && count <= |batch|
    requires frames == Descent(t.pages, t.root, t.Depth(), a.job, false, t.cap) && f == Top(frames)
    requires f.node.Leaf? && f.node.payloads == []
    requires a.full == Leaf(Merged(f.node.entries, batch[..count]), [], f.node.next)
    ensures PathOf(a, t.cap) == frames && Enlarged(Top(PathOf(a, t.cap)).node, a.full, multiset(batch))
  {
    PathIs(t, a);
    hide *;
    MergedGrows(f.node.entries, batch[..count]);
    BagPart(batch, 0, count);
    assert batch[0..count] == batch[..count];
    EnlargedBare(f.node, a.full, multiset(batch));
  }

  lemma BatchBursts(a: Attempt, kind: Kind, cap: nat, next: nat, batch: seq<Entry>)
    requires batch != [] && a.job.key == batch[0].key && a.job.rid == batch[0].rid
    requires TreeInv(a.pages, a.root, a.g, {}, kind) && Spells(a.pages, a.g, a.rows)
    requires Enlarged(Top(PathOf(a, cap)).node, a.full, multiset(batch))
    requires a.next <= next && PutBursts(PathOf(a, cap), a.full, a.root, a.next, cap)
    ensures Burst(kind, cap, next, PairSet(a.rows), PairSet(a.rows) + AsSet(batch), multiset(batch))
  {
    hide *;
    FirstOf(batch);
    BurstIntro(a, kind, cap, next, multiset(batch));
    BurstWiden(kind, cap, next, PairSet(a.rows), PairSet(a.rows), multiset(batch), next, PairSet(a.rows),
               PairSet(a.rows) + AsSet(batch), multiset(batch));
  }

  lemma PrefixOf(batch: seq<Entry>, n: nat)
    requires n <= |batch| && KeysSorted(batch)
    ensures KeysSorted(batch[..n]) && AsSet(batch[..n]) <= AsSet(batch) && (n == 0 ==> AsSet(batch[..n]) == {})
  {
  }

  lemma SortedLeaf(n: Node, p: PageId, g: Shape)
    requires LeafOk(n, p, g)
    ensures KeysSorted(n.entries)
  {
    hide KeysSorted;
  }

  lemma MergedPairs(all: set<Entry>, all': set<Entry>, leaf: set<Entry>, leaf': set<Entry>, run: set<Entry>)
    requires leaf' == leaf + run && leaf <= all && all' <= all + leaf' && all - leaf <= all' && leaf' <= all'
    ensures all' == all + run
  {
  }

  /** A leaf that fitted and is too large after a merge has at least two entries. */
  lemma AtLeastTwo(n: Node, run: seq<Entry>, cap: nat)
    requires n.Leaf? && n.payloads == [] && n.entries != [] && BodyLen(n) <= cap
    requires BodyLen(Leaf(Merged(n.entries, run), [], n.next)) > cap
    ensures |Merged(n.entries, run)| >= 2
  {
    var es := Merged(n.entries, run);
    MergedSet(n.entries, run);
    SameIfOne(n, es);
  }

  lemma SameIfOne(n: Node, es: seq<Entry>)
    requires n.Leaf? && n.payloads == [] && n.entries != [] && AsSet(n.entries) <= AsSet(es) && |es| >= |n.entries|
    ensures |es| == 1 ==> BodyLen(Leaf(es, [], n.next)) == BodyLen(n)
  {
    hide BodyLen;
    assert n.entries[0] in AsSet(es);
    if |es| == 1 { assert es == n.entries; }
  }

  /** A merged leaf starts with the key its leaf started with. */
  lemma MergedPlain(n: Node, p: PageId, g: Shape, run: seq<Entry>)
    requires n.Leaf? && n.entries != [] && Merged(n.entries, run) != []
    requires Rank(Merged(n.entries, run)[0].key) == Rank(n.entries[0].key)
    ensures PlainLeaf(n, p, g) ==> PlainLeaf(Leaf(Merged(n.entries, run), [], n.next), p, g)
  {
    hide Merged;
  }

  /** The leaf a batch makes of the leaf it lands on. */
  function BatchLeaf(n: Node, batch: seq<Entry>): Node {
    if n.Leaf? && n.entries != [] then
      var count := RunCount(batch, n.entries[0].key, n.entries[|n.entries| - 1].key);
      if count > 0 then Leaf(Merged(n.entries, batch[..count]), [], n.next) else n
    else n
  }

  /** A batch would split leaf `p` into halves one of which is larger than its page. */
  predicate SplitTooWide(pages: Pages, p: PageId, batch: seq<Entry>, cap: nat) {
    && p in pages && pages[p].Leaf? && pages[p].entries != []
    && cap < BodyLen(BatchLeaf(pages[p], batch)) <= 2 * cap && TooWide(BatchLeaf(pages[p], batch), cap)
  }

  lemma SplitTooWideIs(pages: Pages, p: PageId, n: Node, batch: seq<Entry>, cap: nat)
    requires p in pages && pages[p] == n && n.Leaf? && BodyLen(n) <= cap
    ensures SplitTooWide(pages, p, batch, cap) <==>
              && n.entries != []
              && var count := RunCount(batch, n.entries[0].key, n.entries[|n.entries| - 1].key);
                 && count > 0
                 && var full := Leaf(Merged(n.entries, batch[..count]), [], n.next);
                    cap < BodyLen(full) <= 2 * cap && TooWide(full, cap)
  {
    hide RunCount;
    hide Merged;
    hide BodyLen;
    hide TooWide;
  }

  /** No more fixed-width entries than one page holds. */
  predicate Modest(kind: Kind, cap: nat, count: nat) {
    Narrow(kind, cap) && count <= (cap - NODE_HEADER) / EntryWidth(kind)
  }

  lemma ModestIsNarrow(kind: Kind, cap: nat, count: nat)
    ensures Modest(kind, cap, count) ==> Narrow(kind, cap)
  {
  }

  /** The halves of a leaf into which no more entries than one page holds are merged fit. */
  lemma ModestFits(pages: Pages, root: PageId, g: Shape, kind: Kind, cap: nat, p: PageId, run: seq<Entry>, count: nat)
    requires TreeInv(pages, root, g, {}, kind) && Fitting(pages, g, cap) && Bare(pages, g) && p in g.spans
    requires g.spans[p].level == 0
    requires Modest(kind, cap, count) && |run| <= count && KeysSorted(run)
    requires forall e :: e in run ==> KindOf(e.key) == kind
    ensures !SplitTooWide(pages, p, run, cap)
  {
    hide *;
    LeafPageOf(pages, root, g, kind, p);
    BareAt(pages, g, p);
    FitAt(pages, g, cap, p);
    var n := pages[p];
    SplitTooWideIs(pages, p, n, run, cap);
    if n.entries != [] {
      var c := RunCount(run, n.entries[0].key, n.entries[|n.entries| - 1].key);
      PrefixOf(run, c);
      MergedLeaf(n, p, g, kind, run[..c]);
      MergedLength(n.entries, run[..c]);
      ModestHalves(n, Leaf(Merged(n.entries, run[..c]), [], n.next), kind, cap, count);
    }
  }

  /** With fixed-width keys the number of merged entries alone decides. */
  lemma NarrowSplitTooWide(pages: Pages, root: PageId, g: Shape, kind: Kind, cap: nat, p: PageId, run: seq<Entry>)
    requires TreeInv(pages, root, g, {}, kind) && Fitting(pages, g, cap) && Bare(pages, g) && p in g.spans
    requires g.spans[p].level == 0
    requires Narrow(kind, cap) && KeysSorted(run) && (forall e :: e in run ==> KindOf(e.key) == kind)
    ensures p in pages && BatchLeaf(pages[p], run).Leaf?
    ensures SplitTooWide(pages, p, run, cap) <==>
              var m := |BatchLeaf(pages[p], run).entries|;
              cap < NODE_HEADER + EntryWidth(kind) * m <= 2 * cap && NODE_HEADER + EntryWidth(kind) * HalfUp(m) > cap
  {
    hide *;
    LeafPageOf(pages, root, g, kind, p);
    BareAt(pages, g, p);
    FitAt(pages, g, cap, p);
    var n := pages[p];
    if n.entries != [] {
      var c := RunCount(run, n.entries[0].key, n.entries[|n.entries| - 1].key);
      PrefixOf(run, c);
      MergedLeaf(n, p, g, kind, run[..c]);
    }
    NarrowBatch(pages, p, kind, cap, run);
  }

  lemma NarrowBatch(pages: Pages, p: PageId, kind: Kind, cap: nat, run: seq<Entry>)
    requires p in pages && pages[p].Leaf? && pages[p].payloads == [] && NodeKind(pages[p], kind)
    requires BodyLen(pages[p]) <= cap
    requires Narrow(kind, cap)
    requires pages[p].entries != [] ==>
               var c := RunCount(run, pages[p].entries[0].key, pages[p].entries[|pages[p].entries| - 1].key);
               NodeKind(Leaf(Merged(pages[p].entries, run[..c]), [], pages[p].next), kind)
    ensures BatchLeaf(pages[p], run).Leaf?
    ensures SplitTooWide(pages, p, run, cap) <==>
              var m := |BatchLeaf(pages[p], run).entries|;
              cap < NODE_HEADER + EntryWidth(kind) * m <= 2 * cap && NODE_HEADER + EntryWidth(kind) * HalfUp(m) > cap
  {
    var full := BatchLeaf(pages[p], run);
    hide Merged;
    hide RunCount;
    assert full.Leaf? && full.payloads == [] && NodeKind(full, kind);
    BareLeafLen(full, kind);
    BatchHalvesFit(full, NO_PAGE, kind, cap);
    hide BodyLen;
    hide NodeKind;
  }

  lemma {:induction false} MergedLength(old': seq<Entry>, new': seq<Entry>)
    ensures |Merged(old', new')| <= |old'| + |new'|
    decreases |old'| + |new'|
  {
    if old' != [] && new' != [] {
      if EntryLess(old'[0], new'[0]) {
        MergedLength(old'[1..], new');
      } else if old'[0] == new'[0] {
        MergedLength(old'[1..], new'[1..]);
      } else {
        MergedLength(old', new'[1..]);
      }
    }
  }

  lemma ModestHalves(n: Node, full: Node, kind: Kind, cap: nat, count: nat)
    requires n.Leaf? && n.payloads == [] && NodeKind(n, kind) && BodyLen(n) <= cap && Modest(kind, cap, count)
    requires full.Leaf? && full.payloads == [] && NodeKind(full, kind) && |full.entries| <= |n.entries| + count
    ensures !TooWide(full, cap)
  {
    BareLeafLen(n, kind);
    BatchHalvesFit(full, NO_PAGE, kind, cap);
    hide BodyLen;
    hide NodeKind;
    var w, room := EntryWidth(kind), cap - NODE_HEADER;
    ProductInside(w, |n.entries|, room);
    MulMono(w, HalfUp(|full.entries|), room / w);
    QuotientInside(w, room);
  }

  lemma ProductInside(w: nat, a: nat, room: nat)
    requires w > 0 && w * a <= room
    ensures a <= room / w
  {
    if a > room / w { MulMono(w, room / w + 1, a); }
  }

  lemma QuotientInside(w: nat, room: nat)
    requires w > 0
    ensures w * (room / w) <= room
  {
  }

  // ── edits keep nodes within their pages ────────────────────────────────────

  lemma {:induction false} SpliceLen(rows: seq<Row>, i: nat)
    requires i < |rows|
    ensures RowsLen(Splice(rows, i, [], i + 1)) <= RowsLen(rows)
  {
    if i == 0 {
      assert Splice(rows, 0, [], 1) == rows[1..];
    } else {
      assert Splice(rows, i, [], i + 1)[1..] == Splice(rows[1..], i - 1, [], i);
      SpliceLen(rows[1..], i - 1);
    }
  }

  lemma DropFits(pages: Pages, root: PageId, g: Shape, kind: Kind, cap: nat, p: PageId, i: nat)
    requires TreeInv(pages, root, g, {}, kind) && Fitting(pages, g, cap) && p in g.spans && g.spans[p].level == 0
    requires p in pages && pages[p].Leaf? && i < |pages[p].entries|
    ensures Fitting(pages[p := DropAt(pages[p], i)], g, cap)
  {
    hide *;
    LeafPageOf(pages, root, g, kind, p);
    FitAt(pages, g, cap, p);
    DropRows(pages[p], i);
    SpliceLen(LeafRows(pages[p]), i);
    LeafLen(pages[p]);
    DropIsLeaf(pages[p], i);
    LeafLen(DropAt(pages[p], i));
    FitWrite(pages, g, cap, p, DropAt(pages[p], i));
  }

  lemma LeafLen(n: Node)
    requires n.Leaf?
    ensures BodyLen(n) == NODE_HEADER + RowsLen(LeafRows(n))
  {
  }

  /** Nodes with the same keys and payloads are equally long. */
  lemma {:induction false} SameLen(rows: seq<Row>, rows': seq<Row>)
    requires |rows| == |rows'|
    requires forall i :: 0 <= i < |rows| ==> rows[i].key == rows'[i].key && rows[i].payload == rows'[i].payload
    ensures RowsLen(rows) == RowsLen(rows')
  {
    if rows != [] { SameLen(rows[1..], rows'[1..]); }
  }

  lemma EditFits(pages: Pages, g: Shape, cap: nat, p: PageId, n: Node)
    requires Fitting(pages, g, cap) && p in g.spans && p in pages && Edited(pages[p], n)
    ensures Fitting(pages[p := n], g, cap)
  {
    hide Fitting;
    FitAt(pages, g, cap, p);
    SameLen(LeafRows(pages[p]), LeafRows(n));
    FitWrite(pages, g, cap, p, n);
  }

  lemma SetFits(pages: Pages, g: Shape, cap: nat, p: PageId, i: nat, rid: RowId)
    requires Fitting(pages, g, cap) && p in g.spans && p in pages && pages[p].Leaf? && i < |pages[p].entries|
    ensures Fitting(pages[p := SetRid(pages[p], i, rid)], g, cap)
  {
    hide Fitting;
    hide BodyLen;
    hide LeafRows;
    assert Edited(pages[p], SetRid(pages[p], i, rid));
    EditFits(pages, g, cap, p, SetRid(pages[p], i, rid));
  }

  lemma PlainPair(n: Node, p: PageId, g: Shape)
    requires PlainLeaf(n, p, g) && |n.entries| >= 2
    ensures PlainToSplit(n, p, g)
  {
  }

  lemma PartialIntro(pages: Pages, root: PageId, g: Shape, kind: Kind, pend: set<PageId>, rows: seq<Row>,
                     least: set<Entry>, most: set<Entry>)
    requires TreeInv(pages, root, g, pend, kind) && Spells(pages, g, rows) && least <= PairSet(rows) <= most
    ensures Partial(pages, root, g, kind, least, most)
  {
    hide TreeInv;
    hide Spells;
    hide PairSet;
  }

  lemma PartialSame(pages: Pages, root: PageId, g: Shape, kind: Kind, rows: seq<Row>, most: set<Entry>)
    requires TreeInv(pages, root, g, {}, kind) && Spells(pages, g, rows) && PairSet(rows) <= most
    ensures Partial(pages, root, g, kind, PairSet(rows), most)
  {
    hide *;
    PartialIntro(pages, root, g, kind, {}, rows, PairSet(rows), most);
  }

  lemma EqDescends()
    ensures !FromLeft(Eq)
  {
  }

  lemma SortedEntries(entries: seq<Entry>, es: seq<Entry>)
    requires es == SortBy(entries, EntryLess)
    ensures KeysSorted(es) && AsSet(es) == AsSet(entries) && (forall e :: e in es <==> e in entries)
    ensures multiset(entries) == multiset(es)
  {
    EntriesOrdered();
    SortByOrder(entries, EntryLess);
    forall e ensures e in es <==> e in entries {
      assert e in es <==> e in multiset(es);
      assert e in entries <==> e in multiset(entries);
    }
  }

  ghost predicate Different(es: seq<Entry>) {
    forall i, j :: 0 <= i < j < |es| ==> es[i] != es[j]
  }

  /** Different entries in order ascend. */
  lemma DifferentAscends(entries: seq<Entry>, es: seq<Entry>)
    requires Different(entries) && es == SortBy(entries, EntryLess)
    ensures Ascending(es)
  {
    EntriesOrdered();
    SortByOrder(entries, EntryLess);
    hide EntryLess;
    forall i, j | 0 <= i < j < |es| ensures EntryLess(es[i], es[j]) {
      EntryTrichotomy(es[i], es[j]);
      if es[i] == es[j] { Twice(es, i, j); OnceCounted(entries, es[i]); }
    }
  }

  lemma OnceCounted(es: seq<Entry>, e: Entry)
    requires Different(es)
    ensures multiset(es)[e] <= 1
  {
    if e in es {
      var i :| 0 <= i < |es| && es[i] == e;
      assert es == es[..i] + [e] + es[i + 1..];
      assert multiset(es) == multiset(es[..i]) + multiset{e} + multiset(es[i + 1..]);
    }
  }

  lemma JoinRun(es: seq<Entry>, i: nat, done: nat)
    requires i + done <= |es|
    ensures AsSet(es[..i + done]) == AsSet(es[..i]) + AsSet(es[i..i + done])
  {
    assert es[..i + done] == es[..i] + es[i..i + done];
    SetConcat(es[..i], es[i..i + done]);
  }

  lemma RunFacts(es: seq<Entry>, i: nat, count: nat)
    requires i + count <= |es| && KeysSorted(es)
    ensures KeysSorted(es[i..i + count]) && AsSet(es[i..i + count]) <= AsSet(es)
    ensures forall e :: e in es[i..i + count] ==> e in es
    ensures count > 0 ==> es[i..i + count][0] == es[i] && es[i] in es
    ensures multiset(es[i..i + count]) <= multiset(es)
  {
    BagPart(es, i, i + count);
  }

  lemma RunAscends(es: seq<Entry>, i: nat, count: nat)
    requires i + count <= |es|
    ensures Ascending(es) ==> Ascending(es[i..i + count])
  {
    hide EntryLess;
  }

  lemma NeatAbsorbed(pages: Pages, p: PageId, n: Node, n': Node)
    requires Neat(pages) && p in pages && pages[p] == n && n.Leaf? && n'.Leaf?
    requires Ascending(n.entries) ==> Ascending(n'.entries)
    ensures Neat(pages[p := n'])
  {
    hide Ascending;
    NeatAt(pages, p);
    NeatWrite(pages, p, n');
  }

  lemma LandsInRange(t: DiskBTree, v: Key)
    requires t.Valid()
    ensures var p := LandingInsert(t.pages, t.root, t.Depth(), v);
            p in t.g.spans && t.g.spans[p].level == 0 && InRange(t.g, p, v)
  {
    OpenTree(t);
    hide *;
    RootInRange(t.pages, t.root, t.g, t.kind, v);
    LandsInRangeFrom(t.pages, t.root, t.g, t.kind, t.root, t.g.spans[t.root].level, v);
  }

  lemma {:induction false} LandsInRangeFrom(pages: Pages, root: PageId, g: Shape, kind: Kind, p: PageId, level: nat,
                                            v: Key)
    requires TreeInv(pages, root, g, {}, kind) && p in g.spans && g.spans[p].level == level && InRange(g, p, v)
    ensures var q := LandingInsert(pages, p, level, v); q in g.spans && g.spans[q].level == 0 && InRange(g, q, v)
    decreases level
  {
    hide TreeInv;
    hide InRange;
    LeafOrInner(pages, root, g, kind, p);
    if level > 0 {
      InnerPageOf(pages, root, g, kind, p);
      RouteStaysInRange(g, p, pages[p], v);
      LandsInRangeFrom(pages, root, g, kind, pages[p].children[RouteInsert(pages[p].keys, v)], level - 1, v);
    }
  }

  /**
    With exact separators an insert lands on the leaf a read lands on, or on one that
    starts with the very key; either way the key is between that leaf's keys.
   */
  lemma NeverMisses(pages: Pages, root: PageId, g: Shape, kind: Kind, p: PageId, n: Node, q: PageId, v: Key)
    requires TreeInv(pages, root, g, {}, kind) && Plain(pages, g)
    requires p in g.spans && g.spans[p].level == 0 && p in pages && pages[p] == n && LeafOk(n, p, g) && n.entries != []
    requires StartsBelow(g, p, v) && Between(v, n.entries[0].key, n.entries[|n.entries| - 1].key)
    requires q in g.spans && g.spans[q].level == 0 && InRange(g, q, v)
    ensures !Misses(pages, q, v)
  {
    if q != p {
      LeafPageOf(pages, root, g, kind, q);
      PlainAt(pages, g, q);
      hide TreeInv;
      hide Plain;
      BesideLeaf(g, p, n, q, v);
      SameKeyFirst(pages[q], q, g, v);
    }
  }

  lemma BesideLeaf(g: Shape, p: PageId, n: Node, q: PageId, v: Key)
    requires ShapeOk(g) && p in g.spans && q in g.spans && p != q && g.spans[p].level == g.spans[q].level
    requires LeafOk(n, p, g) && n.entries != [] && StartsBelow(g, p, v) && InRange(g, q, v)
    requires Between(v, n.entries[0].key, n.entries[|n.entries| - 1].key)
    ensures g.spans[q].a > 0.0 && g.fence[g.spans[q].a] == Rank(v)
  {
    EndsInside(g, p);
    EndsInside(g, q);
    ShapeOkParts(g);
    assert g.spans[p].b <= g.spans[q].a || g.spans[q].b <= g.spans[p].a;
    if g.spans[p].b <= g.spans[q].a {
      FenceBetween(g, p, q);
    } else {
      FenceBetween(g, q, p);
    }
  }

  lemma SameKeyFirst(n: Node, q: PageId, g: Shape, v: Key)
    requires PlainLeaf(n, q, g) && LeafOk(n, q, g) && g.spans[q].a > 0.0 && g.fence[g.spans[q].a] == Rank(v)
    ensures n.entries != [] && Between(v, n.entries[0].key, n.entries[|n.entries| - 1].key)
  {
  }

  /** Put entries into the leaf while they lie between its keys and fit. */
  method AbsorbRun(n: Node, es: seq<Entry>, i: nat, cap: nat, ghost p: PageId, ghost g: Shape, ghost kind: Kind)
    returns (n': Node, j: nat)
    requires i < |es| && LeafOk(n, p, g) && NodeKind(n, kind) && n.Leaf? && n.payloads == [] && n.entries != []
    requires forall e :: e in es ==> KindOf(e.key) == kind
    ensures i <= j <= |es| && Absorbed(n, n', p, g, kind, es[i..j]) && (BodyLen(n) <= cap ==> BodyLen(n') <= cap)
  {
    hide *;
    var min, max := n.entries[0].key, n.entries[|n.entries| - 1].key;
    n', j := n, i;
    var body := BodyLen(n);
    assert es[i..i] == [];
    AbsorbStart(n, p, g, kind);
    while j < |es|
      invariant i <= j <= |es| && Absorbed(n, n', p, g, kind, es[i..j]) && body == BodyLen(n') && n'.Leaf?
      invariant BodyLen(n) <= cap ==> body <= cap
    {
      var e := es[j];
      assert e in es && es[i..j] + [e] == es[i..j + 1];
      if !Between(e.key, min, max) { break; }
      BetweenInRange(n, p, g, e.key);
      var found, pos := BinarySearch(n'.entries, e);
      if found {
        AbsorbDuplicate(n, n', p, g, kind, es[i..j], e);
      } else {
        var added := KeyLen(e.key) + LENGTH_FIELD + ROWID_LEN;
        if body + added > cap { break; }
        AbsorbNew(n, n', p, g, kind, es[i..j], e, pos);
        AbsorbedParts(n, LeafInsert(n', pos, e, []), p, g, kind, es[i..j + 1]);
        n', body := LeafInsert(n', pos, e, []), body + added;
      }
      j := j + 1;
    }
  }

  // ── rows within limits ─────────────────────────────────────────────────────

  lemma LeafOrNode(n: Node)
    ensures n.Leaf? || n.Internal?
  {
  }

  /** The frames above the leaf are internal nodes within their pages, and within the limits of the pages. */
  lemma PathSlim(pages: Pages, root: PageId, g: Shape, kind: Kind, cap: nat, frames: seq<Frame>, lim: Limit)
    requires TreeInv(pages, root, g, {}, kind) && Path(pages, g, frames) && Fitting(pages, g, cap)
    requires Slender(pages, lim)
    ensures forall i :: 0 <= i < |frames| - 1 ==> FrameSlim(frames[i], lim, cap)
  {
    hide *;
    forall i | 0 <= i < |frames| - 1 ensures FrameSlim(frames[i], lim, cap) {
      PathLink(pages, g, frames, i);
      FitAt(pages, g, cap, frames[i].pid);
      SlimAt(pages, lim, frames[i].pid);
      InnerArity(pages, root, g, kind, frames[i].pid);
      FrameSlimIntro(frames[i], lim, cap);
    }
  }

  lemma PathLink(pages: Pages, g: Shape, frames: seq<Frame>, i: nat)
    requires Path(pages, g, frames) && i < |frames| - 1
    ensures frames[i].pid in g.spans && frames[i].pid in pages && pages[frames[i].pid] == frames[i].node
    ensures frames[i].node.Internal? && frames[i].route < |frames[i].node.children|
  {
    assert FrameOk(pages, g, frames[i]) && Linked(frames[i], frames[i + 1]);
  }

  lemma InnerArity(pages: Pages, root: PageId, g: Shape, kind: Kind, p: PageId)
    requires TreeInv(pages, root, g, {}, kind) && p in g.spans && p in pages && pages[p].Internal?
    ensures |pages[p].children| == |pages[p].keys| + 1
  {
    hide LeafOk;
    hide NodeKind;
    TreePage(pages, root, g, {}, kind, p);
  }

  lemma FrameSlimIntro(f: Frame, lim: Limit, cap: nat)
    requires f.node.Internal? && f.route < |f.node.children| && |f.node.children| == |f.node.keys| + 1
    requires NodeSlim(f.node, lim) && BodyLen(f.node) <= cap
    ensures FrameSlim(f, lim, cap)
  {
    hide NodeSlim;
    hide BodyLen;
  }

  lemma SplicedLen(rows: seq<Row>, pos: nat, row: Row)
    requires pos <= |rows|
    ensures RowsLen(rows[..pos] + [row] + rows[pos..]) == RowsLen(rows) + RowLen(row)
  {
    OneRow(row);
    hide RowsLen;
    var a, b := rows[..pos], rows[pos..];
    assert rows == a + b;
    RowsLenConcat(a, b);
    RowsLenConcat(a + [row], b);
    RowsLenConcat(a, [row]);
  }

  lemma OneRow(row: Row)
    ensures RowsLen([row]) == RowLen(row)
  {
    assert [row][1..] == [];
    assert RowsLen([row]) == RowLen(row) + RowsLen([]);
  }

  lemma SplicedSlim(rows: seq<Row>, pos: nat, row: Row, lim: Limit)
    requires pos <= |rows| && RowSlim(row, lim) && forall i :: 0 <= i < |rows| ==> RowSlim(rows[i], lim)
    ensures var rows' := rows[..pos] + [row] + rows[pos..]; forall i :: 0 <= i < |rows'| ==> RowSlim(rows'[i], lim)
  {
    hide RowSlim;
    var rows' := rows[..pos] + [row] + rows[pos..];
    forall i | 0 <= i < |rows'| ensures RowSlim(rows'[i], lim) {
      assert rows'[i] == if i < pos then rows[i] else if i == pos then row else rows[i - 1];
    }
  }

  lemma RowSlimLen(row: Row, lim: Limit)
    requires RowSlim(row, lim)
    ensures RowLen(row) <= lim.row
  {
  }

  lemma LeafSlimRows(n: Node, lim: Limit)
    requires n.Leaf?
    ensures NodeSlim(n, lim) <==> forall i :: 0 <= i < |LeafRows(n)| ==> RowSlim(LeafRows(n)[i], lim)
    ensures BodyLen(n) == NODE_HEADER + RowsLen(LeafRows(n))
  {
    hide RowSlim;
    hide RowsLen;
    var rows := RowsOf(n.entries, n.payloads);
    assert LeafRows(n) == rows;
    if NodeSlim(n, lim) {
      forall i | 0 <= i < |rows| ensures RowSlim(rows[i], lim) {
      }
    } else {
      var i :| 0 <= i < |rows| && !RowSlim(RowsOf(n.entries, n.payloads)[i], lim);
      assert !RowSlim(LeafRows(n)[i], lim);
    }
  }

  lemma SlimLeafInsert(n: Node, pos: nat, row: Row, lim: Limit, cap: nat)
    requires n.Leaf? && PayloadsAligned(n) && pos <= |n.entries| && NodeSlim(n, lim) && RowSlim(row, lim)
    requires BodyLen(n) <= cap
    ensures var full := LeafInsert(n, pos, Entry(row.key, row.rid), row.payload);
            full.Leaf? && PayloadsAligned(full) && NodeSlim(full, lim) && BodyLen(full) <= cap + lim.row
  {
    var e := Entry(row.key, row.rid);
    var full := LeafInsert(n, pos, e, row.payload);
    assert full.Leaf?;
    LeafInsertRows(n, pos, e, row.payload);
    hide *;
    LeafRowsOf(n);
    LeafRowsOf(full);
    LeafSlimRows(n, lim);
    LeafSlimRows(full, lim);
    SplicedSlim(LeafRows(n), pos, row, lim);
    SplicedLen(LeafRows(n), pos, row);
    RowSlimLen(row, lim);
  }

  lemma LeafRowsOf(n: Node)
    requires n.Leaf?
    ensures LeafRows(n) == RowsOf(n.entries, n.payloads) && |LeafRows(n)| == |n.entries|
  {
  }

  /** Inserting a row within the limits neither panics nor leaves them. */
  lemma InsertSlim(pages: Pages, root: PageId, g: Shape, kind: Kind, cap: nat, next: nat, frames: seq<Frame>, pos: nat,
                   row: Row, lim: Limit)
    requires TreeInv(pages, root, g, {}, kind) && Path(pages, g, frames) && Fitting(pages, g, cap) && frames != []
    requires Top(frames).node.Leaf? && IsInsertPos(Top(frames).node.entries, Entry(row.key, row.rid), pos)
    requires Slender(pages, lim) && RowSlim(row, lim) && Roomy(cap, lim, lim.row)
    ensures var full := LeafInsert(Top(frames).node, pos, Entry(row.key, row.rid), row.payload);
            && !PutLeaf(pages, frames, full, root, next, cap).end.Panicked?
            && Slender(PutLeaf(pages, frames, full, root, next, cap).pages, lim)
  {
    hide *;
    var f := Top(frames);
    PathTop(pages, g, frames);
    PathSlim(pages, root, g, kind, cap, frames, lim);
    LeafTop(pages, root, g, kind, frames);
    LeafParts(g, f.pid, f.node, kind);
    FitAt(pages, g, cap, f.pid);
    SlimAt(pages, lim, f.pid);
    PosInside(f.node.entries, Entry(row.key, row.rid), pos);
    SlimLeafInsert(f.node, pos, row, lim, cap);
    PutLeafNeverBursts(pages, frames, LeafInsert(f.node, pos, Entry(row.key, row.rid), row.payload), root, next, cap,
                       lim, lim.row);
  }

  lemma PairSlimRow(e: Entry, lim: Limit)
    ensures PairSlim(e, lim) <==> RowSlim(Row(e.key, e.rid, []), lim)
  {
    hide RowSlim;
  }

  lemma SlimFirst(pages: Pages, cap: nat, es: seq<Entry>, lim: Limit)
    requires Slim(pages, cap, es, lim) && es != []
    ensures Slim(pages, cap, [es[0]], lim)
  {
    hide *;
    assert es[0..1] == [es[0]];
    SlimPart(pages, cap, es, 0, 1, lim);
  }

  lemma TakeOne(b: seq<Entry>, i: nat)
    requires i < |b|
    ensures multiset(b) == multiset(b[..i] + b[i + 1..]) + multiset{b[i]}
    ensures RunLen(b) == RunLen(b[..i] + b[i + 1..]) + RunLen([b[i]])
  {
    hide RunLen;
    var l, r := b[..i], b[i + 1..];
    assert b == l + ([b[i]] + r);
    RunLenJoin(l, [b[i]] + r);
    RunLenJoin([b[i]], r);
    RunLenJoin(l, r);
  }

  /** The length of a run depends on its pairs only, not on their order. */
  lemma {:induction false} RunLenPerm(a: seq<Entry>, b: seq<Entry>)
    requires multiset(a) == multiset(b)
    ensures RunLen(a) == RunLen(b)
    decreases |a|
  {
    assert |multiset(a)| == |multiset(b)|;
    if a != [] {
      var k := |a| - 1;
      assert a[k] in multiset(b);
      var i :| 0 <= i < |b| && b[i] == a[k];
      TakeOne(a, k);
      TakeOne(b, i);
      assert a[..k] + a[k + 1..] == a[..k];
      hide RunLen;
      BagLess(multiset(a[..k]), multiset(b[..i] + b[i + 1..]), a[k]);
      RunLenPerm(a[..k], b[..i] + b[i + 1..]);
    }
  }

  lemma BagLess(x: multiset<Entry>, y: multiset<Entry>, e: Entry)
    requires x + multiset{e} == y + multiset{e}
    ensures x == y
  {
    forall k ensures x[k] == y[k] {
      assert (x + multiset{e})[k] == (y + multiset{e})[k];
    }
  }

  lemma SlimPerm(pages: Pages, cap: nat, a: seq<Entry>, b: seq<Entry>, lim: Limit)
    requires Slim(pages, cap, a, lim) && multiset(a) == multiset(b)
    ensures Slim(pages, cap, b, lim)
  {
    hide Slender;
    hide PairSlim;
    hide Roomy;
    RunLenPerm(a, b);
    hide RunLen;
    forall e | e in b ensures PairSlim(e, lim) {
      assert e in multiset(b);
      assert e in a;
    }
  }

  /** A run absorbed in place leaves the limits to none of the pages. */
  lemma AbsorbSlim(pages: Pages, cap: nat, p: PageId, n: Node, n': Node, es: seq<Entry>, i: nat, j: nat, lim: Limit)
    requires Slim(pages, cap, es, lim) && i <= j <= |es| && p in pages && pages[p] == n
    requires n.Leaf? && n.payloads == [] && n'.Leaf? && n'.payloads == []
    requires EntrySet(n') == EntrySet(n) + AsSet(es[i..j])
    ensures Slender(pages[p := n'], lim)
  {
    SlimParts(pages, cap, es, lim);
    SlimAt(pages, lim, p);
    BareSlim(n, lim);
    BareSlim(n', lim);
    hide Slim;
    hide Slender;
    hide NodeSlim;
    hide PairSlim;
    forall e | e in n'.entries ensures PairSlim(e, lim) {
      assert e in EntrySet(n');
    }
    SlimWrite(pages, lim, p, n');
  }

  lemma BareLen(es: seq<Entry>, next: PageId)
    ensures BodyLen(Leaf(es, [], next)) == NODE_HEADER + RunLen(es)
  {
    RowsRunLen(es);
  }

  lemma {:induction false} RowsRunLen(es: seq<Entry>)
    ensures RowsLen(RowsOf(es, [])) == RunLen(es)
  {
    if es != [] {
      var k := |es| - 1;
      RowsRunLen(es[..k]);
      var last := Row(es[k].key, es[k].rid, []);
      assert RowsOf(es, []) == RowsOf(es[..k], []) + [last];
      RowsLenConcat(RowsOf(es[..k], []), [last]);
      OneRow(last);
    }
  }

  lemma {:induction false} MergedLen(a: seq<Entry>, b: seq<Entry>)
    ensures RunLen(Merged(a, b)) <= RunLen(a) + RunLen(b)
    decreases |a| + |b|
  {
    hide RunLen;
    if a != [] && b != [] {
      assert a == [a[0]] + a[1..] && b == [b[0]] + b[1..];
      RunLenJoin([a[0]], a[1..]);
      RunLenJoin([b[0]], b[1..]);
      if EntryLess(a[0], b[0]) {
        MergedLen(a[1..], b);
        RunLenJoin([a[0]], Merged(a[1..], b));
      } else if a[0] == b[0] {
        MergedLen(a[1..], b[1..]);
        RunLenJoin([a[0]], Merged(a[1..], b[1..]));
      } else {
        MergedLen(a, b[1..]);
        RunLenJoin([b[0]], Merged(a, b[1..]));
      }
    }
  }

  /** A merged leaf is within the limits, and larger than its page by the run at most. */
  lemma MergedSlim(n: Node, run: seq<Entry>, full: Node, lim: Limit, cap: nat)
    requires n.Leaf? && n.payloads == [] && full == Leaf(Merged(n.entries, run), [], n.next) && BodyLen(n) <= cap
    requires NodeSlim(n, lim) && forall e :: e in run ==> PairSlim(e, lim)
    ensures PayloadsAligned(full) && NodeSlim(full, lim) && BodyLen(full) <= cap + RunLen(run)
  {
    BareSlim(n, lim);
    BareSlim(full, lim);
    MergedSet(n.entries, run);
    hide PairSlim;
    hide NodeSlim;
    forall e | e in full.entries ensures PairSlim(e, lim) {
      assert e in AsSet(full.entries);
    }
    MergedLen(n.entries, run);
    BareLen(n.entries, n.next);
    BareLen(full.entries, n.next);
    assert n == Leaf(n.entries, [], n.next);
  }

  /** Merging a run within the limits into its leaf neither panics nor leaves them. */
  lemma BatchSlim(pages: Pages, root: PageId, g: Shape, kind: Kind, cap: nat, next: nat, frames: seq<Frame>,
                  batch: seq<Entry>,
                  n: nat, full: Node, lim: Limit)
    requires TreeInv(pages, root, g, {}, kind) && Path(pages, g, frames) && Fitting(pages, g, cap) && frames != []
    requires Top(frames).node.Leaf? && Top(frames).node.payloads == [] && n <= |batch|
    requires full == Leaf(Merged(Top(frames).node.entries, batch[..n]), [], Top(frames).node.next)
    requires Slim(pages, cap, batch, lim)
    ensures !PutLeaf(pages, frames, full, root, next, cap).end.Panicked?
    ensures Slender(PutLeaf(pages, frames, full, root, next, cap).pages, lim)
  {
    hide *;
    var f := Top(frames);
    assert batch[0..n] == batch[..n];
    SlimParts(pages, cap, batch, lim);
    SlimPart(pages, cap, batch, 0, n, lim);
    SlimParts(pages, cap, batch[..n], lim);
    PathTop(pages, g, frames);
    PathSlim(pages, root, g, kind, cap, frames, lim);
    FitAt(pages, g, cap, f.pid);
    SlimAt(pages, lim, f.pid);
    MergedSlim(f.node, batch[..n], full, lim, cap);
    PutLeafNeverBursts(pages, frames, full, root, next, cap, lim, RunLen(batch[..n]));
  }
}
