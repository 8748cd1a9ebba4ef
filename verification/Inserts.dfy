/**
  What one insert knows on its way down and up: the path of latched frames, and the
  separator that climbs it. Here a single thread works alone, so at most its own page
  is pending.
 */
module Inserts {
  import opened Keys
  import opened Nodes
  import opened Shapes
  import opened Steps
  import opened Searches
  import opened Trees
  import opened Spelling
  import opened Crabbing
  import opened Sizes

  // ── the path down ──────────────────────────────────────────────────────────

  /** Snapshots of pages linked from parent to child, one level down at a time. */
  ghost predicate Path(pages: Pages, g: Shape, frames: seq<Frame>) {
    && frames != []
    && (forall i :: 0 <= i < |frames| ==> FrameOk(pages, g, frames[i]))
    && (forall i :: 0 <= i < |frames| - 1 ==> Linked(frames[i], frames[i + 1]))
    && (forall i :: 0 <= i < |frames| ==> g.spans[frames[i].pid].level + i == g.spans[frames[0].pid].level)
  }

  /** The path starts at the root, or below everything this insert can change. */
  ghost predicate Bottom(cap: nat, root: PageId, job: Job, meta: bool, frames: seq<Frame>) {
    frames != [] && if meta then frames[0].pid == root else InsertSafe(frames[0].node, job.key, |job.payload|, cap)
  }

  lemma PathTop(pages: Pages, g: Shape, frames: seq<Frame>)
    requires Path(pages, g, frames)
    ensures var f := Top(frames);
            f.pid in g.spans && f.pid in pages && pages[f.pid] == f.node && f == frames[|frames| - 1]
  {
    assert FrameOk(pages, g, frames[|frames| - 1]);
  }

  /** The path is the root alone at the start. */
  lemma PathRoot(pages: Pages, g: Shape, root: PageId)
    requires root in g.spans && root in pages
    ensures Path(pages, g, [Frame(root, pages[root], 0)])
  {
  }

  /** One step down: take the routed child as the new top, or as a path of its own. */
  lemma PathDown(pages: Pages, root: PageId, g: Shape, kind: Kind, job: Job, frames: seq<Frame>)
    requires TreeInv(pages, root, g, {}, kind) && Path(pages, g, frames) && Top(frames).node.Internal?
    requires InRange(g, Top(frames).pid, job.key)
    ensures var f := Top(frames);
            var idx := RouteInsert(f.node.keys, job.key);
            && idx < |f.node.children|
            && var child := f.node.children[idx];
               && child in g.spans && child in pages && InRange(g, child, job.key)
               && f.pid in g.spans && g.spans[child].level + 1 == g.spans[f.pid].level
               && Path(pages, g, frames[|frames| - 1 := f.(route := idx)] + [Frame(child, pages[child], 0)])
               && Path(pages, g, [Frame(child, pages[child], 0)])
  {
    var f := Top(frames);
    PathTop(pages, g, frames);
    InnerPageOf(pages, root, g, kind, f.pid);
    hide TreeInv;
    hide ShapeOk;
    var idx := RouteInsert(f.node.keys, job.key);
    RouteStaysInRange(g, f.pid, f.node, job.key);
    var child := f.node.children[idx];
    PathRoot(pages, g, child);
    PathPush(pages, g, frames, idx, Frame(child, pages[child], 0));
  }

  lemma InnerPageOf(pages: Pages, root: PageId, g: Shape, kind: Kind, p: PageId)
    requires TreeInv(pages, root, g, {}, kind) && p in g.spans && p in pages && pages[p].Internal?
    ensures g.spans[p].level > 0 && ChildrenOk(pages[p], p, g) && SpansOk(g) && g.spans.Keys <= pages.Keys
    ensures forall i :: 0 <= i < |pages[p].children| ==> g.spans[pages[p].children[i]].b == ChildEnd(pages[p], p, g, i)
  {
    hide TreeInv;
    TreePage(pages, root, g, {}, kind, p);
    ShapeParts(pages, root, g, {}, kind);
    NoPending(pages, root, g, kind, p);
  }

  lemma PathPush(pages: Pages, g: Shape, frames: seq<Frame>, idx: nat, f: Frame)
    requires Path(pages, g, frames) && FrameOk(pages, g, f)
    requires Linked(Top(frames).(route := idx), f) && g.spans[f.pid].level + 1 == g.spans[Top(frames).pid].level
    ensures Path(pages, g, frames[|frames| - 1 := Top(frames).(route := idx)] + [f])
  {
    var last := |frames| - 1;
    var frames' := frames[last := frames[last].(route := idx)] + [f];
    forall i | 0 <= i < |frames'| ensures FrameOk(pages, g, frames'[i]) {
      if i < |frames| { assert FrameOk(pages, g, frames[i]); }
    }
    forall i | 0 <= i < |frames'| - 1 ensures Linked(frames'[i], frames'[i + 1]) {
      if i < last { assert Linked(frames[i], frames[i + 1]); }
    }
    forall i | 0 <= i < |frames'| ensures g.spans[frames'[i].pid].level + i == g.spans[frames'[0].pid].level {
      if i < |frames| { assert frames'[i].pid == frames[i].pid; }
      assert g.spans[frames[last].pid].level + last == g.spans[frames[0].pid].level;
    }
  }

  /** Rewriting the top page leaves the frames above it true. */
  lemma PathUp(pages: Pages, pages': Pages, g: Shape, g': Shape, frames: seq<Frame>)
    requires Path(pages, g, frames) && |frames| > 1 && Extends(g, g')
    requires forall x :: x in pages && x in g.spans && x != Top(frames).pid ==> x in pages' && pages'[x] == pages[x]
    ensures Path(pages', g', frames[..|frames| - 1])
    ensures Linked(frames[|frames| - 2], Top(frames))
    ensures frames[|frames| - 2].pid in g.spans && frames[|frames| - 2].pid in pages
    ensures frames[|frames| - 2].pid != Top(frames).pid
    ensures pages[frames[|frames| - 2].pid] == frames[|frames| - 2].node
    ensures Top(frames).pid in g.spans && g.spans[frames[|frames| - 2].pid].level == g.spans[Top(frames).pid].level + 1
  {
    var last := |frames| - 1;
    var up := frames[..last];
    forall i | 0 <= i < last
      ensures FrameOk(pages', g', up[i]) && frames[i].pid != frames[last].pid
      ensures g'.spans[up[i].pid].level == g.spans[frames[i].pid].level
    {
      assert FrameOk(pages, g, frames[i]) && FrameOk(pages, g, frames[last]);
      assert g.spans[frames[i].pid].level + i == g.spans[frames[last].pid].level + last;
    }
    forall i | 0 <= i < |up| - 1 ensures Linked(up[i], up[i + 1]) {
      assert Linked(frames[i], frames[i + 1]);
    }
    assert Linked(frames[last - 1], frames[last]);
    assert FrameOk(pages, g, frames[last - 1]);
    assert g.spans[frames[last - 1].pid].level + (last - 1) == g.spans[frames[last].pid].level + last;
  }

  // ── the climb ──────────────────────────────────────────────────────────────

  /** The separator `sep` is to be put into the top frame, or becomes the key of a new root. */
  ghost predicate Climbing(c: Config, pages: Pages, root: PageId, g: Shape, job: Job, meta: bool, frames: seq<Frame>,
                           sep: Sep) {
    if frames == [] then RootWaiting(c, root, root, g, {sep.child}, sep)
    else
      && Path(pages, g, frames) && Bottom(c.cap, root, job, meta, frames) && Top(frames).node.Internal?
      && Waiting(g, {sep.child}, c.kind, Top(frames).pid, Top(frames).node, Top(frames).route, sep.key, sep.child)
  }

  lemma ClimbingParts(c: Config, pages: Pages, root: PageId, g: Shape, job: Job, meta: bool, frames: seq<Frame>,
                      sep: Sep)
    requires Climbing(c, pages, root, g, job, meta, frames, sep) && frames != []
    ensures Path(pages, g, frames) && Bottom(c.cap, root, job, meta, frames) && Top(frames).node.Internal?
    ensures Waiting(g, {sep.child}, c.kind, Top(frames).pid, Top(frames).node, Top(frames).route, sep.key, sep.child)
  {
    hide Path;
    hide Bottom;
    hide Waiting;
  }

  /** After page `Top(frames)` was split the separator waits one frame higher. */
  lemma ClimbUp(c: Config, pages: Pages, pages': Pages, root: PageId, g: Shape, g': Shape, job: Job, meta: bool,
                frames: seq<Frame>, sep: Sep)
    requires frames != [] && Path(pages, g, frames) && Bottom(c.cap, root, job, meta, frames)
    requires |frames| == 1 ==> meta
    requires sep.child in g'.spans && Cut(g, g', Top(frames).pid, sep.child, g'.spans[sep.child].a)
    requires Rose(g', sep.child, sep.key, c.kind)
    requires forall x :: x in pages && x in g.spans && x != Top(frames).pid ==> x in pages' && pages'[x] == pages[x]
    requires |frames| == 1 ==> root in g.spans && g.spans[root].b == 1.0
    requires |frames| > 1 ==>
               var f := frames[|frames| - 2];
               && ChildrenOk(f.node, f.pid, g) && f.route < |f.node.children|
               && f.node.children[f.route] == Top(frames).pid
               && g.spans[Top(frames).pid].b == ChildEnd(f.node, f.pid, g, f.route)
    ensures Climbing(c, pages', root, g', job, meta, frames[..|frames| - 1], sep)
  {
    hide *;
    CutExtends(g, g', Top(frames).pid, sep.child, g'.spans[sep.child].a);
    TopIsLast(frames);
    if |frames| == 1 {
      BottomParts(c.cap, root, job, meta, frames);
      RoseRootWaiting(c, root, g, g', sep);
      ClimbRootIntro(c, pages', root, g', job, meta, frames, sep);
    } else {
      var f := frames[|frames| - 2];
      PathUp(pages, pages', g, g', frames);
      CutFills(g, g', Top(frames).pid, sep.child, g'.spans[sep.child].a, f.pid, f.node, f.route);
      RoseWaits(c, g', f.pid, f.node, f.route, sep);
      LinkedInner(f, Top(frames));
      BottomUp(c.cap, root, job, meta, frames);
      ClimbIntro(c, pages', root, g', job, meta, frames[..|frames| - 1], sep, f);
    }
  }

  lemma TopIsLast(frames: seq<Frame>)
    requires frames != []
    ensures Top(frames) == frames[|frames| - 1]
  {
  }

  lemma BottomParts(cap: nat, root: PageId, job: Job, meta: bool, frames: seq<Frame>)
    requires Bottom(cap, root, job, meta, frames)
    ensures frames != [] && (meta ==> frames[0].pid == root)
    ensures !meta ==> InsertSafe(frames[0].node, job.key, |job.payload|, cap)
  {
    hide InsertSafe;
  }

  lemma BottomUp(cap: nat, root: PageId, job: Job, meta: bool, frames: seq<Frame>)
    requires Bottom(cap, root, job, meta, frames) && |frames| > 1
    ensures Bottom(cap, root, job, meta, frames[..|frames| - 1])
  {
    hide InsertSafe;
  }

  lemma RoseRootWaiting(c: Config, root: PageId, g: Shape, g': Shape, sep: Sep)
    requires root in g.spans && g.spans[root].b == 1.0 && sep.child in g'.spans
    requires Cut(g, g', root, sep.child, g'.spans[sep.child].a) && Rose(g', sep.child, sep.key, c.kind)
    ensures RootWaiting(c, root, root, g', {sep.child}, sep)
  {
  }

  lemma ClimbRootIntro(c: Config, pages: Pages, root: PageId, g: Shape, job: Job, meta: bool, frames: seq<Frame>,
                       sep: Sep)
    requires RootWaiting(c, root, root, g, {sep.child}, sep) && |frames| == 1
    ensures Climbing(c, pages, root, g, job, meta, frames[..|frames| - 1], sep)
  {
    hide RootWaiting;
  }

  lemma RoseWaits(c: Config, g: Shape, p: PageId, n: Node, at: nat, sep: Sep)
    requires Rose(g, sep.child, sep.key, c.kind) && Fills(g, p, n, at, sep.child)
    ensures Waiting(g, {sep.child}, c.kind, p, n, at, sep.key, sep.child)
  {
  }

  lemma LinkedInner(f: Frame, f': Frame)
    requires Linked(f, f')
    ensures f.node.Internal? && f.route < |f.node.children| && f.node.children[f.route] == f'.pid
  {
  }

  lemma ClimbIntro(c: Config, pages: Pages, root: PageId, g: Shape, job: Job, meta: bool, frames: seq<Frame>, sep: Sep,
                   f: Frame)
    requires frames != [] && f == frames[|frames| - 1] && f.node.Internal?
    requires Path(pages, g, frames) && Bottom(c.cap, root, job, meta, frames)
    requires Waiting(g, {sep.child}, c.kind, f.pid, f.node, f.route, sep.key, sep.child)
    ensures Climbing(c, pages, root, g, job, meta, frames, sep)
  {
    hide Path;
    hide Bottom;
    hide Waiting;
  }

  // ── with one page pending, nothing else is open ────────────────────────────

  /** The only gap below a node that waits for `q` is the one `q` fills. */
  lemma OneGap(pages: Pages, root: PageId, g: Shape, kind: Kind, p: PageId, at: nat, sep: Key, q: PageId)
    requires TreeInv(pages, root, g, {q}, kind) && p in g.spans && g.spans[p].level > 0
    requires p in pages && Waiting(g, {q}, kind, p, pages[p], at, sep, q)
    ensures ChildrenOk(pages[p], p, g) && OnlyGapAt(pages[p], p, g, at)
    ensures p != q && NoGapAfter(g, {q}, p) && g.spans[q].level < g.spans[p].level
  {
    hide TreeInv;
    TreePage(pages, root, g, {q}, kind, p);
    WaitingParts(g, {q}, kind, p, pages[p], at, sep, q);
    var n := pages[p];
    forall i | 0 <= i < |n.children| && i != at ensures g.spans[n.children[i]].b == ChildEnd(n, p, g, i) {
      assert Tiled(n, p, g, {q}, i);
    }
  }

  /** A node whose level differs from that of the one pending page has no gap right below or beside it. */
  lemma ParentClosed(pages: Pages, root: PageId, g: Shape, kind: Kind, f: Frame, child: PageId, pend: set<PageId>)
    requires TreeInv(pages, root, g, pend, kind) && f.pid in g.spans && f.pid in pages && pages[f.pid] == f.node
    requires f.node.Internal? && f.route < |f.node.children| && f.node.children[f.route] == child
    requires forall q :: q in pend && q in g.spans ==> g.spans[q].level + 1 < g.spans[f.pid].level
    ensures ChildrenOk(f.node, f.pid, g) && child in g.spans && g.spans[child].b == ChildEnd(f.node, f.pid, g, f.route)
  {
    hide TreeInv;
    TreePage(pages, root, g, pend, kind, f.pid);
    assert Tiled(f.node, f.pid, g, pend, f.route);
  }

  lemma RootClosed(pages: Pages, root: PageId, g: Shape, kind: Kind, pend: set<PageId>)
    requires TreeInv(pages, root, g, pend, kind)
    requires root in g.spans && forall q :: q in pend && q in g.spans ==> g.spans[q].level < g.spans[root].level
    ensures g.spans[root].b == 1.0
  {
    ShapeParts(pages, root, g, pend, kind);
    hide TreeInv;
  }

  /** Where the split of `Top(frames)` hands its separator to. */
  lemma SplitHandsUp(c: Config, pages: Pages, pages': Pages, root: PageId, g: Shape, g': Shape, pend: set<PageId>,
                     job: Job, meta: bool, frames: seq<Frame>, sep: Sep)
    requires TreeInv(pages, root, g, pend, c.kind)
    requires frames != [] && Path(pages, g, frames) && Bottom(c.cap, root, job, meta, frames)
    requires |frames| == 1 ==> meta
    requires forall q :: q in pend && q in g.spans && Top(frames).pid in g.spans ==>
               g.spans[q].level < g.spans[Top(frames).pid].level
    requires sep.child in g'.spans && Cut(g, g', Top(frames).pid, sep.child, g'.spans[sep.child].a)
    requires Rose(g', sep.child, sep.key, c.kind)
    requires forall x :: x in pages && x in g.spans && x != Top(frames).pid ==> x in pages' && pages'[x] == pages[x]
    ensures Climbing(c, pages', root, g', job, meta, frames[..|frames| - 1], sep)
  {
    hide *;
    PathTop(pages, g, frames);
    ShapeParts(pages, root, g, pend, c.kind);
    CutExtends(g, g', Top(frames).pid, sep.child, g'.spans[sep.child].a);
    if |frames| == 1 {
      BottomParts(c.cap, root, job, meta, frames);
      RootClosed(pages, root, g, c.kind, pend);
    } else {
      PathUp(pages, pages', g, g', frames);
      LinkedInner(frames[|frames| - 2], Top(frames));
      ParentClosed(pages, root, g, c.kind, frames[|frames| - 2], Top(frames).pid, pend);
    }
    ClimbUp(c, pages, pages', root, g, g', job, meta, frames, sep);
  }

  // ── a split reaches the top only at the root ───────────────────────────────

  lemma LeafRooted(c: Config, root: PageId, g: Shape, job: Job, meta: bool, frames: seq<Frame>, pos: nat, full: Node)
    requires Bottom(c.cap, root, job, meta, frames) && LeafOk(Top(frames).node, Top(frames).pid, g)
    requires IsInsertPos(Top(frames).node.entries, EntryOf(job), pos)
    requires full == LeafInsert(Top(frames).node, pos, EntryOf(job), job.payload) && BodyLen(full) > c.cap
    ensures (|frames| == 1 ==> meta) && full.Leaf? && full.entries != []
  {
    hide BodyLen;
    hide InsertSafe;
    hide EntryLess;
    if |frames| == 1 && !meta {
      SafeLeafFits(frames[0].node, pos, EntryOf(job), job.payload, c.cap);
    }
  }

  lemma InnerRooted(c: Config, root: PageId, g: Shape, job: Job, meta: bool, frames: seq<Frame>, sep: Sep, full: Node)
    requires Bottom(c.cap, root, job, meta, frames) && Top(frames).node.Internal?
    requires ChildrenOk(Top(frames).node, Top(frames).pid, g) && NodeKind(Top(frames).node, c.kind)
    requires Fills(g, Top(frames).pid, Top(frames).node, Top(frames).route, sep.child) && KindOf(sep.key) == c.kind
    requires full == InternalInsert(Top(frames).node, Top(frames).route, sep.key, sep.child) && BodyLen(full) > c.cap
    ensures (|frames| == 1 ==> meta) && Branching(full)
  {
    hide BodyLen;
    ChildrenParts(Top(frames).node, Top(frames).pid, g);
    if |frames| == 1 && !meta {
      SafeInternalFits(frames[0].node, frames[0].route, sep.key, sep.child, job.key, |job.payload|, c.cap);
    }
  }

  // ── trees without payloads whose separators are exact ──────────────────────

  /** A leaf without payloads that starts with its separator, unless it is the leftmost. */
  ghost predicate PlainLeaf(n: Node, p: PageId, g: Shape) {
    && n.Leaf? && n.payloads == [] && p in g.spans && g.spans[p].a in g.fence
    && (g.spans[p].a > 0.0 ==> n.entries != [] && g.fence[g.spans[p].a] == Rank(n.entries[0].key))
  }

  /** A leaf both of whose halves are plain. */
  ghost predicate PlainToSplit(n: Node, p: PageId, g: Shape) {
    PlainLeaf(n, p, g) && (g.spans[p].a > 0.0 ==> |n.entries| >= 2)
  }

  /** No payloads, and every separator is the least key of the subtree to its right. */
  ghost predicate Plain(pages: Pages, g: Shape) {
    forall p :: p in g.spans && p in pages && g.spans[p].level == 0 ==> PlainLeaf(pages[p], p, g)
  }

  ghost predicate Bare(pages: Pages, g: Shape) {
    forall p :: p in g.spans && p in pages && g.spans[p].level == 0 ==> pages[p].Leaf? && pages[p].payloads == []
  }

  lemma PlainIsBare(pages: Pages, g: Shape)
    requires Plain(pages, g)
    ensures Bare(pages, g)
  {
    forall p | p in g.spans && p in pages && g.spans[p].level == 0 ensures pages[p].Leaf? && pages[p].payloads == [] {
      assert PlainLeaf(pages[p], p, g);
    }
  }

  /** Writes that touch no leaf and cut none keep the tree plain. */
  lemma PlainInner(pages: Pages, pages': Pages, g: Shape, g': Shape)
    requires Plain(pages, g) && Extends(g, g') && g.spans.Keys <= pages.Keys
    requires forall p :: p in g.spans && g.spans[p].level == 0 ==>
               p in g'.spans && g'.spans[p] == g.spans[p] && p in pages' && pages'[p] == pages[p]
    requires forall p :: p in g'.spans && g'.spans[p].level == 0 ==> p in g.spans
    ensures Plain(pages', g')
  {
    forall p | p in g'.spans && p in pages' && g'.spans[p].level == 0 ensures PlainLeaf(pages'[p], p, g') {
      assert PlainLeaf(pages[p], p, g);
    }
  }

  lemma PlainAt(pages: Pages, g: Shape, p: PageId)
    requires Plain(pages, g) && p in g.spans && p in pages && g.spans[p].level == 0
    ensures PlainLeaf(pages[p], p, g)
  {
    hide PlainLeaf;
  }

  lemma PlainWrite(pages: Pages, g: Shape, p: PageId, n: Node)
    requires Plain(pages, g) && PlainLeaf(n, p, g)
    ensures Plain(pages[p := n], g)
  {
    hide PlainLeaf;
  }

  /** Adding an entry at or above the separator leaves it the least key. */
  lemma PlainGrow(n: Node, p: PageId, g: Shape, pos: nat, e: Entry)
    requires PlainLeaf(n, p, g) && LeafOk(n, p, g) && InRange(g, p, e.key) && IsInsertPos(n.entries, e, pos)
    ensures PlainLeaf(LeafInsert(n, pos, e, []), p, g) && PlainToSplit(LeafInsert(n, pos, e, []), p, g)
  {
    hide EntryLess;
    if pos == 0 && n.entries != [] { assert EntryLess(e, n.entries[0]); }
  }

  lemma PlainHalves(pages: Pages, pages': Pages, g: Shape, g': Shape, p: PageId, r: PageId, full: Node, kind: Kind)
    requires Plain(pages, g) && PlainToSplit(full, p, g) && full.entries != []
    requires g.spans[p].level == 0 && r in g'.spans && Cut(g, g', p, r, g'.spans[r].a)
    requires Rose(g', r, LeafSep(full), kind)
    requires pages' == pages[r := LeafRight(full)][p := LeafLeft(full, r)] && g.spans.Keys <= pages.Keys
    ensures Plain(pages', g')
  {
    forall x | x in g'.spans && x in pages' && g'.spans[x].level == 0 ensures PlainLeaf(pages'[x], x, g') {
      if x != p && x != r { assert PlainLeaf(pages[x], x, g); }
    }
  }

  lemma GrownLeaves(g: Shape, root: PageId, top: PageId)
    requires root in g.spans
    ensures forall p :: p in GrownShape(g, root, top).spans && GrownShape(g, root, top).spans[p].level == 0 ==>
              p in g.spans
  {
  }

  lemma CutLeaves(g: Shape, g': Shape, p: PageId, q: PageId, m: real)
    requires Cut(g, g', p, q, m) && g.spans[p].level > 0
    ensures forall x :: x in g'.spans && g'.spans[x].level == 0 ==> x in g.spans
  {
  }

  lemma ExtendsSelf(g: Shape)
    ensures Extends(g, g)
  {
  }

  // ── trees all of whose nodes fit their pages ───────────────────────────────

  /** Every node of the tree fits its page. */
  ghost predicate Fitting(pages: Pages, g: Shape, cap: nat) {
    forall p :: p in g.spans && p in pages ==> BodyLen(pages[p]) <= cap
  }

  /** Fixed-width keys on pages of at least the smallest size. */
  predicate Narrow(kind: Kind, cap: nat) {
    FixedWidth(kind) && cap >= MIN_PAGE - PAGE_HEADER
  }

  lemma FitWrite(pages: Pages, g: Shape, cap: nat, p: PageId, n: Node)
    requires Fitting(pages, g, cap) && BodyLen(n) <= cap
    ensures Fitting(pages[p := n], g, cap)
  {
    hide BodyLen;
  }

  lemma FitCut(pages: Pages, g: Shape, g': Shape, cap: nat, p: PageId, r: PageId, m: real, left: Node, right: Node)
    requires Fitting(pages, g, cap) && BodyLen(left) <= cap && BodyLen(right) <= cap && Cut(g, g', p, r, m)
    ensures Fitting(pages[r := right][p := left], g', cap)
  {
    hide BodyLen;
  }

  lemma FitTop(pages: Pages, g: Shape, cap: nat, root: PageId, n: Node, top: PageId)
    requires Fitting(pages, g, cap) && BodyLen(n) <= cap && root in g.spans
    ensures Fitting(pages[top := n], GrownShape(g, root, top), cap)
  {
    hide BodyLen;
  }

  lemma NarrowTop(kind: Kind, cap: nat, root: PageId, sep: Sep)
    requires Narrow(kind, cap) && KindOf(sep.key) == kind
    ensures BodyLen(Internal([sep.key], [root, sep.child])) <= cap
  {
    InnerLen(Internal([sep.key], [root, sep.child]), kind);
  }

  lemma FitAt(pages: Pages, g: Shape, cap: nat, p: PageId)
    requires Fitting(pages, g, cap) && p in g.spans && p in pages
    ensures BodyLen(pages[p]) <= cap
  {
    hide BodyLen;
  }

  /** An internal node that fitted before it took one separator splits into nodes that fit. */
  lemma NarrowInnerHalves(n: Node, at: nat, sep: Sep, kind: Kind, cap: nat)
    requires n.Internal? && at <= |n.keys| && |n.children| == |n.keys| + 1 && NodeKind(n, kind)
    requires KindOf(sep.key) == kind
    requires Narrow(kind, cap) && BodyLen(n) <= cap
    ensures var full := InternalInsert(n, at, sep.key, sep.child);
            BodyLen(InternalLeft(full)) <= cap && BodyLen(InternalRight(full)) <= cap
  {
    var full := InternalInsert(n, at, sep.key, sep.child);
    InnerLen(n, kind);
    KindInsert(n, at, sep.key, sep.child, kind);
    InnerHalvesFit(full, kind, cap, |n.keys|);
  }

  /** One of the halves of a leaf is larger than its page; the source panics writing it. */
  predicate TooWide(full: Node, cap: nat) {
    full.Leaf? && (BodyLen(LeafRight(full)) > cap || BodyLen(LeafLeft(full, NO_PAGE)) > cap)
  }

  lemma TooWideIs(full: Node, cap: nat, r: PageId)
    requires full.Leaf?
    ensures TooWide(full, cap) <==> BodyLen(LeafRight(full)) > cap || BodyLen(LeafLeft(full, r)) > cap
  {
  }

  /** A leaf of fixed-width keys that fitted before it took one entry splits into leaves that fit. */
  lemma NarrowLeafHalves(n: Node, pos: nat, e: Entry, kind: Kind, cap: nat)
    requires n.Leaf? && n.payloads == [] && pos <= |n.entries| && NodeKind(n, kind) && KindOf(e.key) == kind
    requires Narrow(kind, cap) && BodyLen(n) <= cap && NodeKind(LeafInsert(n, pos, e, []), kind)
    ensures !TooWide(LeafInsert(n, pos, e, []), cap)
  {
    var full := LeafInsert(n, pos, e, []);
    BareLeafLen(n, kind);
    LeafHalvesFit(full, NO_PAGE, kind, cap, |n.entries|);
  }

  /** Writes that touch no leaf leave the tree payload-free. */
  lemma BareInner(pages: Pages, pages': Pages, g: Shape, g': Shape)
    requires Bare(pages, g) && g.spans.Keys <= pages.Keys
    requires forall p :: p in g.spans && g.spans[p].level == 0 ==> p in pages' && pages'[p] == pages[p]
    requires forall p :: p in g'.spans && g'.spans[p].level == 0 ==> p in g.spans && g.spans[p].level == 0
    ensures Bare(pages', g')
  {
  }

  lemma BareCut(pages: Pages, g: Shape, g': Shape, p: PageId, r: PageId, m: real, left: Node, right: Node)
    requires Bare(pages, g) && left.Leaf? && right.Leaf? && left.payloads == [] && right.payloads == []
    requires Cut(g, g', p, r, m)
    ensures Bare(pages[r := right][p := left], g')
  {
  }

  lemma BareWrite(pages: Pages, g: Shape, p: PageId, n: Node)
    requires Bare(pages, g) && n.Leaf? && n.payloads == []
    ensures Bare(pages[p := n], g)
  {
  }

  lemma BareHalvesOf(full: Node, r: PageId)
    requires full.Leaf? && full.payloads == []
    ensures LeafLeft(full, r).Leaf? && LeafRight(full).Leaf? && LeafLeft(full, r).payloads == []
    ensures LeafRight(full).payloads == []
  {
  }

  // ── the page writes, with what they do to the rows ─────────────────────────

  lemma PathOutside(pages: Pages, g: Shape, frames: seq<Frame>, r: PageId, n: Node)
    requires Path(pages, g, frames) && r !in g.spans
    ensures Path(pages[r := n], g, frames)
  {
    forall i | 0 <= i < |frames| ensures FrameOk(pages[r := n], g, frames[i]) {
      assert FrameOk(pages, g, frames[i]);
    }
  }

  /** What the top of a climb is. */
  lemma ClimbTop(c: Config, pages: Pages, root: PageId, g: Shape, job: Job, meta: bool, frames: seq<Frame>, sep: Sep)
    requires TreeInv(pages, root, g, {sep.child}, c.kind) && frames != []
    requires Climbing(c, pages, root, g, job, meta, frames, sep)
    ensures var f := Top(frames);
            && f.pid in g.spans && f.pid in pages && pages[f.pid] == f.node && f.node.Internal?
            && g.spans[f.pid].level > 0
            && ChildrenOk(f.node, f.pid, g) && NodeKind(f.node, c.kind)
            && Waiting(g, {sep.child}, c.kind, f.pid, f.node, f.route, sep.key, sep.child)
            && Path(pages, g, frames) && Bottom(c.cap, root, job, meta, frames)
            && ShapeOk(g) && g.spans.Keys <= pages.Keys
  {
    hide *;
    ClimbingParts(c, pages, root, g, job, meta, frames, sep);
    PathTop(pages, g, frames);
    InnerLevel(pages, root, g, {sep.child}, c.kind, Top(frames).pid);
    TreePage(pages, root, g, {sep.child}, c.kind, Top(frames).pid);
    ShapeParts(pages, root, g, {sep.child}, c.kind);
  }

  lemma InnerLevel(pages: Pages, root: PageId, g: Shape, pend: set<PageId>, kind: Kind, p: PageId)
    requires TreeInv(pages, root, g, pend, kind) && p in g.spans && p in pages
    ensures pages[p].Internal? <==> g.spans[p].level > 0
  {
    hide TreeInv;
    TreePage(pages, root, g, pend, kind, p);
  }

  /** The parent has room: the separator goes in and nothing is pending any more. */
  lemma AbsorbWrite(c: Config, pages: Pages, root: PageId, g: Shape, job: Job, meta: bool, frames: seq<Frame>, sep: Sep,
                    rows: seq<Row>)
    requires TreeInv(pages, root, g, {sep.child}, c.kind) && frames != [] && Spells(pages, g, rows)
    requires Climbing(c, pages, root, g, job, meta, frames, sep)
    ensures var f := Top(frames);
            var pages' := pages[f.pid := InternalInsert(f.node, f.route, sep.key, sep.child)];
            && f.pid in pages && TreeInv(pages', root, g, {}, c.kind) && Spells(pages', g, rows)
            && (Plain(pages, g) ==> Plain(pages', g))
            && (Bare(pages, g) ==> Bare(pages', g))
            && (Fitting(pages, g, c.cap) && BodyLen(InternalInsert(f.node, f.route, sep.key, sep.child)) <= c.cap ==>
                  Fitting(pages', g, c.cap))
  {
    hide *;
    ClimbTop(c, pages, root, g, job, meta, frames, sep);
    var f := Top(frames);
    AbsorbedInner(f.node, f.route, sep);
    if Fitting(pages, g, c.cap) && BodyLen(InternalInsert(f.node, f.route, sep.key, sep.child)) <= c.cap {
      FitWrite(pages, g, c.cap, f.pid, InternalInsert(f.node, f.route, sep.key, sep.child));
    }
    WriteParent(pages, root, g, {sep.child}, c.kind, f.pid, f.route, sep.key, sep.child);
    assert {sep.child} - {sep.child} == {};
    SpellsInner(pages, pages[f.pid := InternalInsert(f.node, f.route, sep.key, sep.child)], g, g, rows);
    ExtendsSelf(g);
    if Plain(pages, g) { PlainInner(pages, pages[f.pid := InternalInsert(f.node, f.route, sep.key, sep.child)], g, g); }
    if Bare(pages, g) { BareInner(pages, pages[f.pid := InternalInsert(f.node, f.route, sep.key, sep.child)], g, g); }
  }

  lemma AbsorbedInner(n: Node, at: nat, sep: Sep)
    requires n.Internal?
    ensures InternalInsert(n, at, sep.key, sep.child).Internal?
  {
  }

  lemma CutAbove(g: Shape, g': Shape, p: PageId, q: PageId, m: real)
    requires Cut(g, g', p, q, m) && g.spans[p].level > 0
    ensures forall x :: x in g.spans && g.spans[x].level == 0 ==> x in g'.spans && g'.spans[x] == g.spans[x]
  {
  }

  /** The parent splits: the separator of the split climbs on. */
  lemma InnerSplitWrite(c: Config, pages: Pages, root: PageId, g: Shape, job: Job, meta: bool, frames: seq<Frame>,
                        sep: Sep,
                        full: Node, r: PageId, rows: seq<Row>) returns (g': Shape)
    requires TreeInv(pages, root, g, {sep.child}, c.kind) && frames != [] && Spells(pages, g, rows)
    requires Climbing(c, pages, root, g, job, meta, frames, sep)
    requires full == InternalInsert(Top(frames).node, Top(frames).route, sep.key, sep.child) && BodyLen(full) > c.cap
    requires r !in pages && r != NO_PAGE
    ensures var pages' := pages[r := InternalRight(full)][Top(frames).pid := InternalLeft(full)];
            && TreeInv(pages', root, g', {r}, c.kind) && Spells(pages', g', rows)
            && Climbing(c, pages', root, g', job, meta, frames[..|frames| - 1], Sep(InternalSep(full), r))
            && pages'.Keys == pages.Keys + {r} && (Plain(pages, g) ==> Plain(pages', g'))
            && (Bare(pages, g) ==> Bare(pages', g'))
            && (Fitting(pages, g, c.cap) && BodyLen(InternalLeft(full)) <= c.cap
                && BodyLen(InternalRight(full)) <= c.cap ==>
                  Fitting(pages', g', c.cap))
  {
    hide *;
    var q := sep.child;
    ClimbTop(c, pages, root, g, job, meta, frames, sep);
    var f := Top(frames);
    var pages1 := pages[r := InternalRight(full)];
    var pages2 := pages1[f.pid := InternalLeft(full)];
    WriteOutside(pages, root, g, {q}, c.kind, r, InternalRight(full));
    OneGap(pages1, root, g, c.kind, f.pid, f.route, sep.key, q);
    WaitingParts(g, {q}, c.kind, f.pid, f.node, f.route, sep.key, q);
    InnerRooted(c, root, g, job, meta, frames, sep, full);
    g' := WriteInnerLeft(pages1, root, g, {q}, c.kind, f.pid, f.route, sep.key, q, full, r);
    assert {q} - {q} + {r} == {r};
    PathOutside(pages, g, frames, r, InternalRight(full));
    SplitHandsUp(c, pages1, pages2, root, g, g', {q}, job, meta, frames, Sep(InternalSep(full), r));
    CutAbove(g, g', f.pid, r, g'.spans[r].a);
    SpellsInner(pages, pages2, g, g', rows);
    CutLeaves(g, g', f.pid, r, g'.spans[r].a);
    CutExtends(g, g', f.pid, r, g'.spans[r].a);
    if Plain(pages, g) { PlainInner(pages, pages2, g, g'); }
    if Bare(pages, g) { BareInner(pages, pages2, g, g'); }
    if Fitting(pages, g, c.cap) && BodyLen(InternalLeft(full)) <= c.cap && BodyLen(InternalRight(full)) <= c.cap {
      FitCut(pages, g, g', c.cap, f.pid, r, g'.spans[r].a, InternalLeft(full), InternalRight(full));
    }
  }

  /** With fixed-width keys the halves of an internal node on the climb fit. */
  lemma NarrowClimb(c: Config, pages: Pages, root: PageId, g: Shape, job: Job, meta: bool, frames: seq<Frame>, sep: Sep,
                    full: Node)
    requires TreeInv(pages, root, g, {sep.child}, c.kind) && frames != [] && Fitting(pages, g, c.cap)
    requires Narrow(c.kind, c.cap)
    requires Climbing(c, pages, root, g, job, meta, frames, sep)
    requires full == InternalInsert(Top(frames).node, Top(frames).route, sep.key, sep.child)
    ensures BodyLen(InternalLeft(full)) <= c.cap && BodyLen(InternalRight(full)) <= c.cap
  {
    hide *;
    ClimbTop(c, pages, root, g, job, meta, frames, sep);
    var f := Top(frames);
    WaitingParts(g, {sep.child}, c.kind, f.pid, f.node, f.route, sep.key, sep.child);
    FitAt(pages, g, c.cap, f.pid);
    ChildrenParts(f.node, f.pid, g);
    FillsIndex(g, f.pid, f.node, f.route, sep.child);
    NarrowInnerHalves(f.node, f.route, sep, c.kind, c.cap);
  }

  lemma FillsIndex(g: Shape, p: PageId, n: Node, at: nat, q: PageId)
    requires Fills(g, p, n, at, q)
    ensures n.Internal? && at < |n.children|
  {
  }

  /** A new root takes the two halves of the old one. */
  lemma RootWrite(c: Config, pages: Pages, root: PageId, g: Shape, sep: Sep, top: PageId, rows: seq<Row>)
    returns (g': Shape)
    requires TreeInv(pages, root, g, {sep.child}, c.kind) && RootWaiting(c, root, root, g, {sep.child}, sep)
    requires top !in pages && top != NO_PAGE && Spells(pages, g, rows)
    ensures var pages' := pages[top := Internal([sep.key], [root, sep.child])];
            && TreeInv(pages', top, g', {}, c.kind) && Spells(pages', g', rows)
            && (Plain(pages, g) ==> Plain(pages', g')) && (Bare(pages, g) ==> Bare(pages', g'))
            && (Fitting(pages, g, c.cap) && BodyLen(Internal([sep.key], [root, sep.child])) <= c.cap ==>
                  Fitting(pages', g', c.cap))
  {
    hide *;
    var n := Internal([sep.key], [root, sep.child]);
    ShapeParts(pages, root, g, {sep.child}, c.kind);
    RootWaitingFacts(c, root, g, sep);
    WriteOutside(pages, root, g, {sep.child}, c.kind, top, n);
    g' := WriteMeta(pages[top := n], root, g, {sep.child}, c.kind, sep.child, sep.key, top);
    assert {sep.child} - {sep.child} == {};
    GrownKeeps(g, root, top);
    SpellsInner(pages, pages[top := n], g, g', rows);
    GrownLeaves(g, root, top);
    GrownExtends(g, root, top);
    if Plain(pages, g) { PlainInner(pages, pages[top := n], g, g'); }
    if Bare(pages, g) { BareInner(pages, pages[top := n], g, g'); }
    if Fitting(pages, g, c.cap) && BodyLen(n) <= c.cap { FitTop(pages, g, c.cap, root, n, top); }
  }

  lemma RootWaitingFacts(c: Config, root: PageId, g: Shape, sep: Sep)
    requires RootWaiting(c, root, root, g, {sep.child}, sep)
    ensures root in g.spans && sep.child in g.spans && KindOf(sep.key) == c.kind
    ensures g.spans[sep.child] == Span(g.spans[root].level, g.spans[root].b, 1.0)
    ensures g.spans[sep.child].a in g.fence && g.fence[g.spans[sep.child].a] == Rank(sep.key)
  {
  }

  lemma GrownKeeps(g: Shape, root: PageId, top: PageId)
    requires root in g.spans && top !in g.spans
    ensures forall x :: x in g.spans ==>
              x in GrownShape(g, root, top).spans && GrownShape(g, root, top).spans[x] == g.spans[x]
  {
  }

  // ── at the leaf ────────────────────────────────────────────────────────────

  /** The leaf on top of a finished descent. */
  lemma LeafTop(pages: Pages, root: PageId, g: Shape, kind: Kind, frames: seq<Frame>)
    requires TreeInv(pages, root, g, {}, kind) && frames != [] && Path(pages, g, frames) && Top(frames).node.Leaf?
    ensures var f := Top(frames);
            && f.pid in g.spans && f.pid in pages && pages[f.pid] == f.node && g.spans[f.pid].level == 0
            && LeafOk(f.node, f.pid, g) && NodeKind(f.node, kind) && ShapeOk(g) && g.spans.Keys <= pages.Keys
  {
    hide *;
    PathTop(pages, g, frames);
    InnerLevel(pages, root, g, {}, kind, Top(frames).pid);
    TreePage(pages, root, g, {}, kind, Top(frames).pid);
    ShapeParts(pages, root, g, {}, kind);
  }

  lemma LeafRowsOf(n: Node)
    requires n.Leaf?
    ensures LeafRows(n) == RowsOf(n.entries, n.payloads)
  {
  }

  /** Inserting a row into the stretch of one leaf inserts it into the whole. */
  lemma SpliceInner(rows: seq<Row>, k: nat, leaf: seq<Row>, pos: nat, row: Row)
    requires k + |leaf| <= |rows| && rows[k..k + |leaf|] == leaf && pos <= |leaf|
    ensures Splice(rows, k, leaf[..pos] + [row] + leaf[pos..], k + |leaf|) == Splice(rows, k + pos, [row], k + pos)
  {
    assert rows == rows[..k] + leaf + rows[k + |leaf|..];
    assert rows[..k + pos] == rows[..k] + leaf[..pos];
    assert rows[k + pos..] == leaf[pos..] + rows[k + |leaf|..];
  }

  lemma LeafSpellsParts(pages: Pages, g: Shape, p: PageId, rows: seq<Row>, k: nat)
    requires LeafSpells(pages, g, p, rows, k)
    ensures p in pages && k + |LeafRows(pages[p])| <= |rows| && rows[k..k + |LeafRows(pages[p])|] == LeafRows(pages[p])
  {
    hide LeafRows;
  }

  lemma RowSetOf(n: Node, m: Node, row: Row)
    requires RowSet(m) == RowSet(n) + {row}
    ensures RowSet(n) <= RowSet(m)
  {
    hide RowSet;
  }

  /** The leaf has room: one page write inserts the row. */
  lemma LeafFitWrite(c: Config, pages: Pages, root: PageId, g: Shape, job: Job, frames: seq<Frame>, pos: nat,
                     full: Node, rows: seq<Row>)
    returns (k: nat)
    requires TreeInv(pages, root, g, {}, c.kind) && frames != [] && Path(pages, g, frames) && Top(frames).node.Leaf?
    requires KindOf(job.key) == c.kind && InRange(g, Top(frames).pid, job.key) && Spells(pages, g, rows)
    requires IsInsertPos(Top(frames).node.entries, EntryOf(job), pos)
    requires full == LeafInsert(Top(frames).node, pos, EntryOf(job), job.payload)
    ensures k <= |rows| && Top(frames).pid in pages && TreeInv(pages[Top(frames).pid := full], root, g, {}, c.kind)
    ensures Spells(pages[Top(frames).pid := full], g, Splice(rows, k, [Row(job.key, job.rid, job.payload)], k))
    ensures Plain(pages, g) && job.payload == [] ==> Plain(pages[Top(frames).pid := full], g)
    ensures Bare(pages, g) && job.payload == [] ==> Bare(pages[Top(frames).pid := full], g)
    ensures Fitting(pages, g, c.cap) && BodyLen(full) <= c.cap ==> Fitting(pages[Top(frames).pid := full], g, c.cap)
  {
    hide *;
    var f := Top(frames);
    var row := Row(job.key, job.rid, job.payload);
    LeafTop(pages, root, g, c.kind, frames);
    EntryIs(job);
    var at := LeafInsertSpelled(g, f, pos, job, full, c.kind);
    RowSetOf(f.node, full, row);
    WriteLeaf(pages, root, g, {}, c.kind, f.pid, full);
    var k0 := SpellsLeaf(pages, g, rows, f.pid, full);
    LeafSpellsParts(pages, g, f.pid, rows, k0);
    SpliceInner(rows, k0, LeafRows(f.node), at, row);
    k := k0 + at;
    if Plain(pages, g) && job.payload == [] {
      PlainAt(pages, g, f.pid);
      PlainGrow(f.node, f.pid, g, pos, EntryOf(job));
      PlainWrite(pages, g, f.pid, full);
    }
    if Bare(pages, g) && job.payload == [] {
      BareAt(pages, g, f.pid);
      BareStays(f.node, pos, EntryOf(job));
      BareWrite(pages, g, f.pid, full);
    }
    if Fitting(pages, g, c.cap) && BodyLen(full) <= c.cap { FitWrite(pages, g, c.cap, f.pid, full); }
  }

  lemma BareAt(pages: Pages, g: Shape, p: PageId)
    requires Bare(pages, g) && p in g.spans && p in pages && g.spans[p].level == 0
    ensures pages[p].Leaf? && pages[p].payloads == []
  {
  }

  lemma BareStays(n: Node, pos: nat, e: Entry)
    requires n.Leaf? && n.payloads == []
    ensures LeafInsert(n, pos, e, []).Leaf? && LeafInsert(n, pos, e, []).payloads == []
  {
  }

  lemma EntryIs(job: Job)
    ensures EntryOf(job) == Entry(job.key, job.rid)
  {
  }

  lemma LeafInsertSpelled(g: Shape, f: Frame, pos: nat, job: Job, full: Node, kind: Kind) returns (at: nat)
    requires LeafOk(f.node, f.pid, g) && NodeKind(f.node, kind) && KindOf(job.key) == kind && InRange(g, f.pid, job.key)
    requires IsInsertPos(f.node.entries, EntryOf(job), pos)
    requires full == LeafInsert(f.node, pos, EntryOf(job), job.payload)
    ensures LeafOk(full, f.pid, g) && NodeKind(full, kind) && full.Leaf?
    ensures RowSet(full) == RowSet(f.node) + {Row(job.key, job.rid, job.payload)}
    ensures at <= |LeafRows(f.node)|
    ensures LeafRows(full) == LeafRows(f.node)[..at] + [Row(job.key, job.rid, job.payload)] + LeafRows(f.node)[at..]
  {
    hide *;
    EntryIs(job);
    InsertedLeaf(g, f.pid, f.node, pos, EntryOf(job), job.payload, kind);
    LeafParts(g, f.pid, f.node, kind);
    LeafParts(g, f.pid, full, kind);
    PosInside(f.node.entries, EntryOf(job), pos);
    LeafInsertRows(f.node, pos, EntryOf(job), job.payload);
    LeafRowsOf(f.node);
    LeafRowsOf(full);
    at := pos;
  }

  lemma PosInside(entries: seq<Entry>, e: Entry, pos: nat)
    requires IsInsertPos(entries, e, pos)
    ensures pos <= |entries|
  {
    hide EntryLess;
  }

  lemma NothingPending(g: Shape, p: PageId)
    ensures NoGapAfter(g, {}, p)
  {
  }

  lemma HalvesSpell(full: Node, r: PageId)
    requires full.Leaf? && PayloadsAligned(full)
    ensures LeafRows(LeafLeft(full, r)) + LeafRows(LeafRight(full)) == LeafRows(full)
  {
    LeafSplitRows(full, r);
  }

  /** The leaf splits: both halves are written and the separator starts to climb. */
  lemma LeafSplitWrite(c: Config, pages: Pages, root: PageId, g: Shape, job: Job, meta: bool, frames: seq<Frame>,
                       full: Node,
                       r: PageId, rows: seq<Row>) returns (g': Shape, k: nat)
    requires TreeInv(pages, root, g, {}, c.kind) && frames != [] && Path(pages, g, frames) && Top(frames).node.Leaf?
    requires Bottom(c.cap, root, job, meta, frames) && (|frames| == 1 ==> meta) && Spells(pages, g, rows)
    requires LeafOk(full, Top(frames).pid, g) && NodeKind(full, c.kind) && full.Leaf? && full.entries != []
    requires RowSet(Top(frames).node) <= RowSet(full)
    requires r !in pages && r != NO_PAGE
    ensures var f := Top(frames);
            var pages' := pages[r := LeafRight(full)][f.pid := LeafLeft(full, r)];
            && TreeInv(pages', root, g', {r}, c.kind) && pages'.Keys == pages.Keys + {r}
            && Climbing(c, pages', root, g', job, meta, frames[..|frames| - 1], Sep(LeafSep(full), r))
            && f.pid in pages && pages[f.pid] == f.node && LeafSpells(pages, g, f.pid, rows, k)
            && k + |LeafRows(f.node)| <= |rows|
            && Spells(pages', g', Splice(rows, k, LeafRows(full), k + |LeafRows(f.node)|))
            && (Plain(pages, g) && PlainToSplit(full, f.pid, g) ==> Plain(pages', g'))
            && (Bare(pages, g) && full.payloads == [] ==> Bare(pages', g'))
            && (Fitting(pages, g, c.cap) && !TooWide(full, c.cap) ==> Fitting(pages', g', c.cap))
  {
    hide *;
    var f := Top(frames);
    LeafTop(pages, root, g, c.kind, frames);
    var pages1 := pages[r := LeafRight(full)];
    var pages2 := pages1[f.pid := LeafLeft(full, r)];
    WriteOutside(pages, root, g, {}, c.kind, r, LeafRight(full));
    NothingPending(g, f.pid);
    g' := WriteLeafLeft(pages1, root, g, {}, c.kind, f.pid, r, full);
    assert {} + {r} == {r};
    PathOutside(pages, g, frames, r, LeafRight(full));
    SplitHandsUp(c, pages1, pages2, root, g, g', {}, job, meta, frames, Sep(LeafSep(full), r));
    k := SpellsSplit(pages, pages2, g, g', rows, f.pid, r, g'.spans[r].a);
    LeafParts(g, f.pid, full, c.kind);
    HalvesSpell(full, r);
    if Plain(pages, g) && PlainToSplit(full, f.pid, g) {
      PlainHalves(pages, pages2, g, g', f.pid, r, full, c.kind);
    }
    if Bare(pages, g) && full.payloads == [] {
      BareHalvesOf(full, r);
      BareCut(pages, g, g', f.pid, r, g'.spans[r].a, LeafLeft(full, r), LeafRight(full));
    }
    TooWideIs(full, c.cap, r);
    if Fitting(pages, g, c.cap) && !TooWide(full, c.cap) {
      FitCut(pages, g, g', c.cap, f.pid, r, g'.spans[r].a, LeafLeft(full, r), LeafRight(full));
    }
  }
}
