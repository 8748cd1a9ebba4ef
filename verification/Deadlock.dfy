/**
  Latch waits never form a cycle: a thread waits only for a latch strictly below all
  latches it holds, so in every reachable state some unfinished thread can step.
 */
module Deadlock {
  import opened Keys
  import opened Nodes
  import opened Shapes
  import opened Steps
  import opened Searches
  import opened Crabbing
  import opened CrabbingFrames
  import opened CrabbingSafety
  import opened CrabbingSteps
  import opened CrabbingLeaves
  import opened CrabbingWrites

  /** The latch a thread cannot go on without. */
  function Awaits(pc: Pc): Option<Latch> {
    match pc
    case WaitMeta(_) => Some(MetaLatch)
    case WaitRoot(_, root) => Some(PageLatch(root))
    case WaitChild(_, _, _, child) => Some(PageLatch(child))
    case WaitLeaf(_, pid) => Some(PageLatch(pid))
    case _ => None
  }

  /** How far above the leaves a latch is; the meta latch is above the root. */
  ghost function Height(g: Shape, root: PageId, l: Latch): nat {
    match l
    case MetaLatch => if root in g.spans then g.spans[root].level + 1 else 0
    case PageLatch(p) => if p in g.spans then g.spans[p].level else 0
  }

  // ── the order of latches ───────────────────────────────────────────────────

  /** Going up a retained stack, each frame is one level higher. */
  lemma {:induction false} StackLevels(c: Config, s: State, g: Shape, pend: set<PageId>, base: set<Entry>, t: Tid,
                                       k: nat)
    requires Inv(c, s, g, pend, base) && t in s.threads && k < |FramesOf(s.threads[t].pc)|
    ensures var frames := FramesOf(s.threads[t].pc);
            && frames[k].pid in g.spans && Top(frames).pid in g.spans
            && g.spans[frames[k].pid].level == g.spans[Top(frames).pid].level + (|frames| - 1 - k)
    decreases |FramesOf(s.threads[t].pc)| - k
  {
    hide *;
    var frames := FramesOf(s.threads[t].pc);
    TopIs(frames);
    FrameIsSound(c, s, g, pend, base, t, k);
    if k + 1 < |frames| {
      StackLevels(c, s, g, pend, base, t, k + 1);
      InvParts(c, s, g, pend, base, t);
      StackOf(c, s, g, pend, t);
      FramesLink(c, s.pages, s.root, g, s.threads[t].pc.job, MetaOf(s.threads[t].pc), frames, k);
      LinkedParts(frames[k], frames[k + 1]);
      ChildLevel(g, frames[k].pid, frames[k].node, frames[k].route);
    }
  }

  lemma FramesLink(c: Config, pages: Pages, root: PageId, g: Shape, job: Job, meta: bool, frames: seq<Frame>, k: nat)
    requires FramesOk(c, pages, root, g, job, meta, frames) && k + 1 < |frames|
    ensures Linked(frames[k], frames[k + 1])
  {
    hide FrameOk;
    hide Linked;
    hide InsertSafe;
  }

  lemma WaitChildParts(c: Config, pages: Pages, root: PageId, g: Shape, pend: set<PageId>, pc: Pc)
    requires pc.WaitChild? && PcOk(c, pages, root, g, pend, pc)
    ensures pc.frames != [] && FramesOf(pc) == pc.frames && FramesOk(c, pages, root, g, pc.job, pc.meta, pc.frames)
    ensures Routed(pc.job, Top(pc.frames), pc.child) && PcHeld(pc) == MetaPart(pc.meta) + FrameLatches(pc.frames)
  {
    hide FramesOk;
    hide Routed;
    hide InRange;
    hide FrameLatches;
    FramesNonEmpty(c, pages, root, g, pc.job, pc.meta, pc.frames);
  }

  lemma RoutedLevel(g: Shape, job: Job, f: Frame, child: PageId)
    requires Routed(job, f, child) && ChildrenOk(f.node, f.pid, g)
    ensures child in g.spans && f.pid in g.spans && g.spans[child].level + 1 == g.spans[f.pid].level
  {
  }

  lemma RoutedInternal(job: Job, f: Frame, child: PageId)
    requires Routed(job, f, child)
    ensures f.node.Internal?
  {
  }

  lemma HeightIs(g: Shape, root: PageId, l: Latch)
    requires root in g.spans && (l.PageLatch? ==> l.page in g.spans)
    ensures Height(g, root, l) == if l == MetaLatch then g.spans[root].level + 1 else g.spans[l.page].level
  {
  }

  lemma ChildWaitsBelow(c: Config, s: State, g: Shape, pend: set<PageId>, base: set<Entry>, t: Tid, l: Latch)
    requires Inv(c, s, g, pend, base) && t in s.threads && l in PcHeld(s.threads[t].pc) && s.threads[t].pc.WaitChild?
    ensures Height(g, s.root, PageLatch(s.threads[t].pc.child)) < Height(g, s.root, l)
  {
    hide *;
    var pc := s.threads[t].pc;
    InvParts(c, s, g, pend, base, t);
    ThreadParts(c, s, g, pend, t);
    ShapeParts(s.pages, s.root, g, pend, c.kind);
    RootInTree(g, s.root, pend);
    WaitChildParts(c, s.pages, s.root, g, pend, pc);
    TopIsSound(c, s.pages, s.root, g, pend, pc.job, pc.meta, pc.frames);
    RoutedInternal(pc.job, Top(pc.frames), pc.child);
    RoutedLevel(g, pc.job, Top(pc.frames), pc.child);
    MetaPartIs(pc.meta, l);
    if l != MetaLatch {
      var k := FrameIndex(pc.frames, l.page);
      StackLevels(c, s, g, pend, base, t, k);
    }
    HeightIs(g, s.root, PageLatch(pc.child));
    HeightIs(g, s.root, l);
  }

  lemma MetaPartIs(meta: bool, l: Latch)
    ensures l in MetaPart(meta) ==> l == MetaLatch
  {
  }

  /** Whatever a thread waits for is strictly below everything it holds. */
  lemma WaitsBelow(c: Config, s: State, g: Shape, pend: set<PageId>, base: set<Entry>, t: Tid, l: Latch)
    requires Inv(c, s, g, pend, base) && t in s.threads && l in PcHeld(s.threads[t].pc) && Awaits(s.threads[t].pc).Some?
    ensures Height(g, s.root, Awaits(s.threads[t].pc).value) < Height(g, s.root, l)
  {
    hide *;
    var pc := s.threads[t].pc;
    InvParts(c, s, g, pend, base, t);
    ThreadParts(c, s, g, pend, t);
    ShapeParts(s.pages, s.root, g, pend, c.kind);
    RootInTree(g, s.root, pend);
    AwaitCases(pc, l);
    if pc.WaitChild? {
      ChildWaitsBelow(c, s, g, pend, base, t, l);
    } else {
      WaitRootParts(c, s.pages, s.root, g, pend, pc);
      HeightIs(g, s.root, PageLatch(s.root));
      HeightIs(g, s.root, l);
    }
  }

  lemma AwaitCases(pc: Pc, l: Latch)
    requires Awaits(pc).Some? && l in PcHeld(pc)
    ensures (pc.WaitChild? && Awaits(pc).value == PageLatch(pc.child))
            || (pc.WaitRoot? && Awaits(pc).value == PageLatch(pc.root) && l == MetaLatch)
  {
    hide FrameLatches;
  }

  lemma WaitRootParts(c: Config, pages: Pages, root: PageId, g: Shape, pend: set<PageId>, pc: Pc)
    requires pc.WaitRoot? && PcOk(c, pages, root, g, pend, pc)
    ensures pc.root == root
  {
  }

  // ── a thread that waits for nothing can step ───────────────────────────────

  /** A binary search ends at a slot or at an exact duplicate, even if row ids are unordered. */
  lemma {:induction false} SlotExists(entries: seq<Entry>, e: Entry, i: nat) returns (at: nat, found: bool)
    requires i <= |entries| && (i > 0 ==> EntryLess(entries[i - 1], e))
    ensures found ==> at < |entries| && entries[at] == e
    ensures !found ==> IsInsertPos(entries, e, at)
    decreases |entries| - i
  {
    if i == |entries| {
      at, found := i, false;
    } else if EntryLess(entries[i], e) {
      at, found := SlotExists(entries, e, i + 1);
    } else {
      EntryTrichotomy(entries[i], e);
      at, found := i, entries[i] == e;
    }
  }

  lemma LeafCanStep(c: Config, s: State, t: Tid) returns (a: Action)
    requires t in s.threads && s.threads[t].drop == {} && s.threads[t].pc.Apply? && s.threads[t].pc.pending.None?
    requires s.threads[t].pc.frames != [] && Top(s.threads[t].pc.frames).node.Leaf? && s.next < NO_PAGE
    requires !s.threads[t].pc.job.task.Rework?
    ensures !a.Begin? && Next(c, s, t, a).Some?
  {
    hide PcHeld;
    hide LeafInsert;
    hide BodyLen;
    hide IsInsertPos;
    hide RunFor;
    var pc := s.threads[t].pc;
    if pc.job.task.PutRun? { return MergeRun; }
    var at, found := SlotExists(Top(pc.frames).node.entries, EntryOf(pc.job), 0);
    a := if found then Duplicate(at) else InsertAtPos(at);
  }

  lemma DescendCanStep(c: Config, s: State, t: Tid, g: Shape)
    requires t in s.threads && s.threads[t].drop == {} && s.threads[t].pc.Descend? && s.threads[t].pc.frames != []
    requires Top(s.threads[t].pc.frames).node.Internal? ==>
               ChildrenOk(Top(s.threads[t].pc.frames).node, Top(s.threads[t].pc.frames).pid, g)
    ensures Next(c, s, t, Go).Some?
  {
  }

  lemma DescendPcParts(c: Config, pages: Pages, root: PageId, g: Shape, pend: set<PageId>, pc: Pc)
    requires pc.Descend? && PcOk(c, pages, root, g, pend, pc)
    ensures pc.frames != [] && FramesOk(c, pages, root, g, pc.job, pc.meta, pc.frames)
  {
    hide FramesOk;
    FramesNonEmpty(c, pages, root, g, pc.job, pc.meta, pc.frames);
  }

  /** Program counters whose next step reads or writes at most one page and never waits. */
  lemma PlainCanStep(c: Config, s: State, t: Tid)
    requires t in s.threads && s.threads[t].drop == {} && s.next < NO_PAGE
    requires match s.threads[t].pc
             case ReadMeta(_) => true
             case ReadRoot(_, root) => root in s.pages
             case ReadChild(_, _, _, child) => child in s.pages
             case Apply(_, _, frames, pending) => frames != [] && pending.Some?
             case WriteRight(_, _, _, _, _, _) => true
             case WriteLeft(_, _, frames, _, _, _) => frames != []
             case NewRoot(_, _, _) => true
             case WriteTop(_, _, _, _) => true
             case Repoint(_, _, _, _) => true
             case SeekRoot(_) => true
             case _ => false
    ensures Next(c, s, t, Go).Some?
  {
    hide PcHeld;
    hide InsertSafe;
    hide InternalInsert;
    hide BodyLen;
    hide LeftHalf;
    hide RightHalf;
    hide SepOf;
  }

  lemma LatchedCanStep(c: Config, s: State, t: Tid)
    requires t in s.threads && s.threads[t].drop == {} && s.threads[t].pc.Latched?
    ensures Next(c, s, t, Leave).Some?
  {
    hide PcHeld;
  }

  lemma SeekCanStep(c: Config, s: State, t: Tid, g: Shape)
    requires t in s.threads && s.threads[t].drop == {} && s.threads[t].pc.Seek?
    requires var pc := s.threads[t].pc;
             && pc.pid in s.pages && pc.pid in g.spans
             && (g.spans[pc.pid].level == 0 ==> LeafOk(s.pages[pc.pid], pc.pid, g))
             && (g.spans[pc.pid].level > 0 ==>
                   s.pages[pc.pid].Internal?
                   && RouteRead(Eq, s.pages[pc.pid].keys, pc.job.key) < |s.pages[pc.pid].children|)
    ensures Next(c, s, t, Go).Some?
  {
    hide RouteRead;
  }

  lemma ReadingHeld(pc: Pc)
    ensures pc.ReadRoot? ==> PageLatch(pc.root) in PcHeld(pc)
    ensures pc.ReadChild? ==> PageLatch(pc.child) in PcHeld(pc)
  {
    hide FrameLatches;
  }

  /** A busy thread that neither waits for a latch nor has one to drop can take its next step. */
  lemma CanStep(c: Config, s: State, g: Shape, pend: set<PageId>, base: set<Entry>, t: Tid) returns (a: Action)
    requires Inv(c, s, g, pend, base) && t in s.threads && s.threads[t].drop == {} && !s.threads[t].pc.Idle?
    requires Awaits(s.threads[t].pc).None? && s.next < NO_PAGE
    ensures !a.Begin? && Next(c, s, t, a).Some?
  {
    var pc := s.threads[t].pc;
    hide Inv;
    hide PcOk;
    hide Next;
    hide PcHeld;
    InvParts(c, s, g, pend, base, t);
    ThreadParts(c, s, g, pend, t);
    ShapeParts(s.pages, s.root, g, pend, c.kind);
    hide TreeInv;
    hide ThreadOk;
    hide LatchesOk;
    hide PendsOk;
    hide OwnedOk;
    hide ShapeOk;
    a := Go;
    if pc.Latched? {
      a := Leave;
      LatchedCanStep(c, s, t);
    } else if pc.Seek? {
      LeafWriterParts(c, s.pages, s.root, g, pend, pc);
      TreePage(s.pages, s.root, g, pend, c.kind, pc.pid);
      if g.spans[pc.pid].level > 0 { ReadTarget(Eq, s.pages, s.root, g, pend, c.kind, pc.pid, pc.job.key); }
      SeekCanStep(c, s, t, g);
    } else if pc.Descend? {
      DescendPcParts(c, s.pages, s.root, g, pend, pc);
      TopIsSound(c, s.pages, s.root, g, pend, pc.job, pc.meta, pc.frames);
      DescendCanStep(c, s, t, g);
    } else if pc.Apply? && pc.pending.None? {
      AtLeaf(c, s, g, pend, base, t);
      a := LeafCanStep(c, s, t);
    } else {
      if pc.Apply? { AtParent(c, s, g, pend, base, t); }
      if pc.WriteRight? || pc.WriteLeft? { SplitPcParts(c, s.pages, s.root, g, pend, pc); }
      ReadingHeld(pc);
      if pc.ReadRoot? { HeldInTree(c, s, g, pend, base, t, pc.root); }
      if pc.ReadChild? { HeldInTree(c, s, g, pend, base, t, pc.child); }
      PlainCanStep(c, s, t);
    }
  }

  // ── no deadlock ────────────────────────────────────────────────────────────

  lemma ReleaseEnabled(c: Config, s: State, t: Tid, l: Latch)
    requires t in s.threads && l in s.threads[t].drop
    ensures Next(c, s, t, Release(l)).Some?
  {
  }

  lemma LockEnabled(c: Config, s: State, t: Tid)
    requires t in s.threads && s.threads[t].drop == {} && Awaits(s.threads[t].pc).Some?
    requires Awaits(s.threads[t].pc).value !in s.latches
    ensures Next(c, s, t, Go).Some?
  {
  }

  lemma HolderOf(s: State, l: Latch) returns (u: Tid)
    requires LatchesOk(s) && l in s.latches
    ensures u in s.threads && (l in PcHeld(s.threads[u].pc) || l in s.threads[u].drop)
  {
    u := s.latches[l];
    assert Holds(s, u, l);
  }

  lemma BusyHolder(pc: Pc, l: Latch)
    requires l in PcHeld(pc)
    ensures !pc.Idle?
  {
  }

  ghost function WaitHeight(g: Shape, root: PageId, th: Thread): nat {
    if th.drop == {} && Awaits(th.pc).Some? then Height(g, root, Awaits(th.pc).value) + 1 else 0
  }

  /** Following a blocked thread to the holder of its latch always ends at one that can step. */
  lemma {:induction false} Unblock(c: Config, s: State, g: Shape, pend: set<PageId>, base: set<Entry>, t: Tid)
    returns (u: Tid, a: Action)
    requires Inv(c, s, g, pend, base) && t in s.threads && s.next < NO_PAGE
    requires !s.threads[t].pc.Idle? || s.threads[t].drop != {}
    ensures !a.Begin? && Next(c, s, u, a).Some?
    decreases if t in s.threads then WaitHeight(g, s.root, s.threads[t]) else 0
  {
    hide Inv;
    hide Next;
    hide PcHeld;
    hide Height;
    hide Awaits;
    u := t;
    var th := s.threads[t];
    if th.drop != {} {
      var l :| l in th.drop;
      ReleaseEnabled(c, s, t, l);
      a := Release(l);
    } else if Awaits(th.pc).None? {
      a := CanStep(c, s, g, pend, base, t);
    } else {
      var l := Awaits(th.pc).value;
      InvParts(c, s, g, pend, base, t);
      hide ThreadOk;
      hide TreeInv;
      hide LatchesOk;
      hide PendsOk;
      hide OwnedOk;
      if l !in s.latches {
        LockEnabled(c, s, t);
        a := Go;
      } else {
        var h := HolderOf(s, l);
        if s.threads[h].drop == {} {
          BusyHolder(s.threads[h].pc, l);
          if Awaits(s.threads[h].pc).Some? { WaitsBelow(c, s, g, pend, base, h, l); }
        }
        u, a := Unblock(c, s, g, pend, base, h);
      }
    }
  }

  /** In every reachable state with an unfinished thread some thread can step, as long as pages can be allocated. */
  lemma NoDeadlock(c: Config, s: State, g: Shape, pend: set<PageId>, base: set<Entry>)
    requires Inv(c, s, g, pend, base) && s.next < NO_PAGE
    requires exists t :: t in s.threads && s.threads[t] != Thread(Idle, {})
    ensures exists u: Tid, a: Action :: !a.Begin? && Next(c, s, u, a).Some?
  {
    hide Inv;
    hide Next;
    var t :| t in s.threads && s.threads[t] != Thread(Idle, {});
    var u, a := Unblock(c, s, g, pend, base, t);
  }
}
