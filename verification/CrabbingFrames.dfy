/**
  A step of one thread leaves intact what every other thread knows: its snapshots,
  its key range, the oversize node it is about to split and the separator it carries.
 */
module CrabbingFrames {
  import opened Keys
  import opened Nodes
  import opened Shapes
  import opened Steps
  import opened Crabbing

  /** The shape changed only by cutting page `x` (if any) and by adding pages. */
  ghost predicate ShapeStep(g: Shape, g': Shape, pend: set<PageId>, x: Option<PageId>) {
    && Extends(g, g')
    && (forall y :: y in g.spans && x != Some(y) ==> g'.spans[y] == g.spans[y])
    && (x.Some? ==> x.value !in pend && NoGapAfter(g, pend, x.value))
  }

  /** The pages a thread at `pc` has latched or owns are as before. */
  ghost predicate PagesKept(pc: Pc, pages: Pages, pages': Pages) {
    forall p :: p in pages && (PageLatch(p) in PcHeld(pc) || OwnedBy(pc) == Some(p)) ==>
      p in pages' && pages'[p] == pages[p]
  }

  lemma FramesKept(c: Config, pages: Pages, pages': Pages, root: PageId, root': PageId, g: Shape, g': Shape,
                   job: Job, meta: bool, frames: seq<Frame>)
    requires FramesOk(c, pages, root, g, job, meta, frames) && Extends(g, g') && (meta ==> root' == root)
    requires forall p :: p in pages && PageLatch(p) in FrameLatches(frames) ==> p in pages' && pages'[p] == pages[p]
    ensures FramesOk(c, pages', root', g', job, meta, frames)
  {
    hide InsertSafe;
    forall i | 0 <= i < |frames| ensures FrameOk(pages', g', frames[i]) {
      assert FrameOk(pages, g, frames[i]);
      assert PageLatch(frames[i].pid) in FrameLatches(frames);
    }
  }

  lemma InRangeKept(g: Shape, g': Shape, p: PageId, v: Key)
    requires InRange(g, p, v) && Extends(g, g') && g'.spans[p] == g.spans[p]
    ensures InRange(g', p, v)
  {
  }

  lemma LeafOkKept(n: Node, g: Shape, g': Shape, p: PageId)
    requires LeafOk(n, p, g) && Extends(g, g') && p in g.spans && g'.spans[p] == g.spans[p]
    ensures LeafOk(n, p, g')
  {
  }

  lemma WaitingKept(c: Config, g: Shape, g': Shape, pend: set<PageId>, pend': set<PageId>, x: Option<PageId>,
                    p: PageId, n: Node, at: nat, sep: Key, q: PageId)
    requires Waiting(g, pend, c.kind, p, n, at, sep, q) && ShapeStep(g, g', pend, x)
    requires ChildrenOk(n, p, g) && x != Some(p) && q in pend'
    ensures Waiting(g', pend', c.kind, p, n, at, sep, q)
  {
    var child := n.children[at];
    assert g'.spans[q] == g.spans[q];
    assert x != Some(child);
    assert g'.spans[child] == g.spans[child];
    if at + 1 < |n.children| {
      assert n.children[at + 1] in g.spans;
    }
    assert ChildEnd(n, p, g', at) == ChildEnd(n, p, g, at);
  }

  lemma RootWaitingKept(c: Config, root: PageId, r: PageId, root': PageId, g: Shape, g': Shape, pend: set<PageId>,
                        pend': set<PageId>,
                        x: Option<PageId>, sep: Sep)
    requires RootWaiting(c, root, r, g, pend, sep) && ShapeStep(g, g', pend, x) && root' == root && sep.child in pend'
    ensures RootWaiting(c, root', r, g', pend', sep)
  {
    assert x != Some(root);
  }

  lemma FullKept(c: Config, pages: Pages, g: Shape, g': Shape, pend: set<PageId>, pend': set<PageId>, x: Option<PageId>,
                 job: Job, meta: bool, frames: seq<Frame>, pending: Option<Sep>, full: Node)
    requires FullOk(c, g, pend, job, meta, frames, pending, full) && ShapeStep(g, g', pend, x)
    requires x != Some(Top(frames).pid) && Top(frames).pid in g.spans
    requires pending.Some? ==> ChildrenOk(Top(frames).node, Top(frames).pid, g) && pending.value.child in pend'
    ensures FullOk(c, g', pend', job, meta, frames, pending, full)
  {
    hide Adds;
    hide Gains;
    hide Taken;
    hide InternalInsert;
    hide NodeKind;
    hide Waiting;
    hide ChildrenOk;
    match pending
    case None => LeafOkKept(full, g, g', Top(frames).pid);
    case Some(sep) =>
      WaitingKept(c, g, g', pend, pend', x, Top(frames).pid, Top(frames).node, Top(frames).route, sep.key, sep.child);
  }

  /** The top frame of a stack is a sound page of the tree. */
  lemma TopIsSound(c: Config, pages: Pages, root: PageId, g: Shape, pend: set<PageId>, job: Job, meta: bool,
                   frames: seq<Frame>)
    requires TreeInv(pages, root, g, pend, c.kind) && FramesOk(c, pages, root, g, job, meta, frames)
    ensures Top(frames).pid in g.spans && PageLatch(Top(frames).pid) in FrameLatches(frames)
    ensures Top(frames).pid in pages && pages[Top(frames).pid] == Top(frames).node
    ensures NodeKind(Top(frames).node, c.kind) && SpansOk(g) && Disjoint(g)
    ensures Top(frames).node.Leaf? ==>
              g.spans[Top(frames).pid].level == 0 && LeafOk(Top(frames).node, Top(frames).pid, g)
    ensures Top(frames).node.Internal? ==>
              g.spans[Top(frames).pid].level > 0 && ChildrenOk(Top(frames).node, Top(frames).pid, g)
  {
    var f := Top(frames);
    assert FrameOk(pages, g, f);
    hide TreeInv;
    TreePage(pages, root, g, pend, c.kind, f.pid);
  }

  lemma StackKept(c: Config, pages: Pages, pages': Pages, root: PageId, root': PageId, g: Shape, g': Shape,
                  pend: set<PageId>, x: Option<PageId>, job: Job, meta: bool, frames: seq<Frame>)
    requires TreeInv(pages, root, g, pend, c.kind) && FramesOk(c, pages, root, g, job, meta, frames)
    requires ShapeStep(g, g', pend, x) && (meta ==> root' == root)
    requires x.Some? ==> PageLatch(x.value) !in FrameLatches(frames)
    requires forall p :: p in pages && PageLatch(p) in FrameLatches(frames) ==> p in pages' && pages'[p] == pages[p]
    ensures frames != [] && FramesOk(c, pages', root', g', job, meta, frames)
    ensures x != Some(Top(frames).pid) && Top(frames).pid in g.spans && Top(frames).pid in g'.spans
    ensures Extends(g, g') && g'.spans[Top(frames).pid] == g.spans[Top(frames).pid]
    ensures Top(frames).node.Internal? ==> ChildrenOk(Top(frames).node, Top(frames).pid, g)
  {
    ShapeStepParts(g, g', pend, x);
    hide *;
    FramesNonEmpty(c, pages, root, g, job, meta, frames);
    TopIsSound(c, pages, root, g, pend, job, meta, frames);
    FramesKept(c, pages, pages', root, root', g, g', job, meta, frames);
  }

  lemma FramesNonEmpty(c: Config, pages: Pages, root: PageId, g: Shape, job: Job, meta: bool, frames: seq<Frame>)
    requires FramesOk(c, pages, root, g, job, meta, frames)
    ensures frames != [] && KindOf(job.key) == c.kind && JobOk(c, job) && !job.task.Rework?
    ensures !meta ==> job.task.PutOne?
  {
  }

  lemma ShapeStepParts(g: Shape, g': Shape, pend: set<PageId>, x: Option<PageId>)
    requires ShapeStep(g, g', pend, x)
    ensures Extends(g, g') && g.spans.Keys <= g'.spans.Keys
    ensures forall y :: y in g.spans && x != Some(y) ==> g'.spans[y] == g.spans[y]
  {
  }

  /** Everything a thread knows survives a step of another thread. */
  lemma PcKept(c: Config, pages: Pages, pages': Pages, root: PageId, root': PageId, g: Shape, g': Shape,
               pend: set<PageId>, pend': set<PageId>, x: Option<PageId>, pc: Pc)
    requires TreeInv(pages, root, g, pend, c.kind) && PcOk(c, pages, root, g, pend, pc)
    requires ShapeStep(g, g', pend, x) && PagesKept(pc, pages, pages')
    requires MetaLatch in PcHeld(pc) ==> root' == root
    requires x.Some? ==> PageLatch(x.value) !in PcHeld(pc)
    requires PendOf(pc).Some? ==> PendOf(pc).value in pend'
    ensures PcOk(c, pages', root', g', pend', pc)
  {
    hide *;
    if pc.Descend? || pc.WaitChild? || pc.ReadChild? || pc.Apply? {
      DownPcKept(c, pages, pages', root, root', g, g', pend, pend', x, pc);
    } else if pc.WriteRight? || pc.WriteLeft? {
      SplitPcKept(c, pages, pages', root, root', g, g', pend, pend', x, pc);
    } else {
      PlainPcKept(c, pages, pages', root, root', g, g', pend, pend', x, pc);
    }
  }

  lemma DownPcKept(c: Config, pages: Pages, pages': Pages, root: PageId, root': PageId, g: Shape, g': Shape,
                   pend: set<PageId>, pend': set<PageId>, x: Option<PageId>, pc: Pc)
    requires TreeInv(pages, root, g, pend, c.kind) && PcOk(c, pages, root, g, pend, pc)
    requires pc.Descend? || pc.WaitChild? || pc.ReadChild? || pc.Apply?
    requires ShapeStep(g, g', pend, x) && PagesKept(pc, pages, pages')
    requires MetaLatch in PcHeld(pc) ==> root' == root
    requires x.Some? ==> PageLatch(x.value) !in PcHeld(pc)
    requires PendOf(pc).Some? ==> PendOf(pc).value in pend'
    ensures PcOk(c, pages', root', g', pend', pc)
  {
    hide TreeInv;
    hide ShapeStep;
    hide FramesOk;
    hide InRange;
    hide Routed;
    hide Waiting;
    hide ChildrenOk;
    hide Extends;
    hide FrameLatches;
    StackKept(c, pages, pages', root, root', g, g', pend, x, pc.job, pc.meta, pc.frames);
    var f := Top(pc.frames);
    if pc.Apply? && pc.pending.Some? {
      WaitingKept(c, g, g', pend, pend', x, f.pid, f.node, f.route, pc.pending.value.key, pc.pending.value.child);
    } else {
      InRangeKept(g, g', f.pid, pc.job.key);
    }
  }

  lemma SplitPcKept(c: Config, pages: Pages, pages': Pages, root: PageId, root': PageId, g: Shape, g': Shape,
                    pend: set<PageId>, pend': set<PageId>, x: Option<PageId>, pc: Pc)
    requires TreeInv(pages, root, g, pend, c.kind) && PcOk(c, pages, root, g, pend, pc)
    requires pc.WriteRight? || pc.WriteLeft?
    requires ShapeStep(g, g', pend, x) && PagesKept(pc, pages, pages')
    requires MetaLatch in PcHeld(pc) ==> root' == root
    requires x.Some? ==> PageLatch(x.value) !in PcHeld(pc)
    requires PendOf(pc).Some? ==> PendOf(pc).value in pend'
    ensures PcOk(c, pages', root', g', pend', pc)
  {
    hide TreeInv;
    hide ShapeStep;
    hide FramesOk;
    hide FullOk;
    hide RightHalf;
    hide ChildrenOk;
    hide Extends;
    hide FrameLatches;
    StackKept(c, pages, pages', root, root', g, g', pend, x, pc.job, pc.meta, pc.frames);
    FullParts(c, g, pend, pc.job, pc.meta, pc.frames, pc.pending, pc.full);
    FullKept(c, pages, g, g', pend, pend', x, pc.job, pc.meta, pc.frames, pc.pending, pc.full);
  }

  lemma PlainPcKept(c: Config, pages: Pages, pages': Pages, root: PageId, root': PageId, g: Shape, g': Shape,
                    pend: set<PageId>, pend': set<PageId>, x: Option<PageId>, pc: Pc)
    requires PcOk(c, pages, root, g, pend, pc)
    requires !(pc.Descend? || pc.WaitChild? || pc.ReadChild? || pc.Apply? || pc.WriteRight? || pc.WriteLeft?)
    requires ShapeStep(g, g', pend, x) && PagesKept(pc, pages, pages')
    requires MetaLatch in PcHeld(pc) ==> root' == root
    requires PendOf(pc).Some? ==> PendOf(pc).value in pend'
    ensures PcOk(c, pages', root', g', pend', pc)
  {
    hide ShapeStep;
    hide RootWaiting;
    hide JobOk;
    match pc
    case NewRoot(_, r, sep) => RootWaitingKept(c, root, r, root', g, g', pend, pend', x, sep);
    case WriteTop(_, r, sep, _) => RootWaitingKept(c, root, r, root', g, g', pend, pend', x, sep);
    case Repoint(_, r, sep, _) => RootWaitingKept(c, root, r, root', g, g', pend, pend', x, sep);
    case Seek(_, pid) => LevelKept(g, g', pend, x, pid);
    case WaitLeaf(_, pid) => LevelKept(g, g', pend, x, pid);
    case Latched(_, pid) => LevelKept(g, g', pend, x, pid);
    case _ =>
  }

  lemma LevelKept(g: Shape, g': Shape, pend: set<PageId>, x: Option<PageId>, p: PageId)
    requires ShapeStep(g, g', pend, x) && p in g.spans
    ensures p in g'.spans && g'.spans[p].level == g.spans[p].level
  {
  }

  lemma FullParts(c: Config, g: Shape, pend: set<PageId>, job: Job, meta: bool, frames: seq<Frame>,
                  pending: Option<Sep>, full: Node)
    requires FullOk(c, g, pend, job, meta, frames, pending, full)
    ensures frames != [] && (pending.Some? ==> Top(frames).node.Internal?) && (pending.None? <==> full.Leaf?)
  {
    hide RowSet;
    hide Gains;
    hide Waiting;
    hide LeafOk;
    hide NodeKind;
  }
}
