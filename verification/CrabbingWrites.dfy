/**
  The steps that carry a split upward: absorbing a separator, writing the two halves
  of a node, and growing a new root.
 */
module CrabbingWrites {
  import opened Keys
  import opened Nodes
  import opened Shapes
  import opened Steps
  import opened Crabbing
  import opened CrabbingFrames
  import opened CrabbingSafety
  import opened CrabbingSteps

  // ── absorbing a separator ──────────────────────────────────────────────────

  /** What a thread about to absorb a separator knows. */
  lemma AtParent(c: Config, s: State, g: Shape, pend: set<PageId>, base: set<Entry>, t: Tid)
    requires Inv(c, s, g, pend, base) && t in s.threads
    requires var pc := s.threads[t].pc; pc.Apply? && pc.pending.Some?
    ensures var pc := s.threads[t].pc;
            && pc.frames != [] && FramesOk(c, s.pages, s.root, g, pc.job, pc.meta, pc.frames)
            && Top(pc.frames).node.Internal? && PendOf(pc) == Some(pc.pending.value.child) && OwnedBy(pc).None?
            && Top(pc.frames).pid in g.spans && g.spans[Top(pc.frames).pid].level > 0
            && Top(pc.frames).pid in s.pages && s.pages[Top(pc.frames).pid] == Top(pc.frames).node
            && ChildrenOk(Top(pc.frames).node, Top(pc.frames).pid, g) && NodeKind(Top(pc.frames).node, c.kind)
            && Waiting(g, pend, c.kind, Top(pc.frames).pid, Top(pc.frames).node, Top(pc.frames).route,
                       pc.pending.value.key, pc.pending.value.child)
            && PageLatch(Top(pc.frames).pid) in PcHeld(pc)
  {
    hide *;
    InvParts(c, s, g, pend, base, t);
    ThreadParts(c, s, g, pend, t);
    ParentPcParts(c, s.pages, s.root, g, pend, s.threads[t].pc);
    var pc := s.threads[t].pc;
    TopIsSound(c, s.pages, s.root, g, pend, pc.job, pc.meta, pc.frames);
  }

  lemma ParentPcParts(c: Config, pages: Pages, root: PageId, g: Shape, pend: set<PageId>, pc: Pc)
    requires pc.Apply? && pc.pending.Some? && PcOk(c, pages, root, g, pend, pc)
    ensures pc.frames != [] && FramesOk(c, pages, root, g, pc.job, pc.meta, pc.frames)
    ensures Top(pc.frames).node.Internal? && PendOf(pc) == Some(pc.pending.value.child) && OwnedBy(pc).None?
    ensures Waiting(g, pend, c.kind, Top(pc.frames).pid, Top(pc.frames).node, Top(pc.frames).route,
                    pc.pending.value.key, pc.pending.value.child)
    ensures FrameLatches(pc.frames) <= PcHeld(pc)
  {
    hide FramesOk;
    hide InRange;
    hide Waiting;
    hide FrameLatches;
    FramesNonEmpty(c, pages, root, g, pc.job, pc.meta, pc.frames);
  }

  lemma PendSetSome(q: PageId)
    ensures PendSet(Some(q)) == {q}
  {
  }

  /** The parent absorbs the separator in one page write, and the insert is done. */
  lemma AbsorbFitStep(c: Config, s: State, s': State, t: Tid, full: Node, g: Shape, pend: set<PageId>, base: set<Entry>)
    requires Inv(c, s, g, pend, base) && t in s.threads && s.threads[t].drop == {}
    requires var pc := s.threads[t].pc;
             && pc.Apply? && pc.pending.Some? && pc.frames != []
             && full == InternalInsert(Top(pc.frames).node, Top(pc.frames).route, pc.pending.value.key,
                                       pc.pending.value.child)
             && s' == s.(pages := s.pages[Top(pc.frames).pid := full],
                         threads := s.threads[t := Thread(Idle, PcHeld(pc))])
    ensures Inv(c, s', g, pend - {s.threads[t].pc.pending.value.child}, base) && Evolves(s.pages, g, s'.pages, g)
  {
    hide *;
    var pc := s.threads[t].pc;
    var f := Top(pc.frames);
    var sep := pc.pending.value;
    InvParts(c, s, g, pend, base, t);
    AtParent(c, s, g, pend, base, t);
    WriteParent(s.pages, s.root, g, pend, c.kind, f.pid, f.route, sep.key, sep.child);
    IdleParts(c, s'.pages, s.root, g, pend - {sep.child}, PcHeld(pc));
    PendSetNone();
    PendSetSome(sep.child);
    ShapeSame(g, pend);
    WritesOne(s, s', t, f.pid, full);
    CountedSame(s.pages, g, s'.pages, g, base + s.applied, s.gone);
    TreeStep(c, s, s', t, Idle, PcHeld(pc), g, g, pend, pend - {sep.child}, base, None);
  }

  /** The parent overflows as well: the thread allocates the right page of its split. */
  lemma InnerSplitStartStep(c: Config, s: State, s': State, t: Tid, full: Node, right: PageId,
                            g: Shape, pend: set<PageId>, base: set<Entry>)
    requires Inv(c, s, g, pend, base) && t in s.threads && s.threads[t].drop == {}
    requires var pc := s.threads[t].pc;
             && pc.Apply? && pc.pending.Some? && pc.frames != []
             && full == InternalInsert(Top(pc.frames).node, Top(pc.frames).route, pc.pending.value.key,
                                       pc.pending.value.child)
             && BodyLen(full) > c.cap && right as int == s.next && right != NO_PAGE
             && s' == s.(threads := s.threads[t := Thread(WriteRight(pc.job, pc.meta, pc.frames, pc.pending, full,
                                                                     right), {})],
                         next := s.next + 1)
    ensures Inv(c, s', g, pend, base)
  {
    hide *;
    var pc := s.threads[t].pc;
    var pc' := WriteRight(pc.job, pc.meta, pc.frames, pc.pending, full, right);
    InvParts(c, s, g, pend, base, t);
    AtParent(c, s, g, pend, base, t);
    var f := Top(pc.frames);
    var sep := pc.pending.value;
    WaitingParts(g, pend, c.kind, f.pid, f.node, f.route, sep.key, sep.child);
    InnerOverflowRooted(c, s.pages, s.root, g, pc.job, pc.meta, pc.frames, sep, full);
    InnerSplitPc(c, s.pages, s.root, g, pend, pc, full, right);
    MoveStep(c, s, s', t, pc', {}, g, pend, base);
  }

  /** An internal node can overflow at the bottom of the stack only if the meta latch is still held. */
  lemma InnerOverflowRooted(c: Config, pages: Pages, root: PageId, g: Shape, job: Job, meta: bool, frames: seq<Frame>,
                            sep: Sep, full: Node)
    requires FramesOk(c, pages, root, g, job, meta, frames) && Top(frames).node.Internal?
    requires ChildrenOk(Top(frames).node, Top(frames).pid, g) && NodeKind(Top(frames).node, c.kind)
    requires Fills(g, Top(frames).pid, Top(frames).node, Top(frames).route, sep.child) && KindOf(sep.key) == c.kind
    requires full == InternalInsert(Top(frames).node, Top(frames).route, sep.key, sep.child) && BodyLen(full) > c.cap
    ensures (|frames| == 1 ==> meta) && Branching(full)
  {
    hide BodyLen;
    ChildrenParts(Top(frames).node, Top(frames).pid, g);
    FillsShape(g, Top(frames).pid, Top(frames).node, Top(frames).route, sep.child);
    if |frames| == 1 && !meta {
      SafeInternalFits(frames[0].node, frames[0].route, sep.key, sep.child, job.key, |job.payload|, c.cap);
    }
  }

  lemma InnerSplitPc(c: Config, pages: Pages, root: PageId, g: Shape, pend: set<PageId>, pc: Pc, full: Node,
                     right: PageId)
    requires pc.Apply? && pc.pending.Some? && pc.frames != [] && FramesOk(c, pages, root, g, pc.job, pc.meta, pc.frames)
    requires Top(pc.frames).node.Internal? && Branching(full) && (|pc.frames| == 1 ==> pc.meta)
    requires full ==
               InternalInsert(Top(pc.frames).node, Top(pc.frames).route, pc.pending.value.key, pc.pending.value.child)
    requires Waiting(g, pend, c.kind, Top(pc.frames).pid, Top(pc.frames).node, Top(pc.frames).route,
                     pc.pending.value.key, pc.pending.value.child)
    ensures var pc' := WriteRight(pc.job, pc.meta, pc.frames, pc.pending, full, right);
            && PcOk(c, pages, root, g, pend, pc') && PcHeld(pc') + {} == PcHeld(pc) && PcHeld(pc') !! {}
            && PendOf(pc') == PendOf(pc) && OwnedBy(pc') == Some(right)
  {
    hide FramesOk;
    hide Waiting;
    hide FrameLatches;
    hide InternalInsert;
    hide Branching;
  }

  // ── writing a page that nobody can reach yet ───────────────────────────────

  lemma SplitPcParts(c: Config, pages: Pages, root: PageId, g: Shape, pend: set<PageId>, pc: Pc)
    requires (pc.WriteRight? || pc.WriteLeft?) && PcOk(c, pages, root, g, pend, pc)
    ensures pc.frames != [] && FramesOf(pc) == pc.frames && FramesOk(c, pages, root, g, pc.job, pc.meta, pc.frames)
    ensures FullOk(c, g, pend, pc.job, pc.meta, pc.frames, pc.pending, pc.full) && OwnedBy(pc) == Some(pc.right)
    ensures PendOf(pc) == (if pc.pending.Some? then Some(pc.pending.value.child) else None)
    ensures PcHeld(pc) == MetaPart(pc.meta) + FrameLatches(pc.frames)
    ensures pc.WriteLeft? ==> pc.right in pages && pages[pc.right] == RightHalf(pc.full)
  {
    hide FramesOk;
    hide FullOk;
    hide FrameLatches;
    hide RightHalf;
    FramesNonEmpty(c, pages, root, g, pc.job, pc.meta, pc.frames);
  }

  lemma EvolvesOutside(pages: Pages, g: Shape, q: PageId, n: Node)
    requires q !in g.spans && g.spans.Keys <= pages.Keys
    ensures Evolves(pages, g, pages[q := n], g)
  {
    hide RowSet;
    EvolvesInPlace(pages, g, pages[q := n], g);
  }

  lemma WriteRightStep(c: Config, s: State, s': State, t: Tid, g: Shape, pend: set<PageId>, base: set<Entry>)
    requires Inv(c, s, g, pend, base) && t in s.threads && s.threads[t].drop == {} && s.threads[t].pc.WriteRight?
    requires var pc := s.threads[t].pc;
             s' == s.(pages := s.pages[pc.right := RightHalf(pc.full)],
                      threads := s.threads[t := Thread(WriteLeft(pc.job, pc.meta, pc.frames, pc.pending, pc.full,
                                                                        pc.right), {})])
    ensures Inv(c, s', g, pend, base) && Evolves(s.pages, g, s'.pages, g)
  {
    hide *;
    var pc := s.threads[t].pc;
    InvParts(c, s, g, pend, base, t);
    ThreadParts(c, s, g, pend, t);
    ShapeParts(s.pages, s.root, g, pend, c.kind);
    SplitPcParts(c, s.pages, s.root, g, pend, pc);
    NewPageOutside(s, g, t);
    WriteOutside(s.pages, s.root, g, pend, c.kind, pc.right, RightHalf(pc.full));
    EvolvesOutside(s.pages, g, pc.right, RightHalf(pc.full));
    forall p | p in s.pages && PageLatch(p) in FrameLatches(pc.frames) ensures p != pc.right {
      HeldInTree(c, s, g, pend, base, t, p);
    }
    ShapeSame(g, pend);
    ShapeStepParts(g, g, pend, None);
    FramesKept(c, s.pages, s'.pages, s.root, s.root, g, g, pc.job, pc.meta, pc.frames);
    var pc' := WriteLeft(pc.job, pc.meta, pc.frames, pc.pending, pc.full, pc.right);
    WriteLeftPc(c, s'.pages, s.root, g, pend, pc');
    PendParts(s, pend, t);
    PendSetBack(pend, PendOf(pc));
    WritesOne(s, s', t, pc.right, RightHalf(pc.full));
    CountedSame(s.pages, g, s'.pages, g, base + s.applied, s.gone);
    TreeStep(c, s, s', t, pc', {}, g, g, pend, pend, base, None);
  }

  lemma WriteLeftPc(c: Config, pages: Pages, root: PageId, g: Shape, pend: set<PageId>, pc: Pc)
    requires pc.WriteLeft? && FramesOk(c, pages, root, g, pc.job, pc.meta, pc.frames)
    requires FullOk(c, g, pend, pc.job, pc.meta, pc.frames, pc.pending, pc.full)
    requires pc.right in pages && pages[pc.right] == RightHalf(pc.full)
    ensures PcOk(c, pages, root, g, pend, pc) && OwnedBy(pc) == Some(pc.right)
    ensures PendOf(pc) == (if pc.pending.Some? then Some(pc.pending.value.child) else None)
    ensures PcHeld(pc) == MetaPart(pc.meta) + FrameLatches(pc.frames)
  {
    hide FramesOk;
    hide FullOk;
    hide FrameLatches;
    hide RightHalf;
  }

  lemma TopPcParts(c: Config, pages: Pages, root: PageId, g: Shape, pend: set<PageId>, pc: Pc)
    requires (pc.NewRoot? || pc.WriteTop? || pc.Repoint?)
    ensures PcOk(c, pages, root, g, pend, pc) <==>
              && RootWaiting(c, root, pc.root, g, pend, pc.sep)
              && (pc.Repoint? ==> pc.top in pages && pages[pc.top] == Internal([pc.sep.key], [pc.root, pc.sep.child]))
    ensures PendOf(pc) == Some(pc.sep.child) && PcHeld(pc) == {MetaLatch}
    ensures OwnedBy(pc) == (if pc.NewRoot? then None else Some(pc.top))
  {
    hide RootWaiting;
  }

  lemma NewRootStep(c: Config, s: State, s': State, t: Tid, top: PageId, g: Shape, pend: set<PageId>, base: set<Entry>)
    requires Inv(c, s, g, pend, base) && t in s.threads && s.threads[t].drop == {} && s.threads[t].pc.NewRoot?
    requires top as int == s.next && top != NO_PAGE
    requires var pc := s.threads[t].pc;
             s' == s.(threads := s.threads[t := Thread(WriteTop(pc.job, pc.root, pc.sep, top), {})], next := s.next + 1)
    ensures Inv(c, s', g, pend, base)
  {
    hide *;
    var pc := s.threads[t].pc;
    var pc' := WriteTop(pc.job, pc.root, pc.sep, top);
    InvParts(c, s, g, pend, base, t);
    ThreadParts(c, s, g, pend, t);
    TopPcParts(c, s.pages, s.root, g, pend, pc);
    TopPcParts(c, s.pages, s.root, g, pend, pc');
    MoveStep(c, s, s', t, pc', {}, g, pend, base);
  }

  lemma WriteTopStep(c: Config, s: State, s': State, t: Tid, g: Shape, pend: set<PageId>, base: set<Entry>)
    requires Inv(c, s, g, pend, base) && t in s.threads && s.threads[t].drop == {} && s.threads[t].pc.WriteTop?
    requires var pc := s.threads[t].pc;
             s' == s.(pages := s.pages[pc.top := Internal([pc.sep.key], [pc.root, pc.sep.child])],
                      threads := s.threads[t := Thread(Repoint(pc.job, pc.root, pc.sep, pc.top), {})])
    ensures Inv(c, s', g, pend, base) && Evolves(s.pages, g, s'.pages, g)
  {
    hide *;
    var pc := s.threads[t].pc;
    var pc' := Repoint(pc.job, pc.root, pc.sep, pc.top);
    var n := Internal([pc.sep.key], [pc.root, pc.sep.child]);
    InvParts(c, s, g, pend, base, t);
    ThreadParts(c, s, g, pend, t);
    ShapeParts(s.pages, s.root, g, pend, c.kind);
    TopPcParts(c, s.pages, s.root, g, pend, pc);
    TopPcParts(c, s'.pages, s.root, g, pend, pc');
    NewPageOutside(s, g, t);
    WriteOutside(s.pages, s.root, g, pend, c.kind, pc.top, n);
    EvolvesOutside(s.pages, g, pc.top, n);
    ShapeSame(g, pend);
    PendParts(s, pend, t);
    PendSetBack(pend, PendOf(pc));
    WritesOne(s, s', t, pc.top, n);
    CountedSame(s.pages, g, s'.pages, g, base + s.applied, s.gone);
    TreeStep(c, s, s', t, pc', {}, g, g, pend, pend, base, None);
  }

  // ── the new root ───────────────────────────────────────────────────────────

  /** Only one pending page is on the root level. */
  lemma OneRootGap(c: Config, s: State, g: Shape, pend: set<PageId>, base: set<Entry>, t: Tid, q: PageId, x: PageId)
    requires Inv(c, s, g, pend, base) && t in s.threads && PendOf(s.threads[t].pc) == Some(q)
    requires MetaLatch in PcHeld(s.threads[t].pc) && s.root in g.spans
    requires x in pend && x in g.spans && g.spans[x].level == g.spans[s.root].level
    ensures x == q
  {
    hide *;
    InvParts(c, s, g, pend, base, t);
    var u := OwnerOf(s, pend, x);
    RootGapOwner(c, s, g, pend, base, u, x);
    Exclusive(s, t, u, MetaLatch);
  }

  lemma RepointStep(c: Config, s: State, s': State, t: Tid, g: Shape, pend: set<PageId>, base: set<Entry>)
    returns (g': Shape)
    requires Inv(c, s, g, pend, base) && t in s.threads && s.threads[t].drop == {} && s.threads[t].pc.Repoint?
    requires var pc := s.threads[t].pc;
             s' == s.(root := pc.top, threads := s.threads[t := Thread(Idle, PcHeld(pc))])
    ensures Inv(c, s', g', pend - {s.threads[t].pc.sep.child}, base)
    ensures Evolves(s.pages, g, s'.pages, g') && LeafPages(g') == LeafPages(g)
  {
    hide *;
    var pc := s.threads[t].pc;
    InvParts(c, s, g, pend, base, t);
    ThreadParts(c, s, g, pend, t);
    ShapeParts(s.pages, s.root, g, pend, c.kind);
    RootInTree(g, s.root, pend);
    TopPcParts(c, s.pages, s.root, g, pend, pc);
    RootWaitingParts(c, s.root, pc.root, g, pend, pc.sep);
    NewPageOutside(s, g, t);
    OwnedReal(s, g, t);
    forall x | x in pend && x in g.spans && g.spans[x].level == g.spans[s.root].level ensures x == pc.sep.child {
      OneRootGap(c, s, g, pend, base, t, pc.sep.child, x);
    }
    g' := WriteMeta(s.pages, s.root, g, pend, c.kind, pc.sep.child, pc.sep.key, pc.top);
    GrownStep(g, s.root, pc.top, pend);
    IdleParts(c, s.pages, s'.root, g', pend - {pc.sep.child}, PcHeld(pc));
    PendSetNone();
    PendSetSome(pc.sep.child);
    PendSetSome(pc.top);
    WritesMeta(s, s', t);
    CountedSame(s.pages, g, s'.pages, g', base + s.applied, s.gone);
    TreeStep(c, s, s', t, Idle, PcHeld(pc), g, g', pend, pend - {pc.sep.child}, base, None);
  }

  lemma OwnedReal(s: State, g: Shape, t: Tid)
    requires OwnedOk(s, g) && t in s.threads && OwnedBy(s.threads[t].pc).Some?
    ensures OwnedBy(s.threads[t].pc).value != NO_PAGE
  {
    hide OwnedBy;
  }

  lemma RootWaitingParts(c: Config, root: PageId, r: PageId, g: Shape, pend: set<PageId>, sep: Sep)
    requires RootWaiting(c, root, r, g, pend, sep)
    ensures r == root && root in g.spans && sep.child in pend && sep.child in g.spans && KindOf(sep.key) == c.kind
    ensures g.spans[sep.child] == Span(g.spans[root].level, g.spans[root].b, 1.0)
    ensures g.spans[sep.child].a in g.fence && g.fence[g.spans[sep.child].a] == Rank(sep.key)
  {
  }

  lemma GrownStep(g: Shape, root: PageId, top: PageId, pend: set<PageId>)
    requires root in g.spans && top !in g.spans
    ensures ShapeStep(g, GrownShape(g, root, top), pend, None)
    ensures GrownShape(g, root, top).spans.Keys == g.spans.Keys + {top}
    ensures LeafPages(GrownShape(g, root, top)) == LeafPages(g)
  {
  }

  lemma WritesMeta(s: State, s': State, t: Tid)
    requires t in s.threads && s'.pages == s.pages && MetaLatch in PcHeld(s.threads[t].pc)
    ensures WritesOwn(s, s', t)
  {
    hide PcHeld;
    hide OwnedBy;
  }

  // ── overwriting a node with its left half ──────────────────────────────────

  /** A thread with a rooted stack sees a root that spans everything. */
  lemma RootWhole(c: Config, s: State, g: Shape, pend: set<PageId>, base: set<Entry>, t: Tid)
    requires Inv(c, s, g, pend, base) && t in s.threads && MetaLatch in PcHeld(s.threads[t].pc)
    requires FramesOf(s.threads[t].pc) != []
    ensures s.root in g.spans && g.spans[s.root].b == 1.0
  {
    hide *;
    InvParts(c, s, g, pend, base, t);
    ShapeParts(s.pages, s.root, g, pend, c.kind);
    var q := RootGapWitness(g, s.root, pend);
    if q.Some? {
      var u := OwnerOf(s, pend, q.value);
      RootGapOwner(c, s, g, pend, base, u, q.value);
      Exclusive(s, t, u, MetaLatch);
    }
  }

  /** Where the thread goes once the left half is written. */
  function AfterLeft(pc: Pc, root: PageId): Pc
    requires pc.WriteLeft? && pc.frames != []
  {
    var last := |pc.frames| - 1;
    var sep := Sep(SepOf(pc.full), pc.right);
    if last == 0 then NewRoot(pc.job, root, sep) else Apply(pc.job, pc.meta, pc.frames[..last], Some(sep))
  }

  lemma LatchesOfPrefix(frames: seq<Frame>)
    requires frames != []
    requires forall i, j :: 0 <= i < j < |frames| ==> frames[i].pid != frames[j].pid
    ensures var up := frames[..|frames| - 1];
            && FrameLatches(frames) == FrameLatches(up) + {PageLatch(Top(frames).pid)}
            && PageLatch(Top(frames).pid) !in FrameLatches(up)
    ensures |frames| == 1 ==> FrameLatches(frames[..|frames| - 1]) == {}
  {
    var last := |frames| - 1;
    var up := frames[..last];
    assert frames == up + [frames[last]];
    LatchesOfAppend(up, frames[last]);
  }

  lemma AfterLeftHeld(pc: Pc, root: PageId)
    requires pc.WriteLeft? && pc.frames != [] && (|pc.frames| == 1 ==> pc.meta)
    requires forall i, j :: 0 <= i < j < |pc.frames| ==> pc.frames[i].pid != pc.frames[j].pid
    ensures var pc' := AfterLeft(pc, root);
            && PcHeld(pc') + {PageLatch(Top(pc.frames).pid)} == PcHeld(pc)
            && PcHeld(pc') !! {PageLatch(Top(pc.frames).pid)}
            && PendOf(pc') == Some(pc.right) && OwnedBy(pc').None?
  {
    hide FrameLatches;
    LatchesOfPrefix(pc.frames);
  }

  lemma FramesDistinct(c: Config, pages: Pages, root: PageId, g: Shape, job: Job, meta: bool, frames: seq<Frame>)
    requires FramesOk(c, pages, root, g, job, meta, frames)
    ensures forall i, j :: 0 <= i < j < |frames| ==> frames[i].pid != frames[j].pid
    ensures meta ==> frames[0].pid == root
  {
    hide FrameOk;
    hide Linked;
    hide InsertSafe;
  }

  /** Dropping the deepest frame leaves a sound stack. */
  lemma FramesPrefix(c: Config, pages: Pages, root: PageId, g: Shape, job: Job, meta: bool, frames: seq<Frame>)
    requires FramesOk(c, pages, root, g, job, meta, frames) && |frames| > 1
    ensures FramesOk(c, pages, root, g, job, meta, frames[..|frames| - 1])
    ensures Linked(frames[|frames| - 2], frames[|frames| - 1])
  {
    hide FrameOk;
    hide Linked;
    hide InsertSafe;
  }

  lemma AfterLeftApply(c: Config, s: State, pages': Pages, g: Shape, g': Shape, pend: set<PageId>, pend': set<PageId>,
                       base: set<Entry>, t: Tid, n: Node)
    requires Inv(c, s, g, pend, base) && t in s.threads && s.threads[t].pc.WriteLeft?
    requires var pc := s.threads[t].pc;
             && |pc.frames| > 1 && pages' == s.pages[Top(pc.frames).pid := n]
             && pc.right in pend' && pc.right in g'.spans
             && Cut(g, g', Top(pc.frames).pid, pc.right, g'.spans[pc.right].a)
             && Rose(g', pc.right, SepOf(pc.full), c.kind)
    ensures PcOk(c, pages', s.root, g', pend', AfterLeft(s.threads[t].pc, s.root))
  {
    hide *;
    var pc := s.threads[t].pc;
    var last := |pc.frames| - 1;
    var up := pc.frames[..last];
    var p := Top(pc.frames).pid;
    InvParts(c, s, g, pend, base, t);
    ThreadParts(c, s, g, pend, t);
    SplitPcParts(c, s.pages, s.root, g, pend, pc);
    FramesPrefix(c, s.pages, s.root, g, pc.job, pc.meta, pc.frames);
    FramesDistinct(c, s.pages, s.root, g, pc.job, pc.meta, pc.frames);
    TopIs(pc.frames);
    CutExtends(g, g', p, pc.right, g'.spans[pc.right].a);
    forall x | x in s.pages && PageLatch(x) in FrameLatches(up) ensures x != p {
      var k := FrameIndex(up, x);
      assert pc.frames[k].pid == x;
    }
    FramesKept(c, s.pages, pages', s.root, s.root, g, g', pc.job, pc.meta, up);
    FrameIsSound(c, s, g, pend, base, t, last - 1);
    var f := pc.frames[last - 1];
    LinkedParts(f, pc.frames[last]);
    NoGapBelow(c, s, g, pend, base, t, last - 1, f.route);
    CutFills(g, g', p, pc.right, g'.spans[pc.right].a, f.pid, f.node, f.route);
    RoseWaiting(c, g', pend', f.pid, f.node, f.route, SepOf(pc.full), pc.right);
    AfterLeftPc(c, pages', s.root, g', pend', pc);
  }

  lemma TopIs(frames: seq<Frame>)
    requires frames != []
    ensures Top(frames) == frames[|frames| - 1]
  {
  }

  lemma LinkedParts(f: Frame, f': Frame)
    requires Linked(f, f')
    ensures f.node.Internal? && f.route < |f.node.children| && f.node.children[f.route] == f'.pid
  {
  }

  lemma RoseWaiting(c: Config, g: Shape, pend: set<PageId>, p: PageId, n: Node, at: nat, sep: Key, q: PageId)
    requires Rose(g, q, sep, c.kind) && Fills(g, p, n, at, q) && q in pend
    ensures Waiting(g, pend, c.kind, p, n, at, sep, q)
  {
  }

  lemma AfterLeftPc(c: Config, pages: Pages, root: PageId, g: Shape, pend: set<PageId>, pc: Pc)
    requires pc.WriteLeft? && |pc.frames| > 1
    requires var up := pc.frames[..|pc.frames| - 1];
             && FramesOk(c, pages, root, g, pc.job, pc.meta, up) && Linked(up[|up| - 1], Top(pc.frames))
             && Waiting(g, pend, c.kind, up[|up| - 1].pid, up[|up| - 1].node, up[|up| - 1].route, SepOf(pc.full),
                        pc.right)
    ensures PcOk(c, pages, root, g, pend, AfterLeft(pc, root))
  {
    hide FramesOk;
    hide Waiting;
    hide SepOf;
  }

  lemma AfterLeftRoot(c: Config, s: State, pages': Pages, g: Shape, g': Shape, pend: set<PageId>, pend': set<PageId>,
                      base: set<Entry>, t: Tid)
    requires Inv(c, s, g, pend, base) && t in s.threads && s.threads[t].pc.WriteLeft?
    requires var pc := s.threads[t].pc;
             && |pc.frames| == 1 && pc.right in pend' && pc.right in g'.spans
             && Cut(g, g', Top(pc.frames).pid, pc.right, g'.spans[pc.right].a)
             && Rose(g', pc.right, SepOf(pc.full), c.kind)
    ensures PcOk(c, pages', s.root, g', pend', AfterLeft(s.threads[t].pc, s.root))
  {
    hide *;
    var pc := s.threads[t].pc;
    InvParts(c, s, g, pend, base, t);
    ThreadParts(c, s, g, pend, t);
    SplitPcParts(c, s.pages, s.root, g, pend, pc);
    SplitContext(c, s, g, pend, t);
    RootWhole(c, s, g, pend, base, t);
    CutRootWaiting(c, s.root, g, g', pend', Sep(SepOf(pc.full), pc.right));
    AfterLeftIs(pc, s.root);
    TopPcParts(c, pages', s.root, g', pend', AfterLeft(pc, s.root));
  }

  lemma AfterLeftIs(pc: Pc, root: PageId)
    requires pc.WriteLeft? && |pc.frames| == 1
    ensures AfterLeft(pc, root) == NewRoot(pc.job, root, Sep(SepOf(pc.full), pc.right))
  {
  }

  lemma CutRootWaiting(c: Config, root: PageId, g: Shape, g': Shape, pend: set<PageId>, sep: Sep)
    requires root in g.spans && g.spans[root].b == 1.0 && sep.child in pend && sep.child in g'.spans
    requires Cut(g, g', root, sep.child, g'.spans[sep.child].a) && Rose(g', sep.child, sep.key, c.kind)
    ensures RootWaiting(c, root, root, g', pend, sep)
  {
  }

  lemma CutStep(g: Shape, g': Shape, pend: set<PageId>, p: PageId, q: PageId, m: real)
    requires Cut(g, g', p, q, m) && p !in pend && NoGapAfter(g, pend, p)
    ensures ShapeStep(g, g', pend, Some(p)) && g'.spans.Keys == g.spans.Keys + {q}
  {
    CutExtends(g, g', p, q, m);
  }

  /** The bookkeeping of the left-half write, once the tree and the rows are known. */
  lemma LeftWritten(c: Config, s: State, s': State, t: Tid, g: Shape, g': Shape, pend: set<PageId>, pend': set<PageId>,
                    base: set<Entry>, n: Node)
    requires Inv(c, s, g, pend, base) && t in s.threads && s.threads[t].drop == {} && s.threads[t].pc.WriteLeft?
    requires s.threads[t].pc.frames != []
    requires var pc := s.threads[t].pc;
             && s'.threads == s.threads[t := Thread(AfterLeft(pc, s.root), {PageLatch(Top(pc.frames).pid)})]
             && s'.pages == s.pages[Top(pc.frames).pid := n] && s'.root == s.root && s'.next == s.next
             && s'.latches == s.latches
             && TreeInv(s'.pages, s'.root, g', pend', c.kind)
             && pend' == pend - PendSet(PendOf(pc)) + {pc.right} && pc.right in g'.spans
             && Cut(g, g', Top(pc.frames).pid, pc.right, g'.spans[pc.right].a)
             && Rose(g', pc.right, SepOf(pc.full), c.kind)
    requires Counted(s'.pages, g', base + s'.applied, s'.gone)
    ensures Inv(c, s', g', pend', base)
  {
    hide *;
    var pc := s.threads[t].pc;
    var p := Top(pc.frames).pid;
    InvParts(c, s, g, pend, base, t);
    ThreadParts(c, s, g, pend, t);
    ShapeParts(s.pages, s.root, g, pend, c.kind);
    SplitPcParts(c, s.pages, s.root, g, pend, pc);
    FramesDistinct(c, s.pages, s.root, g, pc.job, pc.meta, pc.frames);
    FullRooted(c, g, pend, pc);
    AfterLeftHeld(pc, s.root);
    SplitIsClear(c, s, g, pend, base, t);
    CutStep(g, g', pend, p, pc.right, g'.spans[pc.right].a);
    NewPageOutside(s, g, t);
    PendSetSome(pc.right);
    if |pc.frames| == 1 {
      AfterLeftRoot(c, s, s'.pages, g, g', pend, pend', base, t);
    } else {
      AfterLeftApply(c, s, s'.pages, g, g', pend, pend', base, t, n);
    }
    WritesOne(s, s', t, p, n);
    TopIsSound(c, s.pages, s.root, g, pend, pc.job, pc.meta, pc.frames);
    PendingInTree(g, pend, pc.right);
    TreeStep(c, s, s', t, AfterLeft(pc, s.root), {PageLatch(p)}, g, g', pend, pend', base, Some(p));
  }

  lemma FullRooted(c: Config, g: Shape, pend: set<PageId>, pc: Pc)
    requires (pc.WriteRight? || pc.WriteLeft?) && FullOk(c, g, pend, pc.job, pc.meta, pc.frames, pc.pending, pc.full)
    ensures |pc.frames| == 1 ==> pc.meta
  {
    hide LeafOk;
    hide Waiting;
    hide Adds;
    hide Gains;
    hide NodeKind;
  }

  lemma PendingInTree(g: Shape, pend: set<PageId>, q: PageId)
    requires pend <= g.spans.Keys && q !in g.spans
    ensures q !in pend
  {
  }

  /** What the oversize node is, in terms of the page it replaces. */
  lemma FullLeafParts(c: Config, g: Shape, pend: set<PageId>, pc: Pc)
    requires pc.WriteLeft? && FullOk(c, g, pend, pc.job, pc.meta, pc.frames, pc.pending, pc.full) && pc.full.Leaf?
    ensures pc.frames != [] && Top(pc.frames).node.Leaf? && pc.full.entries != [] && pc.pending.None?
    ensures LeafOk(pc.full, Top(pc.frames).pid, g) && NodeKind(pc.full, c.kind)
    ensures Adds(Top(pc.frames).node, pc.full, Taken(pc.job, Top(pc.frames).node))
    ensures Gains(Top(pc.frames).node, pc.full, pc.job)
    ensures RightHalf(pc.full) == LeafRight(pc.full) && SepOf(pc.full) == LeafSep(pc.full)
    ensures LeftHalf(pc.full, pc.right) == LeafLeft(pc.full, pc.right)
  {
    hide LeafOk;
    hide Adds;
    hide Gains;
    hide Taken;
    hide NodeKind;
    hide Waiting;
  }

  lemma FullInnerParts(c: Config, g: Shape, pend: set<PageId>, pc: Pc)
    requires pc.WriteLeft? && FullOk(c, g, pend, pc.job, pc.meta, pc.frames, pc.pending, pc.full) && pc.full.Internal?
    ensures pc.frames != [] && Top(pc.frames).node.Internal? && Branching(pc.full) && pc.pending.Some?
    ensures var f := Top(pc.frames); var sep := pc.pending.value;
            && pc.full == InternalInsert(f.node, f.route, sep.key, sep.child)
            && Waiting(g, pend, c.kind, f.pid, f.node, f.route, sep.key, sep.child)
    ensures RightHalf(pc.full) == InternalRight(pc.full) && SepOf(pc.full) == InternalSep(pc.full)
    ensures LeftHalf(pc.full, pc.right) == InternalLeft(pc.full)
  {
    hide LeafOk;
    hide Adds;
    hide Gains;
    hide Taken;
    hide NodeKind;
    hide Waiting;
    hide Branching;
    hide InternalInsert;
  }

  lemma WriteLeftLeafStep(c: Config, s: State, s': State, t: Tid, g: Shape, pend: set<PageId>, base: set<Entry>)
    returns (g': Shape)
    requires Inv(c, s, g, pend, base) && t in s.threads && s.threads[t].drop == {} && s.threads[t].pc.WriteLeft?
    requires s.threads[t].pc.frames != [] && s.threads[t].pc.full.Leaf?
    requires var pc := s.threads[t].pc;
             s' == State(s.pages[Top(pc.frames).pid := LeftHalf(pc.full, pc.right)], s.root, s.next, s.latches,
                         s.threads[t := Thread(AfterLeft(pc, s.root), {PageLatch(Top(pc.frames).pid)})],
                         s.applied + Taken(pc.job, Top(pc.frames).node), s.gone)
    ensures Inv(c, s', g', pend + {s.threads[t].pc.right}, base) && Evolves(s.pages, g, s'.pages, g')
    ensures LeafPages(g') == LeafPages(g) + {s.threads[t].pc.right}
  {
    hide *;
    var pc := s.threads[t].pc;
    var p := Top(pc.frames).pid;
    var new' := Taken(pc.job, Top(pc.frames).node);
    InvParts(c, s, g, pend, base, t);
    ThreadParts(c, s, g, pend, t);
    SplitPcParts(c, s.pages, s.root, g, pend, pc);
    FullLeafParts(c, g, pend, pc);
    ShapeParts(s.pages, s.root, g, pend, c.kind);
    TopIsSound(c, s.pages, s.root, g, pend, pc.job, pc.meta, pc.frames);
    SplitIsClear(c, s, g, pend, base, t);
    NewPageOutside(s, g, t);
    OwnedReal(s, g, t);
    AddsParts(Top(pc.frames).node, pc.full, new');
    g' := WriteLeafLeft(s.pages, s.root, g, pend, c.kind, p, pc.right, pc.full);
    CutLeaves(g, g', p, pc.right, g'.spans[pc.right].a);
    PairsGrow(s.pages, g, p, pc.full, new');
    assert base + s'.applied == base + s.applied + new';
    CountedGrow(s.pages, g, s'.pages, g', base + s.applied, s.gone, new');
    PendSetNone();
    LeftWritten(c, s, s', t, g, g', pend, pend + {pc.right}, base, LeafLeft(pc.full, pc.right));
  }

  lemma WriteLeftInnerStep(c: Config, s: State, s': State, t: Tid, g: Shape, pend: set<PageId>, base: set<Entry>)
    returns (g': Shape, pend': set<PageId>)
    requires Inv(c, s, g, pend, base) && t in s.threads && s.threads[t].drop == {} && s.threads[t].pc.WriteLeft?
    requires s.threads[t].pc.frames != [] && s.threads[t].pc.full.Internal?
    requires var pc := s.threads[t].pc;
             s' == State(s.pages[Top(pc.frames).pid := LeftHalf(pc.full, pc.right)], s.root, s.next, s.latches,
                         s.threads[t := Thread(AfterLeft(pc, s.root), {PageLatch(Top(pc.frames).pid)})], s.applied,
                         s.gone)
    ensures Inv(c, s', g', pend', base) && Evolves(s.pages, g, s'.pages, g') && LeafPages(g') == LeafPages(g)
  {
    hide *;
    var pc := s.threads[t].pc;
    var f := Top(pc.frames);
    InvParts(c, s, g, pend, base, t);
    ThreadParts(c, s, g, pend, t);
    SplitPcParts(c, s.pages, s.root, g, pend, pc);
    FullInnerParts(c, g, pend, pc);
    var sep := pc.pending.value;
    ShapeParts(s.pages, s.root, g, pend, c.kind);
    TopIsSound(c, s.pages, s.root, g, pend, pc.job, pc.meta, pc.frames);
    SplitIsClear(c, s, g, pend, base, t);
    NewPageOutside(s, g, t);
    OwnedReal(s, g, t);
    TopIs(pc.frames);
    forall i | 0 <= i < |f.node.children| && i != f.route
      ensures f.node.children[i] in g.spans && g.spans[f.node.children[i]].b == ChildEnd(f.node, f.pid, g, i)
    {
      NoGapBelow(c, s, g, pend, base, t, |pc.frames| - 1, i);
    }
    OnlyGapIntro(f.node, f.pid, g, f.route);
    g' := WriteInnerLeft(s.pages, s.root, g, pend, c.kind, f.pid, f.route, sep.key, sep.child, pc.full, pc.right);
    CutLeaves(g, g', f.pid, pc.right, g'.spans[pc.right].a);
    pend' := pend - {sep.child} + {pc.right};
    PendSetSome(sep.child);
    CountedSame(s.pages, g, s'.pages, g', base + s.applied, s.gone);
    LeftWritten(c, s, s', t, g, g', pend, pend', base, InternalLeft(pc.full));
  }

  lemma OnlyGapIntro(n: Node, p: PageId, g: Shape, at: nat)
    requires n.Internal?
    requires forall i :: 0 <= i < |n.children| && i != at ==>
               n.children[i] in g.spans && g.spans[n.children[i]].b == ChildEnd(n, p, g, i)
    ensures OnlyGapAt(n, p, g, at)
  {
  }
}
