/**
  The steps of the other writers at a leaf: merging a run into it, and finding, latching
  and rewriting one leaf at a time.
 */
module CrabbingLeaves {
  import opened Keys
  import opened Nodes
  import opened Shapes
  import opened Steps
  import opened Merges
  import opened Searches
  import opened Rewrites
  import opened Crabbing
  import opened CrabbingFrames
  import opened CrabbingSafety
  import opened CrabbingSteps

  // ── merging a run into the leaf ────────────────────────────────────────────

  lemma OrderIsSorted(run: seq<Entry>)
    ensures InKeyOrder(run) <==> KeysSorted(run)
  {
  }

  lemma TakenRun(job: Job, n: Node, count: nat)
    requires job.task.PutRun? && count == RunFor(n, job.task.run)
    ensures Taken(job, n) == AsSet(job.task.run[..count])
  {
  }

  /** What the run of a job makes of the leaf it is merged into. */
  lemma RunMerged(c: Config, g: Shape, job: Job, p: PageId, n: Node)
    requires JobOk(c, job) && job.task.PutRun? && LeafOk(n, p, g) && NodeKind(n, c.kind) && n.Leaf? && n.payloads == []
    requires RunFor(n, job.task.run) > 0
    ensures var full := Leaf(Merged(n.entries, job.task.run[..RunFor(n, job.task.run)]), [], n.next);
            LeafOk(full, p, g) && NodeKind(full, c.kind) && full.entries != [] && Adds(n, full, Taken(job, n))
  {
    var run, count := job.task.run, RunFor(n, job.task.run);
    OrderIsSorted(run);
    TakenRun(job, n, count);
    RunForParts(n, run);
    hide RunFor;
    hide Taken;
    hide RunCount;
    hide Between;
    forall k | 0 <= k < count ensures KindOf(run[..count][k].key) == c.kind {
      assert run[k] in run;
    }
    MergedLeaf(n, p, g, c.kind, run[..count]);
    AddsRun(n, Leaf(Merged(n.entries, run[..count]), [], n.next), AsSet(run[..count]));
  }

  lemma GainsRun(n: Node, job: Job, full: Node)
    requires n.Leaf? && job.task.PutRun?
    requires full == Leaf(Merged(n.entries, job.task.run[..RunFor(n, job.task.run)]), [], n.next)
    ensures Gains(n, full, job)
  {
    MergedBag(n.entries, job.task.run[..RunFor(n, job.task.run)]);
  }

  lemma RunForParts(n: Node, run: seq<Entry>)
    requires RunFor(n, run) > 0
    ensures n.Leaf? && n.entries != []
    ensures forall k :: 0 <= k < RunFor(n, run) ==>
              Between(run[k].key, n.entries[0].key, n.entries[|n.entries| - 1].key)
  {
  }

  lemma BarePairs(n: Node)
    requires n.Leaf?
    ensures Pairs(RowSet(n)) == EntrySet(n)
  {
    forall e | e in EntrySet(n) ensures e in Pairs(RowSet(n)) {
      var i :| 0 <= i < |n.entries| && n.entries[i] == e;
      var rows := RowsOf(n.entries, n.payloads);
      assert rows[i] in rows;
      assert rows[i] in RowSet(n);
    }
    forall e | e in Pairs(RowSet(n)) ensures e in EntrySet(n) {
      var r :| r in RowSet(n) && e == Entry(r.key, r.rid);
      var i :| 0 <= i < |n.entries| && RowsOf(n.entries, n.payloads)[i] == r;
      assert n.entries[i] == e;
    }
  }

  lemma AddsRun(n: Node, full: Node, new': set<Entry>)
    requires n.Leaf? && full.Leaf? && RowSet(n) <= RowSet(full) && EntrySet(full) == EntrySet(n) + new'
    ensures Adds(n, full, new')
  {
    BarePairs(n);
    BarePairs(full);
    hide RowSet;
    hide EntrySet;
  }

  /** The merged leaf fits: one page write puts the run in. */
  lemma MergeFitStep(c: Config, s: State, s': State, t: Tid, full: Node, g: Shape, pend: set<PageId>, base: set<Entry>)
    requires Inv(c, s, g, pend, base) && t in s.threads && s.threads[t].drop == {}
    requires var pc := s.threads[t].pc;
             && pc.Apply? && pc.pending.None? && pc.frames != [] && pc.job.task.PutRun?
             && var n := Top(pc.frames).node;
                && n.Leaf? && n.payloads == [] && RunFor(n, pc.job.task.run) > 0
                && full == Leaf(Merged(n.entries, pc.job.task.run[..RunFor(n, pc.job.task.run)]), [], n.next)
                && s' == State(s.pages[Top(pc.frames).pid := full], s.root, s.next, s.latches,
                               s.threads[t := Thread(Idle, PcHeld(pc))], s.applied + Taken(pc.job, n), s.gone)
    ensures Inv(c, s', g, pend, base) && Evolves(s.pages, g, s'.pages, g)
  {
    hide *;
    var pc := s.threads[t].pc;
    AtLeaf(c, s, g, pend, base, t);
    RunMerged(c, g, pc.job, Top(pc.frames).pid, Top(pc.frames).node);
    LeafWritten(c, s, s', t, full, Taken(pc.job, Top(pc.frames).node), g, pend, base);
  }

  /** The merged leaf takes two pages: the thread allocates the right one. */
  lemma MergeSplitStartStep(c: Config, s: State, s': State, t: Tid, full: Node, right: PageId, g: Shape,
                            pend: set<PageId>, base: set<Entry>)
    requires Inv(c, s, g, pend, base) && t in s.threads && s.threads[t].drop == {}
    requires var pc := s.threads[t].pc;
             && pc.Apply? && pc.pending.None? && pc.frames != [] && pc.job.task.PutRun?
             && var n := Top(pc.frames).node;
                && n.Leaf? && n.payloads == [] && RunFor(n, pc.job.task.run) > 0
                && full == Leaf(Merged(n.entries, pc.job.task.run[..RunFor(n, pc.job.task.run)]), [], n.next)
                && right as int == s.next && right != NO_PAGE
                && s' == s.(threads := s.threads[t := Thread(WriteRight(pc.job, pc.meta, pc.frames, None, full,
                                                                        right), {})],
                            next := s.next + 1)
    ensures Inv(c, s', g, pend, base)
  {
    hide *;
    var pc := s.threads[t].pc;
    InvParts(c, s, g, pend, base, t);
    AtLeaf(c, s, g, pend, base, t);
    RunMerged(c, g, pc.job, Top(pc.frames).pid, Top(pc.frames).node);
    GainsRun(Top(pc.frames).node, pc.job, full);
    LeafSplitPc(c, s.pages, s.root, g, pend, pc, full, right);
    MoveStep(c, s, s', t, WriteRight(pc.job, pc.meta, pc.frames, None, full, right), {}, g, pend, base);
  }

  /** A job returns without having written anything. */
  lemma LeaveStep(c: Config, s: State, s': State, t: Tid, g: Shape, pend: set<PageId>, base: set<Entry>)
    requires Inv(c, s, g, pend, base) && t in s.threads && s.threads[t].drop == {}
    requires var pc := s.threads[t].pc; (pc.Apply? && pc.pending.None?) || pc.Latched?
    requires s' == s.(threads := s.threads[t := Thread(Idle, PcHeld(s.threads[t].pc))])
    ensures Inv(c, s', g, pend, base)
  {
    hide *;
    var pc := s.threads[t].pc;
    InvParts(c, s, g, pend, base, t);
    IdleParts(c, s.pages, s.root, g, pend, PcHeld(pc));
    NoneOwed(pc);
    MoveStep(c, s, s', t, Idle, PcHeld(pc), g, pend, base);
  }

  lemma NoneOwed(pc: Pc)
    requires (pc.Apply? && pc.pending.None?) || pc.SeekRoot? || pc.Seek? || pc.WaitLeaf? || pc.Latched?
    ensures PendOf(pc).None? && OwnedBy(pc).None?
  {
  }

  // ── rewriting one leaf ─────────────────────────────────────────────────────

  lemma LeafWriterParts(c: Config, pages: Pages, root: PageId, g: Shape, pend: set<PageId>, pc: Pc)
    requires PcOk(c, pages, root, g, pend, pc) && (pc.Seek? || pc.WaitLeaf? || pc.Latched?)
    ensures pc.job.task.Rework? && pc.pid in g.spans && (!pc.Seek? ==> g.spans[pc.pid].level == 0)
    ensures PcHeld(pc) == if pc.Latched? then {PageLatch(pc.pid)} else {}
  {
  }

  /** Reading one more page on the way to a leaf, without a latch. */
  lemma SeekStep(c: Config, s: State, s': State, t: Tid, g: Shape, pend: set<PageId>, base: set<Entry>)
    requires Inv(c, s, g, pend, base) && t in s.threads && s.threads[t].drop == {}
    requires var pc := s.threads[t].pc;
             || (pc.SeekRoot? && s' == Move(s, t, Seek(pc.job, s.root)))
             || (pc.Seek? && pc.pid in s.pages && GoSeek(s, t, pc) == Some(s'))
    ensures Inv(c, s', g, pend, base)
  {
    hide *;
    var pc := s.threads[t].pc;
    InvParts(c, s, g, pend, base, t);
    ThreadParts(c, s, g, pend, t);
    ShapeParts(s.pages, s.root, g, pend, c.kind);
    RootInTree(g, s.root, pend);
    var pc' := Seek(pc.job, s.root);
    if pc.Seek? {
      LeafWriterParts(c, s.pages, s.root, g, pend, pc);
      TreePage(s.pages, s.root, g, pend, c.kind, pc.pid);
      if g.spans[pc.pid].level > 0 { ReadTarget(Eq, s.pages, s.root, g, pend, c.kind, pc.pid, pc.job.key); }
      pc' := SeekEffect(s, s', t, g);
    }
    MoveIs(s, t, pc');
    SeekPc(c, s.pages, s.root, g, pend, pc, pc');
    MoveStep(c, s, s', t, pc', {}, g, pend, base);
  }

  lemma SeekEffect(s: State, s': State, t: Tid, g: Shape) returns (pc': Pc)
    requires t in s.threads && s.threads[t].pc.Seek?
    requires var pc := s.threads[t].pc;
             && pc.pid in s.pages && GoSeek(s, t, pc) == Some(s') && pc.pid in g.spans
             && (g.spans[pc.pid].level == 0 ==> LeafOk(s.pages[pc.pid], pc.pid, g))
             && (g.spans[pc.pid].level > 0 ==>
                   && s.pages[pc.pid].Internal?
                   && RouteRead(Eq, s.pages[pc.pid].keys, pc.job.key) < |s.pages[pc.pid].children|
                   && s.pages[pc.pid].children[RouteRead(Eq, s.pages[pc.pid].keys, pc.job.key)] in g.spans)
    ensures s' == Move(s, t, pc') && (pc'.Seek? || pc'.WaitLeaf?) && pc'.job == s.threads[t].pc.job
    ensures pc'.pid in g.spans && (pc'.WaitLeaf? ==> g.spans[pc'.pid].level == 0)
  {
    hide RouteRead;
    var pc := s.threads[t].pc;
    if g.spans[pc.pid].level == 0 {
      pc' := WaitLeaf(pc.job, pc.pid);
    } else {
      pc' := Seek(pc.job, s.pages[pc.pid].children[RouteRead(Eq, s.pages[pc.pid].keys, pc.job.key)]);
    }
  }

  lemma SeekPc(c: Config, pages: Pages, root: PageId, g: Shape, pend: set<PageId>, pc: Pc, pc': Pc)
    requires PcOk(c, pages, root, g, pend, pc) && (pc.SeekRoot? || pc.Seek?) && (pc'.Seek? || pc'.WaitLeaf?)
    requires pc'.job == pc.job
    requires pc'.pid in g.spans && (pc'.WaitLeaf? ==> g.spans[pc'.pid].level == 0)
    ensures PcOk(c, pages, root, g, pend, pc') && PcHeld(pc') + {} == PcHeld(pc) && PcHeld(pc') !! {}
    ensures PendOf(pc') == PendOf(pc) && OwnedBy(pc').None?
  {
  }

  lemma LatchLeafStep(c: Config, s: State, s': State, t: Tid, g: Shape, pend: set<PageId>, base: set<Entry>)
    requires Inv(c, s, g, pend, base) && t in s.threads && s.threads[t].drop == {} && s.threads[t].pc.WaitLeaf?
    requires var pc := s.threads[t].pc; Lock(s, t, PageLatch(pc.pid), Latched(pc.job, pc.pid)) == Some(s')
    ensures Inv(c, s', g, pend, base)
  {
    hide *;
    var pc := s.threads[t].pc;
    var pc' := Latched(pc.job, pc.pid);
    InvParts(c, s, g, pend, base, t);
    ThreadParts(c, s, g, pend, t);
    LockEffect(s, s', t, PageLatch(pc.pid), pc');
    LatchedPc(c, s.pages, s.root, g, pend, pc);
    LockStep(c, s, s', t, PageLatch(pc.pid), pc', g, pend, base);
  }

  lemma LatchedPc(c: Config, pages: Pages, root: PageId, g: Shape, pend: set<PageId>, pc: Pc)
    requires pc.WaitLeaf? && PcOk(c, pages, root, g, pend, pc)
    ensures var pc' := Latched(pc.job, pc.pid);
            && PcOk(c, pages, root, g, pend, pc') && PcHeld(pc') == PcHeld(pc) + {PageLatch(pc.pid)}
            && PendOf(pc') == PendOf(pc) && OwnedBy(pc').None?
  {
  }

  lemma RightLeafStep(c: Config, s: State, s': State, t: Tid, g: Shape, pend: set<PageId>, base: set<Entry>)
    requires Inv(c, s, g, pend, base) && t in s.threads && s.threads[t].drop == {} && s.threads[t].pc.Latched?
    requires RightStep(s, t, s.threads[t].pc) == Some(s')
    ensures Inv(c, s', g, pend, base)
  {
    hide *;
    var pc := s.threads[t].pc;
    InvParts(c, s, g, pend, base, t);
    ThreadParts(c, s, g, pend, t);
    LeafWriterParts(c, s.pages, s.root, g, pend, pc);
    TreePage(s.pages, s.root, g, pend, c.kind, pc.pid);
    var next := RightEffect(s, s', t, g);
    NoneOwed(pc);
    NextPc(c, s.pages, s.root, g, pend, pc, next);
    MoveStep(c, s, s', t, WaitLeaf(pc.job, next), PcHeld(pc), g, pend, base);
  }

  lemma RightEffect(s: State, s': State, t: Tid, g: Shape) returns (next: PageId)
    requires t in s.threads && s.threads[t].pc.Latched? && RightStep(s, t, s.threads[t].pc) == Some(s')
    requires var pc := s.threads[t].pc; pc.pid in s.pages && LeafOk(s.pages[pc.pid], pc.pid, g)
    ensures s' == s.(threads := s.threads[t := Thread(WaitLeaf(s.threads[t].pc.job, next), PcHeld(s.threads[t].pc))])
    ensures next in g.spans && g.spans[next].level == 0 && s.threads[t].pc.pid in g.spans
    ensures g.spans[next].a == g.spans[s.threads[t].pc.pid].b
  {
    next := s.pages[s.threads[t].pc.pid].next;
  }

  lemma NextPc(c: Config, pages: Pages, root: PageId, g: Shape, pend: set<PageId>, pc: Pc, next: PageId)
    requires pc.Latched? && pc.job.task.Rework? && next in g.spans && g.spans[next].level == 0
    ensures var pc' := WaitLeaf(pc.job, next);
            && PcOk(c, pages, root, g, pend, pc') && PcHeld(pc') + PcHeld(pc) == PcHeld(pc) && PcHeld(pc') !! PcHeld(pc)
            && PendOf(pc').None? && OwnedBy(pc').None?
  {
  }

  lemma RewriteEffect(c: Config, s: State, s': State, t: Tid, edits: seq<Edit>) returns (n: Node)
    requires t in s.threads && s.threads[t].pc.Latched? && RewriteStep(c, s, t, s.threads[t].pc, edits) == Some(s')
    ensures var pc := s.threads[t].pc;
            && pc.pid in s.pages && EditAll(c.kind, s.pages[pc.pid], s.pages[pc.pid], edits) == Some(n)
            && s' == State(s.pages[pc.pid := n], s.root, s.next, s.latches, s.threads[t := Thread(Idle, PcHeld(pc))],
                           s.applied + NewPairs(edits), s.gone + OldPairs(s.pages[pc.pid], edits))
  {
    hide EditAll;
    hide NewPairs;
    hide OldPairs;
    hide BodyLen;
    hide PcHeld;
    var pc := s.threads[t].pc;
    n := EditAll(c.kind, s.pages[pc.pid], s.pages[pc.pid], edits).value;
  }

  lemma CountedRewrite(pages: Pages, g: Shape, pages': Pages, have: set<Entry>, gone: set<Entry>, lost: set<Entry>,
                       new': set<Entry>)
    requires Counted(pages, g, have, gone)
    requires Pairs(Rows(pages, g)) + new' - lost <= Pairs(Rows(pages', g)) <= Pairs(Rows(pages, g)) + new'
    ensures Counted(pages', g, have + new', gone + lost)
  {
    hide Pairs;
    hide Rows;
  }

  /** Rewriting the latched leaf keeps the tree, and loses only what the edits take away. */
  lemma RewriteLeafStep(c: Config, s: State, s': State, t: Tid, edits: seq<Edit>, g: Shape, pend: set<PageId>,
                        base: set<Entry>)
    requires Inv(c, s, g, pend, base) && t in s.threads && s.threads[t].drop == {} && s.threads[t].pc.Latched?
    requires RewriteStep(c, s, t, s.threads[t].pc, edits) == Some(s')
    ensures s.threads[t].pc.pid in s.pages
    ensures Inv(c, s', g, pend, base)
    ensures EvolvesBut(s.pages, g, s'.pages, g, OldPairs(s.pages[s.threads[t].pc.pid], edits))
  {
    hide *;
    var pc := s.threads[t].pc;
    InvParts(c, s, g, pend, base, t);
    ThreadParts(c, s, g, pend, t);
    LeafWriterParts(c, s.pages, s.root, g, pend, pc);
    TreePage(s.pages, s.root, g, pend, c.kind, pc.pid);
    var n := RewriteEffect(c, s, s', t, edits);
    var home := s.pages[pc.pid];
    EditAllKeeps(c.kind, home, home, pc.pid, g, edits);
    RewriteWrite(s.pages, s.root, g, pend, c.kind, pc.pid, n, OldPairs(home, edits), NewPairs(edits));
    CountedRewrite(s.pages, g, s'.pages, base + s.applied, s.gone, OldPairs(home, edits), NewPairs(edits));
    assert base + s'.applied == base + s.applied + NewPairs(edits);
    IdleParts(c, s'.pages, s.root, g, pend, PcHeld(pc));
    NoneOwed(pc);
    PendSetNone();
    ShapeSame(g, pend);
    WritesOne(s, s', t, pc.pid, n);
    TreeStep(c, s, s', t, Idle, PcHeld(pc), g, g, pend, pend, base, None);
  }
}
