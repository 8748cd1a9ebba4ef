/**
  Whole runs: the invariant holds in every state any interleaving can reach.
 */
module CrabbingRuns {
  import opened Keys
  import opened Nodes
  import opened Shapes
  import opened Steps
  import opened Merges
  import opened Rewrites
  import opened Crabbing
  import opened CrabbingFrames
  import opened CrabbingSafety
  import opened CrabbingSteps
  import opened CrabbingLeaves
  import opened CrabbingWrites
  import opened Searches
  import opened Trees

  lemma EvolvesSame(pages: Pages, g: Shape)
    requires g.spans.Keys <= pages.Keys
    ensures Evolves(pages, g, pages, g)
  {
    hide RowSet;
    EvolvesInPlace(pages, g, pages, g);
  }

  // ── the first steps of an insert ───────────────────────────────────────────

  /** Beginning a job, or reading the root pointer under the meta latch. */
  lemma EntryStep(c: Config, s: State, s': State, t: Tid, pc': Pc, g: Shape, pend: set<PageId>, base: set<Entry>)
    requires Inv(c, s, g, pend, base) && t in s.threads && s.threads[t].drop == {} && s' == Move(s, t, pc')
    requires var pc := s.threads[t].pc;
             || (pc.Idle? && pc'.WaitMeta? && JobOk(c, pc'.job) && !pc'.job.task.Rework?)
             || (pc.Idle? && pc'.SeekRoot? && pc'.job.task.Rework?)
             || (pc.ReadMeta? && pc' == WaitRoot(pc.job, s.root))
    ensures Inv(c, s', g, pend, base)
  {
    hide *;
    InvParts(c, s, g, pend, base, t);
    ThreadParts(c, s, g, pend, t);
    EntryPc(c, s.pages, s.root, g, pend, s.threads[t].pc, pc');
    MoveIs(s, t, pc');
    MoveStep(c, s, s', t, pc', {}, g, pend, base);
  }

  lemma EntryPc(c: Config, pages: Pages, root: PageId, g: Shape, pend: set<PageId>, pc: Pc, pc': Pc)
    requires PcOk(c, pages, root, g, pend, pc)
    requires || (pc.Idle? && pc'.WaitMeta? && JobOk(c, pc'.job) && !pc'.job.task.Rework?)
             || (pc.Idle? && pc'.SeekRoot? && pc'.job.task.Rework?)
             || (pc.ReadMeta? && pc' == WaitRoot(pc.job, root))
    ensures PcOk(c, pages, root, g, pend, pc') && PcHeld(pc') + {} == PcHeld(pc) && PcHeld(pc') !! {}
    ensures PendOf(pc').None? && PendOf(pc).None? && OwnedBy(pc').None?
  {
  }

  /** Latching the meta page or the root. */
  lemma FirstLockStep(c: Config, s: State, s': State, t: Tid, l: Latch, pc': Pc, g: Shape, pend: set<PageId>,
                      base: set<Entry>)
    requires Inv(c, s, g, pend, base) && t in s.threads && s.threads[t].drop == {} && Lock(s, t, l, pc') == Some(s')
    requires var pc := s.threads[t].pc;
             || (pc.WaitMeta? && l == MetaLatch && pc' == ReadMeta(pc.job))
             || (pc.WaitRoot? && l == PageLatch(pc.root) && pc' == ReadRoot(pc.job, pc.root))
    ensures Inv(c, s', g, pend, base)
  {
    hide *;
    InvParts(c, s, g, pend, base, t);
    ThreadParts(c, s, g, pend, t);
    FirstLockPc(c, s.pages, s.root, g, pend, s.threads[t].pc, l, pc');
    LockEffect(s, s', t, l, pc');
    LockStep(c, s, s', t, l, pc', g, pend, base);
  }

  lemma FirstLockPc(c: Config, pages: Pages, root: PageId, g: Shape, pend: set<PageId>, pc: Pc, l: Latch, pc': Pc)
    requires PcOk(c, pages, root, g, pend, pc)
    requires || (pc.WaitMeta? && l == MetaLatch && pc' == ReadMeta(pc.job))
             || (pc.WaitRoot? && l == PageLatch(pc.root) && pc' == ReadRoot(pc.job, pc.root))
    ensures PcOk(c, pages, root, g, pend, pc') && PcHeld(pc') == PcHeld(pc) + {l}
    ensures PendOf(pc').None? && PendOf(pc).None? && OwnedBy(pc').None?
  {
  }

  // ── one step, whatever it is ───────────────────────────────────────────────

  /** The shape and the pending pages after a step. */
  datatype Ghosts = Ghosts(g: Shape, pend: set<PageId>)

  /** The invariant holds afterwards, and rows whose pair is not in `lost` were kept and only moved right. */
  ghost predicate Keeps(c: Config, s: State, s': State, g: Shape, g': Ghosts, base: set<Entry>, lost: set<Entry>) {
    Inv(c, s', g'.g, g'.pend, base) && EvolvesBut(s.pages, g, s'.pages, g'.g, lost)
  }

  lemma KeepsIntro(c: Config, s: State, s': State, g: Shape, g': Ghosts, base: set<Entry>)
    requires Inv(c, s', g'.g, g'.pend, base) && Evolves(s.pages, g, s'.pages, g'.g)
    ensures Keeps(c, s, s', g, g', base, {})
  {
    hide *;
    EvolvesAnyway(s.pages, g, s'.pages, g'.g, {});
    KeepsBut(c, s, s', g, g', base, {});
  }

  lemma KeepsBut(c: Config, s: State, s': State, g: Shape, g': Ghosts, base: set<Entry>, lost: set<Entry>)
    requires Inv(c, s', g'.g, g'.pend, base) && EvolvesBut(s.pages, g, s'.pages, g'.g, lost)
    ensures Keeps(c, s, s', g, g', base, lost)
  {
    hide Inv;
    hide EvolvesBut;
  }

  /** A step that leaves every page alone. */
  lemma QuietKeeps(c: Config, s: State, s': State, t: Tid, g: Shape, pend: set<PageId>, base: set<Entry>)
    requires Inv(c, s, g, pend, base) && t in s.threads && Inv(c, s', g, pend, base) && s'.pages == s.pages
    ensures Keeps(c, s, s', g, Ghosts(g, pend), base, {})
  {
    hide *;
    InvParts(c, s, g, pend, base, t);
    ShapeParts(s.pages, s.root, g, pend, c.kind);
    EvolvesSame(s.pages, g);
    KeepsIntro(c, s, s', g, Ghosts(g, pend), base);
  }

  lemma ReleaseKeeps(c: Config, s: State, s': State, t: Tid, l: Latch, g: Shape, pend: set<PageId>, base: set<Entry>)
    requires Inv(c, s, g, pend, base) && Next(c, s, t, Release(l)) == Some(s')
    ensures Keeps(c, s, s', g, Ghosts(g, pend), base, {})
  {
    hide Inv;
    hide Keeps;
    ReleaseStep(c, s, s', t, l, g, pend, base);
    QuietKeeps(c, s, s', t, g, pend, base);
  }

  lemma BeginKeeps(c: Config, s: State, s': State, t: Tid, job: Job, g: Shape, pend: set<PageId>, base: set<Entry>)
    requires Inv(c, s, g, pend, base) && Next(c, s, t, Begin(job)) == Some(s')
    ensures Keeps(c, s, s', g, Ghosts(g, pend), base, {})
  {
    hide Inv;
    hide Keeps;
    hide InKeyOrder;
    EntryStep(c, s, s', t, if job.task.Rework? then SeekRoot(job) else WaitMeta(job), g, pend, base);
    QuietKeeps(c, s, s', t, g, pend, base);
  }

  lemma DuplicateKeeps(c: Config, s: State, s': State, t: Tid, at: nat, g: Shape, pend: set<PageId>, base: set<Entry>)
    requires Inv(c, s, g, pend, base) && Next(c, s, t, Duplicate(at)) == Some(s')
    ensures Keeps(c, s, s', g, Ghosts(g, pend), base, {})
  {
    hide Inv;
    hide Keeps;
    hide PcHeld;
    DuplicateStep(c, s, s', t, at, g, pend, base);
    QuietKeeps(c, s, s', t, g, pend, base);
  }

  lemma InsertKeeps(c: Config, s: State, s': State, t: Tid, pos: nat, g: Shape, pend: set<PageId>, base: set<Entry>)
    requires Inv(c, s, g, pend, base) && Next(c, s, t, InsertAtPos(pos)) == Some(s')
    ensures Keeps(c, s, s', g, Ghosts(g, pend), base, {})
  {
    hide Inv;
    hide Keeps;
    hide PcHeld;
    hide LeafInsert;
    hide IsInsertPos;
    hide BodyLen;
    var pc := s.threads[t].pc;
    var full := LeafInsert(Top(pc.frames).node, pos, EntryOf(pc.job), pc.job.payload);
    if BodyLen(full) <= c.cap {
      LeafFitStep(c, s, s', t, pos, full, g, pend, base);
      KeepsIntro(c, s, s', g, Ghosts(g, pend), base);
    } else {
      LeafSplitStartStep(c, s, s', t, pos, full, s.next as PageId, g, pend, base);
      QuietKeeps(c, s, s', t, g, pend, base);
    }
  }

  lemma AbsorbKeeps(c: Config, s: State, s': State, t: Tid, g: Shape, pend: set<PageId>, base: set<Entry>)
    returns (g': Ghosts)
    requires Inv(c, s, g, pend, base) && t in s.threads && s.threads[t].pc.Apply? && Next(c, s, t, Go) == Some(s')
    ensures Keeps(c, s, s', g, g', base, {}) && g'.g == g
  {
    hide Inv;
    hide Keeps;
    hide PcHeld;
    hide InternalInsert;
    hide BodyLen;
    hide Evolves;
    var pc := s.threads[t].pc;
    var sep := pc.pending.value;
    var full := InternalInsert(Top(pc.frames).node, Top(pc.frames).route, sep.key, sep.child);
    if BodyLen(full) <= c.cap {
      AbsorbFitStep(c, s, s', t, full, g, pend, base);
      g' := Ghosts(g, pend - {sep.child});
      KeepsIntro(c, s, s', g, g', base);
    } else {
      InnerSplitStartStep(c, s, s', t, full, s.next as PageId, g, pend, base);
      g' := Ghosts(g, pend);
      QuietKeeps(c, s, s', t, g, pend, base);
    }
  }

  lemma WriteLeftKeeps(c: Config, s: State, s': State, t: Tid, g: Shape, pend: set<PageId>, base: set<Entry>)
    returns (g': Ghosts)
    requires Inv(c, s, g, pend, base) && t in s.threads && s.threads[t].pc.WriteLeft? && Next(c, s, t, Go) == Some(s')
    ensures Keeps(c, s, s', g, g', base, {})
    ensures LeafPages(g'.g) == LeafPages(g) + if s.threads[t].pc.full.Leaf? then {s.threads[t].pc.right} else {}
  {
    hide Inv;
    hide Keeps;
    hide LeftHalf;
    hide SepOf;
    hide Evolves;
    var pc := s.threads[t].pc;
    if pc.full.Leaf? {
      var gg := WriteLeftLeafStep(c, s, s', t, g, pend, base);
      g' := Ghosts(gg, pend + {pc.right});
    } else {
      var gg, pend' := WriteLeftInnerStep(c, s, s', t, g, pend, base);
      g' := Ghosts(gg, pend');
    }
    KeepsIntro(c, s, s', g, g', base);
  }

  /** The steps of a thread on its way down. */
  lemma DownKeeps(c: Config, s: State, s': State, t: Tid, g: Shape, pend: set<PageId>, base: set<Entry>)
    requires Inv(c, s, g, pend, base) && t in s.threads && Next(c, s, t, Go) == Some(s')
    requires var pc := s.threads[t].pc;
             || pc.WaitMeta? || pc.ReadMeta? || pc.WaitRoot? || pc.ReadRoot? || pc.Descend? || pc.WaitChild?
             || pc.ReadChild?
             || pc.SeekRoot? || pc.Seek? || pc.WaitLeaf?
    ensures Keeps(c, s, s', g, Ghosts(g, pend), base, {})
  {
    hide Inv;
    hide Keeps;
    hide RouteInsert;
    hide RouteRead;
    hide InsertSafe;
    hide FrameLatches;
    var pc := s.threads[t].pc;
    match pc {
      case WaitMeta(job) => FirstLockStep(c, s, s', t, MetaLatch, ReadMeta(job), g, pend, base);
      case ReadMeta(job) => EntryStep(c, s, s', t, WaitRoot(job, s.root), g, pend, base);
      case WaitRoot(job, root) => FirstLockStep(c, s, s', t, PageLatch(root), ReadRoot(job, root), g, pend, base);
      case ReadRoot(_, _) => ReadRootStep(c, s, s', t, g, pend, base);
      case Descend(_, _, _) => DescendStep(c, s, s', t, g, pend, base);
      case WaitChild(_, _, _, _) => LockChildStep(c, s, s', t, g, pend, base);
      case ReadChild(_, _, _, _) => ReadChildStep(c, s, s', t, g, pend, base);
      case SeekRoot(_) => SeekStep(c, s, s', t, g, pend, base);
      case Seek(_, _) => SeekStep(c, s, s', t, g, pend, base);
      case WaitLeaf(_, _) => LatchLeafStep(c, s, s', t, g, pend, base);
    }
    QuietKeeps(c, s, s', t, g, pend, base);
  }

  lemma UpKeeps(c: Config, s: State, s': State, t: Tid, g: Shape, pend: set<PageId>, base: set<Entry>)
    returns (g': Ghosts)
    requires Inv(c, s, g, pend, base) && t in s.threads && Next(c, s, t, Go) == Some(s')
    requires var pc := s.threads[t].pc; pc.WriteRight? || pc.NewRoot? || pc.WriteTop? || pc.Repoint?
    ensures Keeps(c, s, s', g, g', base, {}) && LeafPages(g'.g) == LeafPages(g)
  {
    hide Inv;
    hide Keeps;
    hide RightHalf;
    hide PcHeld;
    hide Evolves;
    var pc := s.threads[t].pc;
    g' := Ghosts(g, pend);
    match pc
    case WriteRight(_, _, _, _, _, _) =>
      WriteRightStep(c, s, s', t, g, pend, base);
      KeepsIntro(c, s, s', g, g', base);
    case NewRoot(_, _, _) =>
      NewRootStep(c, s, s', t, s.next as PageId, g, pend, base);
      QuietKeeps(c, s, s', t, g, pend, base);
    case WriteTop(_, _, _, _) =>
      WriteTopStep(c, s, s', t, g, pend, base);
      KeepsIntro(c, s, s', g, g', base);
    case Repoint(_, _, sep, _) =>
      var gg := RepointStep(c, s, s', t, g, pend, base);
      g' := Ghosts(gg, pend - {sep.child});
      KeepsIntro(c, s, s', g, g', base);
  }

  lemma MergeKeeps(c: Config, s: State, s': State, t: Tid, g: Shape, pend: set<PageId>, base: set<Entry>)
    requires Inv(c, s, g, pend, base) && Next(c, s, t, MergeRun) == Some(s')
    ensures Keeps(c, s, s', g, Ghosts(g, pend), base, {})
  {
    hide Inv;
    hide Keeps;
    hide PcHeld;
    hide Merged;
    hide RunFor;
    hide Taken;
    hide BodyLen;
    var pc := s.threads[t].pc;
    var n := Top(pc.frames).node;
    var count := RunFor(n, pc.job.task.run);
    var full := Leaf(Merged(n.entries, pc.job.task.run[..count]), [], n.next);
    if count > 0 && n.payloads == [] && BodyLen(full) <= c.cap {
      MergeFitStep(c, s, s', t, full, g, pend, base);
      KeepsIntro(c, s, s', g, Ghosts(g, pend), base);
    } else {
      if count > 0 && n.payloads == [] && BodyLen(full) <= 2 * c.cap {
        MergeSplitStartStep(c, s, s', t, full, s.next as PageId, g, pend, base);
      } else {
        LeaveStep(c, s, s', t, g, pend, base);
      }
      QuietKeeps(c, s, s', t, g, pend, base);
    }
  }

  /** The steps of a thread that has latched one leaf. */
  lemma LatchedKeeps(c: Config, s: State, s': State, t: Tid, a: Action, g: Shape, pend: set<PageId>, base: set<Entry>)
    requires Inv(c, s, g, pend, base) && Next(c, s, t, a) == Some(s') && (a.Rewrite? || a.StepRight? || a.Leave?)
    ensures Keeps(c, s, s', g, Ghosts(g, pend), base, Lost(s, t, a))
  {
    hide Inv;
    hide Keeps;
    hide RewriteStep;
    hide RightStep;
    hide PcHeld;
    hide EvolvesBut;
    hide OldPairs;
    if a.Rewrite? {
      RewriteLeafStep(c, s, s', t, a.edits, g, pend, base);
      KeepsBut(c, s, s', g, Ghosts(g, pend), base, Lost(s, t, a));
    } else {
      if a.StepRight? {
        RightLeafStep(c, s, s', t, g, pend, base);
        SamePages(s, s', t);
      } else {
        LeaveStep(c, s, s', t, g, pend, base);
      }
      QuietKeeps(c, s, s', t, g, pend, base);
    }
  }

  lemma SamePages(s: State, s': State, t: Tid)
    requires t in s.threads && s.threads[t].pc.Latched? && RightStep(s, t, s.threads[t].pc) == Some(s')
    ensures s'.pages == s.pages
  {
    hide PcHeld;
  }

  /** Every step of every thread keeps the invariant, and rows it does not take away only ever move right. */
  lemma StepKeeps(c: Config, s: State, s': State, t: Tid, a: Action, g: Shape, pend: set<PageId>, base: set<Entry>)
    returns (g': Ghosts)
    requires Inv(c, s, g, pend, base) && Next(c, s, t, a) == Some(s')
    ensures Keeps(c, s, s', g, g', base, Lost(s, t, a)) && LeafPages(g'.g) == LeafPages(g) + NewLeaf(s, t, a)
  {
    hide *;
    NextKnows(c, s, t, a);
    NewLeafParts(s, t, a);
    LostOnlyRewriting(s, t, a);
    g' := Ghosts(g, pend);
    match a
    case Release(l) => ReleaseKeeps(c, s, s', t, l, g, pend, base);
    case Begin(job) => BeginKeeps(c, s, s', t, job, g, pend, base);
    case Duplicate(at) => DuplicateKeeps(c, s, s', t, at, g, pend, base);
    case InsertAtPos(pos) => InsertKeeps(c, s, s', t, pos, g, pend, base);
    case MergeRun => MergeKeeps(c, s, s', t, g, pend, base);
    case Rewrite(_) => LatchedKeeps(c, s, s', t, a, g, pend, base);
    case StepRight => LatchedKeeps(c, s, s', t, a, g, pend, base);
    case Leave => LatchedKeeps(c, s, s', t, a, g, pend, base);
    case Go =>
      var pc := s.threads[t].pc;
      if pc.Apply? { g' := AbsorbKeeps(c, s, s', t, g, pend, base); }
      else if pc.WriteLeft? { g' := WriteLeftKeeps(c, s, s', t, g, pend, base); }
      else if pc.WriteRight? || pc.NewRoot? || pc.WriteTop? || pc.Repoint? {
        g' := UpKeeps(c, s, s', t, g, pend, base);
      }
      else { DownKeeps(c, s, s', t, g, pend, base); }
  }

  /** The leaf a step brings into the tree: the right half of a split, once the left half is written. */
  function NewLeaf(s: State, t: Tid, a: Action): set<PageId> {
    if a.Go? && t in s.threads && s.threads[t].pc.WriteLeft? && s.threads[t].pc.full.Leaf? then {s.threads[t].pc.right}
    else {}
  }

  lemma NewLeafParts(s: State, t: Tid, a: Action)
    requires t in s.threads
    ensures !a.Go? || !s.threads[t].pc.WriteLeft? ==> NewLeaf(s, t, a) == {}
    ensures a.Go? && s.threads[t].pc.WriteLeft? ==>
              NewLeaf(s, t, a) == if s.threads[t].pc.full.Leaf? then {s.threads[t].pc.right} else {}
  {
  }

  lemma LostOnlyRewriting(s: State, t: Tid, a: Action)
    ensures !a.Rewrite? ==> Lost(s, t, a) == {}
  {
  }

  lemma NextKnows(c: Config, s: State, t: Tid, a: Action)
    requires Next(c, s, t, a).Some?
    ensures t in s.threads && (a.Go? ==> !s.threads[t].pc.Idle? && !s.threads[t].pc.Latched?)
  {
  }

  // ── whole runs ─────────────────────────────────────────────────────────────

  /** A schedule: which thread does what, in order. */
  type Schedule = seq<(Tid, Action)>

  /** The state after a schedule, if every step of it is enabled. */
  function Run(c: Config, s: State, steps: Schedule): Option<State>
    decreases |steps|
  {
    if steps == [] then Some(s)
    else
      match Next(c, s, steps[0].0, steps[0].1)
      case None => None
      case Some(s') => Run(c, s', steps[1..])
  }

  /** The pairs a schedule takes away. */
  function LostIn(c: Config, s: State, steps: Schedule): set<Entry>
    decreases |steps|
  {
    if steps == [] then {}
    else
      match Next(c, s, steps[0].0, steps[0].1)
      case None => {}
      case Some(s') => Lost(s, steps[0].0, steps[0].1) + LostIn(c, s', steps[1..])
  }

  /** Threads at rest on a tree without pending pages. */
  ghost predicate AtRest(c: Config, s: State, g: Shape) {
    && TreeInv(s.pages, s.root, g, {}, c.kind)
    && s.latches == map[] && s.applied == {} && s.gone == {}
    && (forall p :: p in s.pages ==> p < s.next)
    && (forall t :: t in s.threads ==> s.threads[t] == Thread(Idle, {}))
  }

  lemma AtRestInv(c: Config, s: State, g: Shape)
    requires AtRest(c, s, g)
    ensures Inv(c, s, g, {}, Pairs(Rows(s.pages, g)))
  {
    hide TreeInv;
    hide Pairs;
    assert forall t :: t in s.threads ==> ThreadOk(c, s, g, {}, t);
    assert LatchesOk(s);
  }

  lemma EvolvesTrans(p0: Pages, g0: Shape, p1: Pages, g1: Shape, p2: Pages, g2: Shape, lost: set<Entry>,
                     lost': set<Entry>)
    requires EvolvesBut(p0, g0, p1, g1, lost) && EvolvesBut(p1, g1, p2, g2, lost')
    ensures EvolvesBut(p0, g0, p2, g2, lost + lost')
  {
    hide RowSet;
    forall p, r | p in g0.spans && p in p0 && r in RowSet(p0[p]) && Entry(r.key, r.rid) !in lost + lost'
      ensures FoundFrom(p2, g2, r, g0.spans[p].a)
    {
      assert FoundFrom(p1, g1, r, g0.spans[p].a);
      var q :| q in g1.spans && q in p1 && g0.spans[p].a <= g1.spans[q].a && r in RowSet(p1[q]);
      assert FoundFrom(p2, g2, r, g1.spans[q].a);
    }
  }

  /** The invariant holds after every schedule, and what the schedule does not take away is kept. */
  lemma {:induction false} RunKeeps(c: Config, s: State, s': State, steps: Schedule, g: Shape, pend: set<PageId>,
                                    base: set<Entry>)
    returns (g': Ghosts)
    requires Inv(c, s, g, pend, base) && Run(c, s, steps) == Some(s') && g.spans.Keys <= s.pages.Keys
    ensures Keeps(c, s, s', g, g', base, LostIn(c, s, steps)) && s'.gone == s.gone + LostIn(c, s, steps)
    decreases |steps|
  {
    hide Inv;
    hide Next;
    hide Lost;
    hide EvolvesBut;
    if steps == [] {
      EvolvesSame(s.pages, g);
      EvolvesAnyway(s.pages, g, s.pages, g, {});
      g' := Ghosts(g, pend);
    } else {
      var t, a := steps[0].0, steps[0].1;
      var mid := Next(c, s, t, a).value;
      var gm := StepKeeps(c, s, mid, t, a, g, pend, base);
      GoneStep(c, s, mid, t, a);
      TreeCovers(c, mid, gm.g, gm.pend, base);
      g' := RunKeeps(c, mid, s', steps[1..], gm.g, gm.pend, base);
      EvolvesTrans(s.pages, g, mid.pages, gm.g, s'.pages, g'.g, Lost(s, t, a), LostIn(c, mid, steps[1..]));
    }
  }

  lemma GoneStep(c: Config, s: State, s': State, t: Tid, a: Action)
    requires Next(c, s, t, a) == Some(s')
    ensures s'.gone == s.gone + Lost(s, t, a)
  {
    hide PcHeld;
    hide LeafInsert;
    hide BodyLen;
    hide IsInsertPos;
    hide EntryOf;
    hide JobOk;
    hide Merged;
    hide RunFor;
    hide Taken;
    hide EditAll;
    hide OldPairs;
    hide NewPairs;
    hide GoStep;
    if a.Go? { GoGone(c, s, s', t); }
  }

  lemma GoGone(c: Config, s: State, s': State, t: Tid)
    requires t in s.threads && GoStep(c, s, t, s.threads[t].pc) == Some(s')
    ensures s'.gone == s.gone
  {
    hide PcHeld;
    hide RightHalf;
    hide LeftHalf;
    hide SepOf;
    hide EntryOf;
    hide RouteInsert;
    hide InsertSafe;
    hide InternalInsert;
    hide BodyLen;
    hide Taken;
    hide FrameLatches;
  }

  lemma TreeCovers(c: Config, s: State, g: Shape, pend: set<PageId>, base: set<Entry>)
    requires Inv(c, s, g, pend, base)
    ensures TreeInv(s.pages, s.root, g, pend, c.kind) && g.spans.Keys <= s.pages.Keys && pend <= g.spans.Keys
    ensures Counted(s.pages, g, base + s.applied, s.gone) && PendsOk(s, pend)
  {
    hide ThreadOk;
    hide LatchesOk;
    hide PendsOk;
    hide OwnedOk;
    hide TreeInv;
    hide Counted;
    ShapeParts(s.pages, s.root, g, pend, c.kind);
  }

  // ── every requested pair arrives ───────────────────────────────────────────

  /** The pair whose insertion an action begins. */
  function RequestedBy(a: Action): set<Entry> {
    if a.Begin? && a.job.task.PutOne? then {EntryOf(a.job)} else {}
  }

  /** The pairs an action offers: a run to be merged as far as it belongs to one leaf, or what a rewrite brings in. */
  function OfferedBy(a: Action): set<Entry> {
    match a
    case Begin(job) => if job.task.PutRun? then AsSet(job.task.run) else {}
    case Rewrite(edits) => NewPairs(edits)
    case _ => {}
  }

  function Requested(steps: Schedule): set<Entry> {
    if steps == [] then {} else RequestedBy(steps[0].1) + Requested(steps[1..])
  }

  function Offered(steps: Schedule): set<Entry> {
    if steps == [] then {} else OfferedBy(steps[0].1) + Offered(steps[1..])
  }

  /** Requested pairs are written already, or some thread is still on its way to the leaf with them. */
  ghost predicate Accounted(s: State, asked: set<Entry>, offered: set<Entry>) {
    && s.applied <= asked + offered
    && (forall t :: t in s.threads && !s.threads[t].pc.Idle? ==> Wanted(s.threads[t].pc.job, asked, offered))
    && (forall t :: t in s.threads && PendOf(s.threads[t].pc).Some? && s.threads[t].pc.job.task.PutOne? ==>
          EntryOf(s.threads[t].pc.job) in s.applied)
    && (forall e :: e in asked && e !in s.applied ==> exists t :: Carrying(s, t, e))
  }

  ghost predicate Wanted(job: Job, asked: set<Entry>, offered: set<Entry>) {
    && (job.task.PutOne? ==> EntryOf(job) in asked)
    && (job.task.PutRun? ==> AsSet(job.task.run) <= offered)
  }

  ghost predicate Carrying(s: State, t: Tid, e: Entry) {
    t in s.threads && !s.threads[t].pc.Idle? && s.threads[t].pc.job.task.PutOne? && EntryOf(s.threads[t].pc.job) == e
  }

  /** What an action of a thread with this job can bring in. */
  function Brings(job: Job, a: Action): set<Entry> {
    match job.task
    case PutOne => {EntryOf(job)}
    case PutRun(run) => AsSet(run)
    case Rework => OfferedBy(a)
  }

  /** What a step does to the job its thread carries and to the pairs written so far. */
  ghost predicate Carries(pc: Pc, pc': Pc, applied: set<Entry>, applied': set<Entry>, a: Action) {
    if a.Begin? then pc.Idle? && !pc'.Idle? && PendOf(pc').None? && pc'.job == a.job && applied' == applied
    else if pc.Idle? then pc' == pc && applied' == applied
    else
      && (!pc'.Idle? ==> pc'.job == pc.job)
      && applied <= applied' <= applied + Brings(pc.job, a)
      && (pc.job.task.PutOne? && (pc'.Idle? || PendOf(pc').Some?) ==> EntryOf(pc.job) in applied')
  }

  /** What the accounting needs to know about a thread. */
  ghost predicate Tasked(pc: Pc, applied: set<Entry>) {
    && (PendOf(pc).Some? && pc.job.task.PutOne? ==> EntryOf(pc.job) in applied)
    && (pc.WriteLeft? ==> (pc.pending.None? <==> pc.full.Leaf?))
    && (pc.SeekRoot? || pc.Seek? || pc.WaitLeaf? || pc.Latched? ==> pc.job.task.Rework?)
    && (pc.Apply? || pc.WriteRight? || pc.WriteLeft? ==> !pc.job.task.Rework?)
  }

  lemma TakenOffered(job: Job, n: Node)
    requires !job.task.Rework?
    ensures Taken(job, n) <= Brings(job, Go) && Taken(job, n) <= Brings(job, MergeRun)
    ensures job.task.PutOne? ==> Taken(job, n) == {EntryOf(job)}
  {
    hide RunFor;
  }

  lemma StepCarries(c: Config, s: State, s': State, t: Tid, a: Action)
    requires Next(c, s, t, a) == Some(s') && Tasked(s.threads[t].pc, s.applied)
    ensures t in s'.threads && s'.threads == s.threads[t := s'.threads[t]]
    ensures Carries(s.threads[t].pc, s'.threads[t].pc, s.applied, s'.applied, a)
  {
    hide PcHeld;
    hide LeafInsert;
    hide BodyLen;
    hide IsInsertPos;
    hide EntryOf;
    hide JobOk;
    hide MergeStep;
    hide EditAll;
    hide OldPairs;
    hide NewPairs;
    hide AsSet;
    hide GoStep;
    hide Tasked;
    if a.Go? { GoCarries(c, s, s', t); }
    else if a.MergeRun? { MergeCarries(c, s, s', t); }
    else { TaskedParts(s.threads[t].pc, s.applied); }
  }

  lemma TaskedParts(pc: Pc, applied: set<Entry>)
    requires Tasked(pc, applied)
    ensures PendOf(pc).Some? && pc.job.task.PutOne? ==> EntryOf(pc.job) in applied
    ensures pc.SeekRoot? || pc.Seek? || pc.WaitLeaf? || pc.Latched? ==> pc.job.task.Rework?
    ensures pc.Apply? || pc.WriteRight? || pc.WriteLeft? ==> !pc.job.task.Rework?
    ensures pc.WriteLeft? ==> (pc.pending.None? <==> pc.full.Leaf?)
  {
    hide PendOf;
  }

  lemma MergeCarries(c: Config, s: State, s': State, t: Tid)
    requires Next(c, s, t, MergeRun) == Some(s') && Tasked(s.threads[t].pc, s.applied)
    ensures t in s'.threads && s'.threads == s.threads[t := s'.threads[t]]
    ensures Carries(s.threads[t].pc, s'.threads[t].pc, s.applied, s'.applied, MergeRun)
  {
    hide PcHeld;
    hide Merged;
    hide RunFor;
    hide Taken;
    hide BodyLen;
    hide EntryOf;
    hide AsSet;
    var pc := s.threads[t].pc;
    TakenOffered(pc.job, Top(pc.frames).node);
  }

  lemma GoCarries(c: Config, s: State, s': State, t: Tid)
    requires t in s.threads && GoStep(c, s, t, s.threads[t].pc) == Some(s') && Tasked(s.threads[t].pc, s.applied)
    ensures t in s'.threads && s'.threads == s.threads[t := s'.threads[t]]
    ensures Carries(s.threads[t].pc, s'.threads[t].pc, s.applied, s'.applied, Go)
  {
    hide PcHeld;
    hide RightHalf;
    hide EntryOf;
    hide AsSet;
    hide GoDescend;
    hide GoReadChild;
    hide GoAbsorb;
    hide GoWriteLeft;
    hide GoSeek;
    var pc := s.threads[t].pc;
    if pc.Descend? || pc.ReadChild? || pc.Apply? || pc.WriteLeft? || pc.Seek? { NodeCarries(c, s, s', t, pc); }
  }

  lemma NodeCarries(c: Config, s: State, s': State, t: Tid, pc: Pc)
    requires t in s.threads && pc == s.threads[t].pc && Tasked(pc, s.applied)
    requires
      || (pc.Descend? && pc.frames != [] && GoDescend(s, t, pc) == Some(s'))
      || (pc.ReadChild? && pc.child in s.pages && GoReadChild(c, s, t, pc) == Some(s'))
      || (pc.Apply? && pc.frames != [] && pc.pending.Some? && GoAbsorb(c, s, t, pc) == Some(s'))
      || (pc.WriteLeft? && pc.frames != [] && GoWriteLeft(s, t, pc) == s')
      || (pc.Seek? && pc.pid in s.pages && GoSeek(s, t, pc) == Some(s'))
    ensures t in s'.threads && s'.threads == s.threads[t := s'.threads[t]]
    ensures Carries(pc, s'.threads[t].pc, s.applied, s'.applied, Go)
  {
    hide PcHeld;
    hide RouteInsert;
    hide InsertSafe;
    hide InternalInsert;
    hide BodyLen;
    hide LeftHalf;
    hide SepOf;
    hide EntryOf;
    hide Taken;
    hide AsSet;
    hide FrameLatches;
    if pc.WriteLeft? { TakenOffered(pc.job, Top(pc.frames).node); }
  }

  lemma TaskKnown(c: Config, s: State, g: Shape, pend: set<PageId>, base: set<Entry>, asked: set<Entry>,
                  offered: set<Entry>, t: Tid)
    requires Inv(c, s, g, pend, base) && t in s.threads && Accounted(s, asked, offered)
    ensures Tasked(s.threads[t].pc, s.applied)
  {
    hide *;
    var pc := s.threads[t].pc;
    InvParts(c, s, g, pend, base, t);
    ThreadParts(c, s, g, pend, t);
    if pc.WriteRight? || pc.WriteLeft? {
      SplitPcParts(c, s.pages, s.root, g, pend, pc);
      FullParts(c, g, pend, pc.job, pc.meta, pc.frames, pc.pending, pc.full);
    }
    TaskOf(c, s.pages, s.root, g, pend, pc);
    AccountedWritten(s, asked, offered, t);
    TaskedIntro(pc, s.applied);
  }

  lemma TaskOf(c: Config, pages: Pages, root: PageId, g: Shape, pend: set<PageId>, pc: Pc)
    requires PcOk(c, pages, root, g, pend, pc)
    ensures pc.SeekRoot? || pc.Seek? || pc.WaitLeaf? || pc.Latched? ==> pc.job.task.Rework?
    ensures pc.Apply? || pc.WriteRight? || pc.WriteLeft? ==> !pc.job.task.Rework?
  {
    hide FramesOk;
    hide FullOk;
    hide InRange;
    hide Waiting;
    if pc.Apply? || pc.WriteRight? || pc.WriteLeft? { FramesNonEmpty(c, pages, root, g, pc.job, pc.meta, pc.frames); }
  }

  lemma TaskedIntro(pc: Pc, applied: set<Entry>)
    requires PendOf(pc).Some? && pc.job.task.PutOne? ==> EntryOf(pc.job) in applied
    requires pc.WriteLeft? ==> (pc.pending.None? <==> pc.full.Leaf?)
    requires pc.SeekRoot? || pc.Seek? || pc.WaitLeaf? || pc.Latched? ==> pc.job.task.Rework?
    requires pc.Apply? || pc.WriteRight? || pc.WriteLeft? ==> !pc.job.task.Rework?
    ensures Tasked(pc, applied)
  {
    hide PendOf;
  }

  lemma AccountedStep(s: State, s': State, t: Tid, a: Action, asked: set<Entry>, offered: set<Entry>)
    requires Accounted(s, asked, offered) && t in s.threads && t in s'.threads
    requires s'.threads == s.threads[t := s'.threads[t]]
    requires Carries(s.threads[t].pc, s'.threads[t].pc, s.applied, s'.applied, a)
    ensures Accounted(s', asked + RequestedBy(a), offered + OfferedBy(a))
  {
    hide EntryOf;
    hide AsSet;
    hide NewPairs;
    assert PendOf(Idle).None?;
    hide PendOf;
    var asked', offered' := asked + RequestedBy(a), offered + OfferedBy(a);
    forall u | u in s'.threads && !s'.threads[u].pc.Idle? ensures Wanted(s'.threads[u].pc.job, asked', offered') {
      if u != t || !a.Begin? { assert Wanted(s.threads[u].pc.job, asked, offered); }
    }
    assert s'.applied <= asked' + offered' by {
      if !s.threads[t].pc.Idle? { assert Wanted(s.threads[t].pc.job, asked, offered); }
    }
    forall e | e in asked' && e !in s'.applied ensures exists u :: Carrying(s', u, e) {
      if e in RequestedBy(a) {
        assert Carrying(s', t, e);
      } else {
        var u :| Carrying(s, u, e);
        assert Carrying(s', u, e);
      }
    }
  }

  lemma {:induction false} RunAccounted(c: Config, s: State, s': State, steps: Schedule, g: Shape, pend: set<PageId>,
                                        base: set<Entry>, asked: set<Entry>, offered: set<Entry>)
    requires Inv(c, s, g, pend, base) && Run(c, s, steps) == Some(s') && Accounted(s, asked, offered)
    ensures Accounted(s', asked + Requested(steps), offered + Offered(steps))
    decreases |steps|
  {
    hide Inv;
    hide Next;
    hide EvolvesBut;
    hide Accounted;
    hide Carries;
    hide RequestedBy;
    hide OfferedBy;
    if steps == [] {
      assert asked + Requested(steps) == asked && offered + Offered(steps) == offered;
    } else {
      var t, a := steps[0].0, steps[0].1;
      var mid := Next(c, s, t, a).value;
      NextKnows(c, s, t, a);
      TaskKnown(c, s, g, pend, base, asked, offered, t);
      StepCarries(c, s, mid, t, a);
      AccountedStep(s, mid, t, a, asked, offered);
      var gm := StepKeeps(c, s, mid, t, a, g, pend, base);
      RunAccounted(c, mid, s', steps[1..], gm.g, gm.pend, base, asked + RequestedBy(a), offered + OfferedBy(a));
      assert asked + RequestedBy(a) + Requested(steps[1..]) == asked + Requested(steps);
      assert offered + OfferedBy(a) + Offered(steps[1..]) == offered + Offered(steps);
    }
  }

  lemma AccountedWritten(s: State, asked: set<Entry>, offered: set<Entry>, t: Tid)
    requires Accounted(s, asked, offered) && t in s.threads
    ensures PendOf(s.threads[t].pc).Some? && s.threads[t].pc.job.task.PutOne? ==>
              EntryOf(s.threads[t].pc.job) in s.applied
  {
    hide PendOf;
    hide EntryOf;
  }

  ghost predicate Quiet(s: State) {
    forall t :: t in s.threads ==> s.threads[t].pc.Idle?
  }

  lemma QuietAccounted(s: State, asked: set<Entry>, offered: set<Entry>)
    requires Accounted(s, asked, offered) && Quiet(s)
    ensures asked <= s.applied <= asked + offered
  {
    hide EntryOf;
    hide PendOf;
  }

  /**
    Whatever the interleaving, once every job has returned no page is pending and the tree
    holds the pairs it started with and those written since, except those taken away.
    Written are all requested pairs, and beyond them only pairs of runs and rewrites.
   */
  lemma QuietRun(c: Config, s: State, s': State, steps: Schedule, g: Shape) returns (g': Shape)
    requires AtRest(c, s, g) && Run(c, s, steps) == Some(s') && Quiet(s')
    ensures TreeInv(s'.pages, s'.root, g', {}, c.kind) && EvolvesBut(s.pages, g, s'.pages, g', LostIn(c, s, steps))
    ensures Requested(steps) <= s'.applied <= Requested(steps) + Offered(steps)
    ensures Pairs(Rows(s.pages, g)) + s'.applied - LostIn(c, s, steps) <= Pairs(Rows(s'.pages, g'))
    ensures Pairs(Rows(s'.pages, g')) <= Pairs(Rows(s.pages, g)) + s'.applied
  {
    hide Run;
    hide TreeInv;
    hide Inv;
    hide EvolvesBut;
    hide Pairs;
    hide Requested;
    hide Offered;
    hide LostIn;
    hide PendOf;
    var base := Pairs(Rows(s.pages, g));
    AtRestInv(c, s, g);
    TreeCovers(c, s, g, {}, base);
    var gg := RunKeeps(c, s, s', steps, g, {}, base);
    g' := gg.g;
    AtRestAccounted(c, s, g);
    RunAccounted(c, s, s', steps, g, {}, base, {}, {});
    QuietAccounted(s', {} + Requested(steps), {} + Offered(steps));
    TreeCovers(c, s', gg.g, gg.pend, base);
    NothingOwed(s', gg.pend);
  }

  lemma AtRestAccounted(c: Config, s: State, g: Shape)
    requires AtRest(c, s, g)
    ensures Accounted(s, {}, {})
  {
    hide TreeInv;
    assert PendOf(Idle).None?;
    hide PendOf;
  }

  lemma NothingOwed(s: State, pend: set<PageId>)
    requires Quiet(s) && PendsOk(s, pend)
    ensures pend == {}
  {
    assert PendOf(Idle).None?;
  }

  /** The schedule begins single inserts only and rewrites no leaf. */
  predicate InsertsOnly(steps: Schedule) {
    forall i :: 0 <= i < |steps| ==> !steps[i].1.Rewrite? && (steps[i].1.Begin? ==> steps[i].1.job.task.PutOne?)
  }

  lemma {:induction false} NothingElse(c: Config, s: State, steps: Schedule)
    requires InsertsOnly(steps)
    ensures Offered(steps) == {} && LostIn(c, s, steps) == {}
    decreases |steps|
  {
    hide Next;
    if steps != [] {
      LostOnlyRewriting(s, steps[0].0, steps[0].1);
      hide Lost;
      if Next(c, s, steps[0].0, steps[0].1).Some? {
        NothingElse(c, Next(c, s, steps[0].0, steps[0].1).value, steps[1..]);
      }
      else { NothingElse(c, s, steps[1..]); }
    }
  }

  // ── the same, in terms of pages only ───────────────────────────────────────

  /** A new tree, one empty leaf, and any number of idle threads. */
  predicate FreshStart(s: State, root: PageId, threads: set<Tid>) {
    && root != NO_PAGE && root < s.next
    && s.pages == map[root := Leaf([], [], NO_PAGE)] && s.root == root
    && s.latches == map[] && s.applied == {} && s.gone == {}
    && s.threads.Keys == threads && (forall t :: t in threads ==> s.threads[t] == Thread(Idle, {}))
  }

  /**
    Any number of threads, any interleaving: once they are all idle the pages form a
    well-formed B+tree that holds every written pair not taken away, and no other; every
    requested pair is written. With single inserts only it holds exactly the requested pairs.
   */
  lemma EveryQuietRun(c: Config, s: State, s': State, root: PageId, threads: set<Tid>, steps: Schedule)
    returns (depth: nat, rows: seq<Row>)
    requires FreshStart(s, root, threads) && Run(c, s, steps) == Some(s') && Quiet(s')
    ensures WellFormed(s'.pages, s'.root, depth, rows)
    ensures Requested(steps) <= s'.applied <= Requested(steps) + Offered(steps)
    ensures s'.applied - LostIn(c, s, steps) <= PairSet(rows) <= s'.applied
    ensures InsertsOnly(steps) ==> PairSet(rows) == Requested(steps)
  {
    hide Run;
    hide WellFormed;
    hide Requested;
    hide Offered;
    hide LostIn;
    hide TreeInv;
    hide EvolvesBut;
    hide InsertsOnly;
    var g := FreshShape(root);
    FreshTree(root, c.kind);
    assert AtRest(c, s, g);
    var g' := QuietRun(c, s, s', steps, g);
    depth, rows := ShapeMeansTree(s'.pages, s'.root, g', c.kind);
    hide Quiet;
    assert Pairs(Rows(s'.pages, g')) == PairSet(rows);
    assert Pairs({}) == {};
    if InsertsOnly(steps) { NothingElse(c, s, steps); }
  }}
