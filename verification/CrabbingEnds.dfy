/**
  Every schedule that begins no new job comes to an end: each step uses up part of a
  budget that is fixed by the state it starts from.
 */
module CrabbingEnds {
  import opened Keys
  import opened Nodes
  import opened Shapes
  import opened Steps
  import opened Merges
  import opened Searches
  import opened Trees
  import opened Crabbing
  import opened CrabbingFrames
  import opened CrabbingSafety
  import opened CrabbingSteps
  import opened CrabbingLeaves
  import opened CrabbingWrites
  import opened CrabbingRuns
  import opened Ledger
  import opened Deadlock

  // ── sums over threads ──────────────────────────────────────────────────────

  ghost function Total(costs: map<Tid, nat>): nat
    decreases |costs|
  {
    if costs == map[] then 0
    else
      var t :| t in costs;
      costs[t] + Total(costs - {t})
  }

  lemma {:induction false} TotalSplit(costs: map<Tid, nat>, t: Tid)
    requires t in costs
    ensures Total(costs) == costs[t] + Total(costs - {t})
    decreases |costs|
  {
    var u :| u in costs && Total(costs) == costs[u] + Total(costs - {u});
    if u != t {
      TotalSplit(costs - {u}, t);
      TotalSplit(costs - {t}, u);
      assert costs - {u} - {t} == costs - {t} - {u};
    }
  }

  lemma {:induction false} TotalAtMost(a: map<Tid, nat>, b: map<Tid, nat>)
    requires a.Keys == b.Keys && forall t :: t in a ==> a[t] <= b[t]
    ensures Total(a) <= Total(b)
    decreases |a|
  {
    if a != map[] {
      var t :| t in a;
      TotalSplit(a, t);
      TotalSplit(b, t);
      TotalAtMost(a - {t}, b - {t});
    }
  }

  lemma TotalLess(a: map<Tid, nat>, b: map<Tid, nat>, t: Tid)
    requires a.Keys == b.Keys && t in a && a[t] < b[t] && forall u :: u in a ==> a[u] <= b[u]
    ensures Total(a) < Total(b)
  {
    TotalSplit(a, t);
    TotalSplit(b, t);
    TotalAtMost(a - {t}, b - {t});
  }

  // ── the budget ─────────────────────────────────────────────────────────────

  ghost function LevelOf(g: Shape, p: PageId): nat {
    if p in g.spans then g.spans[p].level else 0
  }

  function Busy(th: Thread): nat {
    if th.pc.Idle? then 0 else 1
  }

  /** How high the root can still get: each unfinished insert may grow the tree by one level. */
  ghost function Reach(s: State, g: Shape): nat {
    LevelOf(g, s.root) + Total(map t | t in s.threads :: Busy(s.threads[t]))
  }

  ghost function TopLevel(g: Shape, frames: seq<Frame>): nat {
    if frames == [] then 0 else LevelOf(g, Top(frames).pid)
  }

  const IDS := 0x1_0000_0000

  /** The leaves that start no further right than page `p`. */
  ghost function LeavesUpTo(g: Shape, p: PageId): set<PageId> {
    set q | q in g.spans && g.spans[q].level == 0 && p in g.spans && g.spans[q].a <= g.spans[p].a
  }

  /** A bound on what is left of a walk to the right from leaf `p`. */
  ghost function Walk(g: Shape, p: PageId): nat {
    if |LeavesUpTo(g, p)| <= IDS then 4 * (IDS - |LeavesUpTo(g, p)|) else 0
  }

  /** A bound on the steps a thread can still take, latches to drop aside. */
  ghost function Work(g: Shape, reach: nat, pc: Pc): nat {
    match pc
    case Idle => 0
    case WaitMeta(_) => 12 * reach + 22
    case ReadMeta(_) => 12 * reach + 21
    case WaitRoot(_, _) => 12 * reach + 20
    case ReadRoot(_, _) => 12 * reach + 19
    case Descend(_, _, frames) => 12 * TopLevel(g, frames) + 8 * |frames| + 10
    case WaitChild(_, _, frames, _) => 12 * TopLevel(g, frames) + 8 * |frames| + 9
    case ReadChild(_, _, frames, _) => 12 * TopLevel(g, frames) + 8 * |frames| + 8
    case Apply(_, _, frames, _) => 8 * |frames| + 9
    case WriteRight(_, _, frames, _, _, _) => 8 * |frames| + 8
    case WriteLeft(_, _, frames, _, _, _) => 8 * |frames| + 7
    case NewRoot(_, _, _) => 6
    case WriteTop(_, _, _, _) => 5
    case Repoint(_, _, _, _) => 4
    case SeekRoot(_) => 4 * IDS + 5 + reach
    case Seek(_, pid) => 4 * IDS + 4 + LevelOf(g, pid)
    case WaitLeaf(_, pid) => Walk(g, pid) + 3
    case Latched(_, pid) => Walk(g, pid) + 2
  }

  ghost function Cost(g: Shape, reach: nat, th: Thread): nat {
    Work(g, reach, th.pc) + |th.drop|
  }

  ghost function Budget(s: State, g: Shape): nat {
    Total(map t | t in s.threads :: Cost(g, Reach(s, g), s.threads[t]))
  }

  // ── what a step costs its thread ───────────────────────────────────────────

  /** What the budget needs to know about a thread. */
  ghost predicate Paced(s: State, g: Shape, pc: Pc) {
    match pc
    case ReadRoot(_, root) => root == s.root
    case Descend(_, _, frames) => frames != [] && Top(frames).pid in g.spans
    case WaitChild(_, _, frames, _) => frames != [] && Top(frames).pid in g.spans
    case ReadChild(_, _, frames, child) =>
      frames != [] && Top(frames).pid in g.spans && child in g.spans
      && g.spans[child].level + 1 == g.spans[Top(frames).pid].level
    case Apply(_, _, frames, _) => frames != []
    case WriteRight(_, _, frames, _, _, _) => frames != []
    case WriteLeft(_, _, frames, _, _, _) => frames != []
    case Seek(job, pid) => pid in g.spans && SeekPaced(s.pages, g, job, pid)
    case WaitLeaf(_, pid) => pid in g.spans
    case Latched(_, pid) => pid in g.spans && RightPaced(s.pages, g, pid)
    case _ => true
  }

  /** A read of page `pid` leads one level down. */
  ghost predicate SeekPaced(pages: Pages, g: Shape, job: Job, pid: PageId) {
    && pid in g.spans
    && (pid in pages && pages[pid].Internal? && RouteRead(Eq, pages[pid].keys, job.key) < |pages[pid].children| ==>
          var child := pages[pid].children[RouteRead(Eq, pages[pid].keys, job.key)];
          child in g.spans && g.spans[child].level + 1 == g.spans[pid].level)
  }

  /** The leaf after `pid` starts further right. */
  ghost predicate RightPaced(pages: Pages, g: Shape, pid: PageId) {
    && pid in g.spans
    && (pid in pages && pages[pid].Leaf? && pages[pid].next != NO_PAGE ==>
          var next := pages[pid].next;
          next in g.spans && g.spans[next].level == 0 && g.spans[pid].a < g.spans[next].a)
  }

  ghost predicate SamePlaces(g: Shape, g': Shape) {
    forall p :: p in g.spans ==> p in g'.spans && g'.spans[p].level == g.spans[p].level && g'.spans[p].a == g.spans[p].a
  }

  lemma {:induction false} IdsBound(ids: set<PageId>, n: nat)
    requires forall p :: p in ids ==> p < n
    ensures |ids| <= n
  {
    if n == 0 {
      assert ids == {};
    } else if exists p :: p in ids && p as int == n - 1 {
      var p :| p in ids && p as int == n - 1;
      IdsBound(ids - {p}, n - 1);
    } else {
      IdsBound(ids, n - 1);
    }
  }

  lemma {:induction false} FewerIds(a: set<PageId>, b: set<PageId>)
    requires a <= b
    ensures |a| <= |b|
    decreases |a|
  {
    if a != {} {
      var x :| x in a;
      FewerIds(a - {x}, b - {x});
    }
  }

  /** Other threads' steps never lengthen a walk. */
  lemma WalkKept(g: Shape, g': Shape, p: PageId)
    requires SamePlaces(g, g') && p in g.spans
    ensures Walk(g', p) <= Walk(g, p)
  {
    FewerIds(LeavesUpTo(g, p), LeavesUpTo(g', p));
    IdsBound(LeavesUpTo(g', p), IDS);
  }

  /** A step to the right shortens it. */
  lemma WalkRight(g: Shape, p: PageId, next: PageId)
    requires p in g.spans && next in g.spans && g.spans[next].level == 0 && g.spans[p].a < g.spans[next].a
    ensures Walk(g, next) + 4 <= Walk(g, p)
  {
    assert LeavesUpTo(g, p) + {next} <= LeavesUpTo(g, next) && next !in LeavesUpTo(g, p);
    FewerIds(LeavesUpTo(g, p) + {next}, LeavesUpTo(g, next));
    IdsBound(LeavesUpTo(g, next), IDS);
  }

  lemma WalkMost(g: Shape, p: PageId)
    ensures Walk(g, p) <= 4 * IDS
  {
  }

  lemma {:induction false} LatchCount(frames: seq<Frame>)
    ensures |FrameLatches(frames)| <= |frames|
  {
    if frames != [] {
      var k := |frames| - 1;
      LatchCount(frames[..k]);
      assert FrameLatches(frames) <= FrameLatches(frames[..k]) + {PageLatch(frames[k].pid)};
      Smaller(FrameLatches(frames), FrameLatches(frames[..k]) + {PageLatch(frames[k].pid)});
    } else {
      assert FrameLatches(frames) == {};
    }
  }

  lemma {:induction false} Smaller(a: set<Latch>, b: set<Latch>)
    requires a <= b
    ensures |a| <= |b|
    decreases |a|
  {
    if a != {} {
      var x :| x in a;
      Smaller(a - {x}, b - {x});
    }
  }

  /** A thread holds at most the meta latch and one latch for each frame. */
  lemma HeldCount(meta: bool, frames: seq<Frame>)
    ensures |MetaPart(meta) + FrameLatches(frames)| <= |frames| + 1
  {
    hide FrameLatches;
    LatchCount(frames);
  }

  /** A step changes only its own thread, and lowers what that thread may still cost. */
  ghost predicate Pays(s: State, s': State, t: Tid, g: Shape, g': Shape, reach: nat, reach': nat) {
    && t in s.threads && t in s'.threads && s'.threads == s.threads[t := s'.threads[t]]
    && Cost(g', reach', s'.threads[t]) < Cost(g, reach, s.threads[t])
  }

  lemma DescendCost(s: State, s': State, t: Tid, pc: Pc, g: Shape, g': Shape, reach: nat, reach': nat)
    requires t in s.threads && s.threads[t] == Thread(pc, {}) && Paced(s, g, pc) && SamePlaces(g, g')
    requires pc.Descend? && GoDescend(s, t, pc) == Some(s')
    ensures Pays(s, s', t, g, g', reach, reach')
  {
    hide RouteInsert;
  }

  lemma ReadChildCost(c: Config, s: State, s': State, t: Tid, pc: Pc, g: Shape, g': Shape, reach: nat, reach': nat)
    requires t in s.threads && s.threads[t] == Thread(pc, {}) && Paced(s, g, pc) && SamePlaces(g, g')
    requires pc.ReadChild? && pc.child in s.pages && GoReadChild(c, s, t, pc) == Some(s')
    ensures Pays(s, s', t, g, g', reach, reach')
  {
    hide InsertSafe;
    HeldCount(pc.meta, pc.frames);
    hide FrameLatches;
    hide MetaPart;
  }

  lemma SeekCost(c: Config, s: State, s': State, t: Tid, pc: Pc, g: Shape, g': Shape, reach: nat, reach': nat)
    requires t in s.threads && s.threads[t] == Thread(pc, {}) && Paced(s, g, pc) && SamePlaces(g, g')
    requires pc.Seek? && pc.pid in s.pages && GoSeek(s, t, pc) == Some(s')
    ensures Pays(s, s', t, g, g', reach, reach')
  {
    hide RouteRead;
    hide Walk;
    WalkMost(g', pc.pid);
  }

  lemma LatchedCost(s: State, s': State, t: Tid, pc: Pc, g: Shape, g': Shape, reach: nat, reach': nat)
    requires t in s.threads && s.threads[t] == Thread(pc, {}) && pc.Latched?
    requires s'.threads == s.threads[t := Thread(Idle, PcHeld(pc))]
    ensures Pays(s, s', t, g, g', reach, reach')
  {
    hide Walk;
  }

  lemma RightCost(s: State, s': State, t: Tid, pc: Pc, g: Shape, g': Shape, reach: nat, reach': nat)
    requires t in s.threads && s.threads[t] == Thread(pc, {}) && Paced(s, g, pc) && SamePlaces(g, g')
    requires pc.Latched? && RightStep(s, t, pc) == Some(s')
    ensures Pays(s, s', t, g, g', reach, reach')
  {
    hide Walk;
    var next := s.pages[pc.pid].next;
    WalkRight(g, pc.pid, next);
    WalkKept(g, g', next);
  }

  lemma MergeCost(c: Config, s: State, s': State, t: Tid, pc: Pc, g: Shape, g': Shape, reach: nat, reach': nat)
    requires t in s.threads && s.threads[t] == Thread(pc, {}) && Paced(s, g, pc)
    requires pc.Apply? && MergeStep(c, s, t, pc) == Some(s')
    ensures Pays(s, s', t, g, g', reach, reach')
  {
    hide Merged;
    hide RunFor;
    hide Taken;
    hide BodyLen;
    HeldCount(pc.meta, pc.frames);
    hide FrameLatches;
    hide MetaPart;
  }

  lemma AbsorbCost(c: Config, s: State, s': State, t: Tid, pc: Pc, g: Shape, g': Shape, reach: nat, reach': nat)
    requires t in s.threads && s.threads[t] == Thread(pc, {}) && Paced(s, g, pc)
    requires pc.Apply? && pc.pending.Some? && GoAbsorb(c, s, t, pc) == Some(s')
    ensures Pays(s, s', t, g, g', reach, reach')
  {
    hide InternalInsert;
    hide BodyLen;
    HeldCount(pc.meta, pc.frames);
    hide FrameLatches;
    hide MetaPart;
  }

  lemma WriteLeftCost(s: State, s': State, t: Tid, pc: Pc, g: Shape, g': Shape, reach: nat, reach': nat)
    requires t in s.threads && s.threads[t] == Thread(pc, {}) && Paced(s, g, pc)
    requires pc.WriteLeft? && GoWriteLeft(s, t, pc) == s'
    ensures Pays(s, s', t, g, g', reach, reach')
  {
    hide LeftHalf;
    hide SepOf;
    hide EntryOf;
  }

  /** The steps that take a latch or read the root. */
  lemma EarlyCost(c: Config, s: State, s': State, t: Tid, pc: Pc, g: Shape, g': Shape, reach: nat, reach': nat)
    requires t in s.threads && s.threads[t] == Thread(pc, {}) && Paced(s, g, pc) && SamePlaces(g, g') && reach' <= reach
    requires || pc.WaitMeta? || pc.ReadMeta? || pc.WaitRoot? || pc.ReadRoot? || pc.WaitChild? || pc.SeekRoot?
             || pc.WaitLeaf?
    requires GoStep(c, s, t, pc) == Some(s') && LevelOf(g', s.root) <= reach'
    ensures Pays(s, s', t, g, g', reach, reach')
  {
    hide Walk;
    hide PcHeld;
    if pc.WaitLeaf? { WalkKept(g, g', pc.pid); }
  }

  /** The steps that write a page ahead of a later step, or repoint the root. */
  lemma LateCost(c: Config, s: State, s': State, t: Tid, pc: Pc, g: Shape, g': Shape, reach: nat, reach': nat)
    requires t in s.threads && s.threads[t] == Thread(pc, {})
    requires pc.WriteRight? || pc.NewRoot? || pc.WriteTop? || pc.Repoint?
    requires GoStep(c, s, t, pc) == Some(s')
    ensures Pays(s, s', t, g, g', reach, reach')
  {
    hide RightHalf;
  }

  lemma PlainCost(c: Config, s: State, s': State, t: Tid, pc: Pc, g: Shape, g': Shape, reach: nat, reach': nat)
    requires t in s.threads && s.threads[t] == Thread(pc, {}) && Paced(s, g, pc) && SamePlaces(g, g') && reach' <= reach
    requires !pc.Descend? && !pc.ReadChild? && !pc.Apply? && !pc.WriteLeft? && !pc.Seek?
    requires GoStep(c, s, t, pc) == Some(s')
    requires LevelOf(g', s.root) <= reach'
    ensures Pays(s, s', t, g, g', reach, reach')
  {
    NotStuck(c, s, t, pc);
    hide *;
    if pc.WriteRight? || pc.NewRoot? || pc.WriteTop? || pc.Repoint? {
      LateCost(c, s, s', t, pc, g, g', reach, reach');
    } else {
      EarlyCost(c, s, s', t, pc, g, g', reach, reach');
    }
  }

  lemma NotStuck(c: Config, s: State, t: Tid, pc: Pc)
    requires GoStep(c, s, t, pc).Some?
    ensures !pc.Idle? && !pc.Latched?
  {
  }

  lemma LeafCost(c: Config, s: State, s': State, t: Tid, pc: Pc, pos: nat, g: Shape, g': Shape, reach: nat, reach': nat)
    requires t in s.threads && s.threads[t] == Thread(pc, {}) && Paced(s, g, pc)
    requires pc.Apply? && LeafStep(c, s, t, pc, pos) == Some(s')
    ensures Pays(s, s', t, g, g', reach, reach')
  {
    hide LeafInsert;
    hide BodyLen;
    hide IsInsertPos;
    hide EntryOf;
    HeldCount(pc.meta, pc.frames);
    hide FrameLatches;
    hide MetaPart;
  }

  lemma FinishCost(s: State, s': State, t: Tid, pc: Pc, g: Shape, g': Shape, reach: nat, reach': nat)
    requires t in s.threads && s.threads[t] == Thread(pc, {}) && Paced(s, g, pc) && pc.Apply?
    requires s'.threads == s.threads[t := Thread(Idle, PcHeld(pc))]
    ensures Pays(s, s', t, g, g', reach, reach')
  {
    HeldCount(pc.meta, pc.frames);
    hide FrameLatches;
    hide MetaPart;
  }

  lemma ReleaseCost(c: Config, s: State, s': State, t: Tid, l: Latch, g: Shape, g': Shape, reach: nat, reach': nat)
    requires t in s.threads && Next(c, s, t, Release(l)) == Some(s') && Paced(s, g, s.threads[t].pc)
    requires SamePlaces(g, g') && reach' <= reach
    ensures Pays(s, s', t, g, g', reach, reach')
  {
    hide PcHeld;
    hide Walk;
    var pc := s.threads[t].pc;
    if pc.WaitLeaf? || pc.Latched? { WalkKept(g, g', pc.pid); }
  }

  lemma GoStepIs(c: Config, s: State, s': State, t: Tid, pc: Pc)
    requires GoStep(c, s, t, pc) == Some(s')
    ensures pc.Descend? ==> pc.frames != [] && GoDescend(s, t, pc) == Some(s')
    ensures pc.ReadChild? ==> pc.child in s.pages && GoReadChild(c, s, t, pc) == Some(s')
    ensures pc.Apply? ==> pc.frames != [] && pc.pending.Some? && GoAbsorb(c, s, t, pc) == Some(s')
    ensures pc.WriteLeft? ==> pc.frames != [] && GoWriteLeft(s, t, pc) == s'
    ensures pc.Seek? ==> pc.pid in s.pages && GoSeek(s, t, pc) == Some(s')
  {
    hide GoSeek;
    hide GoDescend;
    hide GoReadChild;
    hide GoAbsorb;
    hide GoWriteLeft;
  }

  lemma NextIs(c: Config, s: State, s': State, t: Tid, a: Action)
    requires Next(c, s, t, a) == Some(s') && !a.Begin?
    ensures t in s.threads && (!a.Release? ==> s.threads[t] == Thread(s.threads[t].pc, {}))
    ensures a.Go? ==> GoStep(c, s, t, s.threads[t].pc) == Some(s')
    ensures a.InsertAtPos? || a.Duplicate? ==> s.threads[t].pc.Apply? && s.threads[t].pc.frames != []
    ensures a.InsertAtPos? ==> LeafStep(c, s, t, s.threads[t].pc, a.pos) == Some(s')
    ensures a.Duplicate? || a.Leave? ==>
              s'.root == s.root && s'.threads == s.threads[t := Thread(Idle, PcHeld(s.threads[t].pc))]
    ensures a.MergeRun? ==>
              s.threads[t].pc.Apply? && s.threads[t].pc.frames != [] && MergeStep(c, s, t, s.threads[t].pc) == Some(s')
    ensures a.Rewrite? || a.StepRight? || a.Leave? ==> s.threads[t].pc.Latched?
    ensures a.Rewrite? ==> RewriteStep(c, s, t, s.threads[t].pc, a.edits) == Some(s')
    ensures a.StepRight? ==> RightStep(s, t, s.threads[t].pc) == Some(s')
  {
    hide GoStep;
    hide LeafStep;
    hide MergeStep;
    hide RewriteStep;
    hide RightStep;
    hide PcHeld;
    hide EntryOf;
  }

  lemma RewriteIs(c: Config, s: State, s': State, t: Tid, pc: Pc, a: Action)
    requires a.Rewrite? && pc.Latched? && RewriteStep(c, s, t, pc, a.edits) == Some(s')
    ensures s'.root == s.root && s'.threads == s.threads[t := Thread(Idle, PcHeld(pc))]
  {
    hide PcHeld;
  }

  lemma GoPays(c: Config, s: State, s': State, t: Tid, g: Shape, g': Shape, reach: nat, reach': nat)
    requires t in s.threads && s.threads[t] == Thread(s.threads[t].pc, {})
    requires GoStep(c, s, t, s.threads[t].pc) == Some(s')
    requires Paced(s, g, s.threads[t].pc) && SamePlaces(g, g') && reach' <= reach && LevelOf(g', s.root) <= reach'
    ensures Pays(s, s', t, g, g', reach, reach')
  {
    hide *;
    var pc := s.threads[t].pc;
    GoStepIs(c, s, s', t, pc);
    if pc.Descend? {
      DescendCost(s, s', t, pc, g, g', reach, reach');
    } else if pc.ReadChild? {
      ReadChildCost(c, s, s', t, pc, g, g', reach, reach');
    } else if pc.Apply? {
      AbsorbCost(c, s, s', t, pc, g, g', reach, reach');
    } else if pc.WriteLeft? {
      WriteLeftCost(s, s', t, pc, g, g', reach, reach');
    } else if pc.Seek? {
      SeekCost(c, s, s', t, pc, g, g', reach, reach');
    } else {
      PlainCost(c, s, s', t, pc, g, g', reach, reach');
    }
  }

  lemma StepPays(c: Config, s: State, s': State, t: Tid, a: Action, g: Shape, g': Shape, reach: nat, reach': nat)
    requires Next(c, s, t, a) == Some(s') && !a.Begin? && t in s.threads
    requires Paced(s, g, s.threads[t].pc) && SamePlaces(g, g') && reach' <= reach && LevelOf(g', s.root) <= reach'
    ensures Pays(s, s', t, g, g', reach, reach')
  {
    hide *;
    NextIs(c, s, s', t, a);
    var pc := s.threads[t].pc;
    match a
    case Begin(_) =>
    case Go => GoPays(c, s, s', t, g, g', reach, reach');
    case InsertAtPos(pos) => LeafCost(c, s, s', t, pc, pos, g, g', reach, reach');
    case Duplicate(_) => FinishCost(s, s', t, pc, g, g', reach, reach');
    case MergeRun => MergeCost(c, s, s', t, pc, g, g', reach, reach');
    case Rewrite(_) =>
      RewriteIs(c, s, s', t, pc, a);
      LatchedCost(s, s', t, pc, g, g', reach, reach');
    case StepRight => RightCost(s, s', t, pc, g, g', reach, reach');
    case Leave => LatchedCost(s, s', t, pc, g, g', reach, reach');
    case Release(l) => ReleaseCost(c, s, s', t, l, g, g', reach, reach');
  }

  // ── the budget of a whole state ────────────────────────────────────────────

  /** The invariant says enough about each thread. */
  lemma PacedThread(c: Config, s: State, g: Shape, pend: set<PageId>, base: set<Entry>, t: Tid)
    requires Inv(c, s, g, pend, base) && t in s.threads
    ensures Paced(s, g, s.threads[t].pc)
  {
    hide *;
    InvParts(c, s, g, pend, base, t);
    ThreadParts(c, s, g, pend, t);
    var pc := s.threads[t].pc;
    FramesOfPc(c, s.pages, s.root, g, pend, pc);
    if FramesOf(pc) != [] {
      TopIsSound(c, s.pages, s.root, g, pend, pc.job, MetaOf(pc), FramesOf(pc));
      if pc.ReadChild? {
        RoutedInternal(pc.job, Top(pc.frames), pc.child);
        RoutedLevel(g, pc.job, Top(pc.frames), pc.child);
      }
    }
    if pc.Seek? || pc.WaitLeaf? || pc.Latched? { LeafWriterPaced(c, s, g, pend, base, t); }
    PacedIntro(s, g, pc);
  }

  lemma LeafWriterPaced(c: Config, s: State, g: Shape, pend: set<PageId>, base: set<Entry>, t: Tid)
    requires Inv(c, s, g, pend, base) && t in s.threads
    requires var pc := s.threads[t].pc; pc.Seek? || pc.WaitLeaf? || pc.Latched?
    ensures var pc := s.threads[t].pc;
            && pc.pid in g.spans
            && (pc.Seek? ==> SeekPaced(s.pages, g, pc.job, pc.pid)) && (pc.Latched? ==> RightPaced(s.pages, g, pc.pid))
  {
    hide *;
    var pc := s.threads[t].pc;
    InvParts(c, s, g, pend, base, t);
    ThreadParts(c, s, g, pend, t);
    LeafWriterParts(c, s.pages, s.root, g, pend, pc);
    TreePage(s.pages, s.root, g, pend, c.kind, pc.pid);
    if g.spans[pc.pid].level > 0 { ReadTarget(Eq, s.pages, s.root, g, pend, c.kind, pc.pid, pc.job.key); }
    SeekPacedIntro(s.pages, g, pc.job, pc.pid);
    if pc.Latched? { RightPacedIntro(s.pages, g, pc.pid); }
  }

  lemma SeekPacedIntro(pages: Pages, g: Shape, job: Job, p: PageId)
    requires p in g.spans && p in pages && (g.spans[p].level == 0 ==> LeafOk(pages[p], p, g))
    requires g.spans[p].level > 0 ==>
               && pages[p].Internal? && RouteRead(Eq, pages[p].keys, job.key) < |pages[p].children|
               && var child := pages[p].children[RouteRead(Eq, pages[p].keys, job.key)];
                  child in g.spans && g.spans[child].level + 1 == g.spans[p].level
    ensures SeekPaced(pages, g, job, p)
  {
    hide RouteRead;
  }

  lemma RightPacedIntro(pages: Pages, g: Shape, p: PageId)
    requires p in g.spans && p in pages && LeafOk(pages[p], p, g) && SpansOk(g)
    ensures RightPaced(pages, g, p)
  {
    assert SpanOk(g, p);
  }

  lemma FramesOfPc(c: Config, pages: Pages, root: PageId, g: Shape, pend: set<PageId>, pc: Pc)
    requires PcOk(c, pages, root, g, pend, pc)
    ensures pc.Descend? || pc.WaitChild? || pc.ReadChild? || pc.Apply? || pc.WriteRight? || pc.WriteLeft? ==>
              FramesOf(pc) == pc.frames != []
    ensures FramesOf(pc) != [] ==> !pc.Idle? && FramesOk(c, pages, root, g, pc.job, MetaOf(pc), FramesOf(pc))
    ensures pc.ReadRoot? ==> pc.root == root
    ensures pc.ReadChild? ==> Routed(pc.job, Top(pc.frames), pc.child)
  {
    hide FrameOk;
    hide Linked;
    hide InsertSafe;
    hide InRange;
    hide Routed;
    hide FullOk;
    hide Waiting;
  }

  lemma PacedIntro(s: State, g: Shape, pc: Pc)
    requires pc.ReadRoot? ==> pc.root == s.root
    requires pc.Descend? || pc.WaitChild? || pc.ReadChild? || pc.Apply? || pc.WriteRight? || pc.WriteLeft? ==>
               pc.frames != [] && Top(pc.frames).pid in g.spans
    requires pc.ReadChild? ==> pc.child in g.spans && g.spans[pc.child].level + 1 == g.spans[Top(pc.frames).pid].level
    requires pc.Seek? ==> pc.pid in g.spans && SeekPaced(s.pages, g, pc.job, pc.pid)
    requires pc.WaitLeaf? ==> pc.pid in g.spans
    requires pc.Latched? ==> pc.pid in g.spans && RightPaced(s.pages, g, pc.pid)
    ensures Paced(s, g, pc)
  {
  }

  /** Only repointing the meta page moves the root, and it ends an insert. */
  ghost predicate RootMoves(s: State, s': State, t: Tid) {
    && t in s.threads && t in s'.threads && Busy(s'.threads[t]) <= Busy(s.threads[t])
    && s'.threads == s.threads[t := s'.threads[t]]
    && (s'.root != s.root ==>
          s.threads[t].pc.Repoint? && s'.root == s.threads[t].pc.top && s'.threads[t].pc.Idle? && s'.pages == s.pages)
  }

  lemma GoRoot(c: Config, s: State, s': State, t: Tid)
    requires t in s.threads && GoStep(c, s, t, s.threads[t].pc) == Some(s')
    ensures RootMoves(s, s', t)
  {
    hide *;
    var pc := s.threads[t].pc;
    GoStepIs(c, s, s', t, pc);
    if pc.Descend? || pc.ReadChild? || pc.Apply? || pc.WriteLeft? || pc.Seek? {
      NodeRoot(c, s, s', t, pc);
    } else {
      PlainRoot(c, s, s', t, pc);
    }
  }

  lemma PlainRoot(c: Config, s: State, s': State, t: Tid, pc: Pc)
    requires t in s.threads && pc == s.threads[t].pc && GoStep(c, s, t, pc) == Some(s')
    requires !pc.Descend? && !pc.ReadChild? && !pc.Apply? && !pc.WriteLeft? && !pc.Seek?
    ensures RootMoves(s, s', t)
  {
    hide PcHeld;
    hide RightHalf;
  }

  lemma NodeRoot(c: Config, s: State, s': State, t: Tid, pc: Pc)
    requires t in s.threads && pc == s.threads[t].pc
    requires
      || (pc.Descend? && pc.frames != [] && GoDescend(s, t, pc) == Some(s'))
      || (pc.ReadChild? && pc.child in s.pages && GoReadChild(c, s, t, pc) == Some(s'))
      || (pc.Apply? && pc.frames != [] && pc.pending.Some? && GoAbsorb(c, s, t, pc) == Some(s'))
      || (pc.WriteLeft? && pc.frames != [] && GoWriteLeft(s, t, pc) == s')
      || (pc.Seek? && pc.pid in s.pages && GoSeek(s, t, pc) == Some(s'))
    ensures RootMoves(s, s', t)
  {
    hide PcHeld;
    hide Taken;
    hide RouteInsert;
    hide InsertSafe;
    hide InternalInsert;
    hide BodyLen;
    hide LeftHalf;
    hide SepOf;
    hide EntryOf;
    hide FrameLatches;
  }

  lemma RootStep(c: Config, s: State, s': State, t: Tid, a: Action)
    requires Next(c, s, t, a) == Some(s') && !a.Begin?
    ensures RootMoves(s, s', t)
  {
    hide PcHeld;
    hide LeafInsert;
    hide BodyLen;
    hide IsInsertPos;
    hide EntryOf;
    hide RunFor;
    hide Taken;
    hide GoStep;
    if a.Go? {
      GoRoot(c, s, s', t);
      hide RootMoves;
    }
  }

  lemma RootMovesParts(s: State, s': State, t: Tid)
    requires RootMoves(s, s', t)
    ensures t in s.threads && t in s'.threads && Busy(s'.threads[t]) <= Busy(s.threads[t])
    ensures s'.threads == s.threads[t := s'.threads[t]]
    ensures s'.root != s.root ==>
              s.threads[t].pc.Repoint? && s'.root == s.threads[t].pc.top && s'.threads[t].pc.Idle?
              && s'.pages == s.pages
  {
  }

  function BusyMap(s: State): map<Tid, nat> {
    map t | t in s.threads :: Busy(s.threads[t])
  }

  ghost function CostMap(s: State, g: Shape, reach: nat): map<Tid, nat> {
    map t | t in s.threads :: Cost(g, reach, s.threads[t])
  }

  lemma BusyFalls(s: State, s': State, t: Tid)
    requires t in s.threads && t in s'.threads && s'.threads == s.threads[t := s'.threads[t]]
    requires Busy(s'.threads[t]) <= Busy(s.threads[t])
    ensures Total(BusyMap(s')) <= Total(BusyMap(s))
    ensures Busy(s'.threads[t]) < Busy(s.threads[t]) ==> Total(BusyMap(s')) < Total(BusyMap(s))
  {
    hide Busy;
    TotalAtMost(BusyMap(s'), BusyMap(s));
    if Busy(s'.threads[t]) < Busy(s.threads[t]) { TotalLess(BusyMap(s'), BusyMap(s), t); }
  }

  /** A root over two pages is one level above them. */
  lemma GrownLevel(c: Config, s: State, g: Shape, pend: set<PageId>, base: set<Entry>, t: Tid, r: PageId, sep: Sep)
    requires Inv(c, s, g, pend, base) && t in s.threads && r in g.spans
    requires s.root in s.pages && s.pages[s.root] == Internal([sep.key], [r, sep.child])
    ensures LevelOf(g, s.root) == LevelOf(g, r) + 1
  {
    hide Inv;
    InvParts(c, s, g, pend, base, t);
    hide ThreadOk;
    hide LatchesOk;
    hide PendsOk;
    hide OwnedOk;
    ShapeParts(s.pages, s.root, g, pend, c.kind);
    TreePage(s.pages, s.root, g, pend, c.kind, s.root);
    hide TreeInv;
    hide ShapeOk;
    hide InnerOk;
    assert g.spans[s.root].level > 0;
    assert s.pages[s.root].children[0] == r;
  }

  lemma LevelsKept(pages: Pages, g: Shape, pages': Pages, g': Shape, lost: set<Entry>)
    requires EvolvesBut(pages, g, pages', g', lost)
    ensures SamePlaces(g, g')
  {
    hide FoundFrom;
    hide RowSet;
  }

  lemma RepointParts(c: Config, s: State, g: Shape, pend: set<PageId>, base: set<Entry>, t: Tid)
    requires Inv(c, s, g, pend, base) && t in s.threads && s.threads[t].pc.Repoint?
    ensures var pc := s.threads[t].pc;
            s.root in g.spans && pc.top in s.pages && s.pages[pc.top] == Internal([pc.sep.key], [s.root, pc.sep.child])
  {
    hide *;
    InvParts(c, s, g, pend, base, t);
    ThreadParts(c, s, g, pend, t);
    RepointPcParts(c, s.pages, s.root, g, pend, s.threads[t].pc);
  }

  lemma RepointPcParts(c: Config, pages: Pages, root: PageId, g: Shape, pend: set<PageId>, pc: Pc)
    requires pc.Repoint? && PcOk(c, pages, root, g, pend, pc)
    ensures root in g.spans && pc.top in pages && pages[pc.top] == Internal([pc.sep.key], [root, pc.sep.child])
  {
    hide Rank;
  }

  lemma ReachIs(s: State, g: Shape)
    ensures Reach(s, g) == LevelOf(g, s.root) + Total(BusyMap(s))
  {
  }

  lemma SameLevel(g: Shape, g': Shape, p: PageId)
    requires SamePlaces(g, g') && p in g.spans
    ensures p in g'.spans && LevelOf(g', p) == LevelOf(g, p)
  {
  }

  lemma RootIn(c: Config, s: State, g: Shape, pend: set<PageId>, base: set<Entry>)
    requires Inv(c, s, g, pend, base)
    ensures s.root in g.spans
  {
    hide *;
    TreeCovers(c, s, g, pend, base);
    ShapeParts(s.pages, s.root, g, pend, c.kind);
    RootInTree(g, s.root, pend);
  }

  /** The root never outgrows what was in reach. */
  lemma ReachFalls(c: Config, s: State, s': State, t: Tid, a: Action, g: Shape, pend: set<PageId>, g': Shape,
                   pend': set<PageId>, base: set<Entry>)
    requires Inv(c, s, g, pend, base) && Inv(c, s', g', pend', base) && SamePlaces(g, g')
    requires Next(c, s, t, a) == Some(s') && !a.Begin?
    ensures Reach(s', g') <= Reach(s, g) && LevelOf(g', s.root) <= Reach(s', g')
  {
    hide *;
    RootStep(c, s, s', t, a);
    RootMovesParts(s, s', t);
    BusyFalls(s, s', t);
    ReachIs(s, g);
    ReachIs(s', g');
    RootIn(c, s, g, pend, base);
    SameLevel(g, g', s.root);
    if s'.root != s.root {
      RepointParts(c, s, g, pend, base, t);
      GrownLevel(c, s', g', pend', base, t, s.root, s.threads[t].pc.sep);
      BusyIs(s.threads[t]);
      BusyIs(s'.threads[t]);
    }
  }

  lemma BusyIs(th: Thread)
    ensures Busy(th) == if th.pc.Idle? then 0 else 1
  {
  }

  lemma OthersCost(s: State, g: Shape, g': Shape, reach: nat, reach': nat, th: Thread)
    requires Paced(s, g, th.pc) && SamePlaces(g, g') && reach' <= reach
    ensures Cost(g', reach', th) <= Cost(g, reach, th)
  {
    hide Walk;
    if th.pc.WaitLeaf? || th.pc.Latched? { WalkKept(g, g', th.pc.pid); }
  }

  lemma PaysParts(s: State, s': State, t: Tid, g: Shape, g': Shape, reach: nat, reach': nat)
    requires Pays(s, s', t, g, g', reach, reach')
    ensures t in s.threads && t in s'.threads && s'.threads == s.threads[t := s'.threads[t]]
    ensures Cost(g', reach', s'.threads[t]) < Cost(g, reach, s.threads[t])
  {
    hide Cost;
  }

  /** Every step that begins no job uses up some of the budget. */
  lemma BudgetFalls(c: Config, s: State, s': State, t: Tid, a: Action, g: Shape, pend: set<PageId>, g': Shape,
                    pend': set<PageId>, base: set<Entry>)
    requires Inv(c, s, g, pend, base) && Inv(c, s', g', pend', base) && SamePlaces(g, g')
    requires Next(c, s, t, a) == Some(s') && !a.Begin?
    ensures Budget(s', g') < Budget(s, g)
  {
    hide *;
    var reach, reach' := Reach(s, g), Reach(s', g');
    ReachFalls(c, s, s', t, a, g, pend, g', pend', base);
    NextIs(c, s, s', t, a);
    PacedThread(c, s, g, pend, base, t);
    StepPays(c, s, s', t, a, g, g', reach, reach');
    PaysParts(s, s', t, g, g', reach, reach');
    forall u | u in s'.threads ensures Cost(g', reach', s'.threads[u]) <= Cost(g, reach, s.threads[u]) {
      if u != t {
        PacedThread(c, s, g, pend, base, u);
        OthersCost(s, g, g', reach, reach', s.threads[u]);
      }
    }
    BudgetLess(s, s', t, g, g');
  }

  lemma BudgetLess(s: State, s': State, t: Tid, g: Shape, g': Shape)
    requires t in s.threads && s'.threads.Keys == s.threads.Keys
    requires forall u :: u in s'.threads ==>
               Cost(g', Reach(s', g'), s'.threads[u]) <= Cost(g, Reach(s, g), s.threads[u])
    requires Cost(g', Reach(s', g'), s'.threads[t]) < Cost(g, Reach(s, g), s.threads[t])
    ensures Budget(s', g') < Budget(s, g)
  {
    hide Cost;
    hide Reach;
    TotalLess(CostMap(s', g', Reach(s', g')), CostMap(s, g, Reach(s, g)), t);
  }

  // ── whole schedules ────────────────────────────────────────────────────────

  predicate NoBegin(steps: Schedule) {
    forall i :: 0 <= i < |steps| ==> !steps[i].1.Begin?
  }

  /** A schedule without new jobs is no longer than the budget it uses up. */
  lemma {:induction false} RunSpends(c: Config, s: State, s': State, steps: Schedule, g: Shape, pend: set<PageId>,
                                     base: set<Entry>)
    returns (g': Ghosts)
    requires Inv(c, s, g, pend, base) && Run(c, s, steps) == Some(s') && NoBegin(steps)
    ensures Inv(c, s', g'.g, g'.pend, base) && |steps| + Budget(s', g'.g) <= Budget(s, g)
    decreases |steps|
  {
    hide Inv;
    hide Next;
    hide EvolvesBut;
    hide Budget;
    if steps == [] {
      g' := Ghosts(g, pend);
    } else {
      var mid := Next(c, s, steps[0].0, steps[0].1).value;
      var gm := StepKeeps(c, s, mid, steps[0].0, steps[0].1, g, pend, base);
      LevelsKept(s.pages, g, mid.pages, gm.g, Lost(s, steps[0].0, steps[0].1));
      hide SamePlaces;
      BudgetFalls(c, s, mid, steps[0].0, steps[0].1, g, pend, gm.g, gm.pend, base);
      g' := RunSpends(c, mid, s', steps[1..], gm.g, gm.pend, base);
    }
  }

  /** No thread can do anything but begin another job. */
  ghost predicate Halts(c: Config, s: State) {
    forall u: Tid, a: Action :: !a.Begin? ==> Next(c, s, u, a).None?
  }

  /** A schedule that can only be continued by new jobs has finished all of its own. */
  lemma HaltsQuiet(c: Config, s: State, g: Shape, pend: set<PageId>, base: set<Entry>)
    requires Inv(c, s, g, pend, base) && Halts(c, s) && s.next < NO_PAGE
    ensures Quiet(s)
  {
    hide Inv;
    hide Next;
    if exists t :: t in s.threads && s.threads[t] != Thread(Idle, {}) {
      NoDeadlock(c, s, g, pend, base);
    }
  }

  lemma {:induction false} RunJoin(c: Config, s: State, mid: State, s': State, steps: Schedule, more: Schedule)
    requires Run(c, s, steps) == Some(mid) && Run(c, mid, more) == Some(s')
    ensures Run(c, s, steps + more) == Some(s')
    decreases |steps|
  {
    hide Next;
    if steps == [] {
      assert steps + more == more;
    } else {
      assert (steps + more)[1..] == steps[1..] + more;
      RunJoin(c, Next(c, s, steps[0].0, steps[0].1).value, mid, s', steps[1..], more);
    }
  }

  lemma {:induction false} RequestedJoin(steps: Schedule, more: Schedule)
    requires NoBegin(more)
    ensures Requested(steps + more) == Requested(steps)
  {
    hide EntryOf;
    if steps != [] {
      assert (steps + more)[1..] == steps[1..] + more;
      RequestedJoin(steps[1..], more);
    } else {
      assert steps + more == more;
      if more != [] {
        RequestedJoin([], more[1..]);
        assert [] + more[1..] == more[1..];
      }
    }
  }

  /**
    From a fresh tree, run any schedule; then begin no further job and let the threads run
    in any order until none can move. That happens within a number of steps fixed in
    advance, and the tree is then well formed and holds every pair asked for that was not
    taken away, and nothing that was not asked for or offered; exactly, it holds the pairs
    added more often than removed. If there were single inserts only, these are the pairs
    asked for.
   */
  lemma EveryInsertArrives(c: Config, s: State, mid: State, root: PageId, threads: set<Tid>, steps: Schedule)
    returns (bound: nat)
    requires FreshStart(s, root, threads) && Run(c, s, steps) == Some(mid)
    ensures forall more: Schedule, s': State :: NoBegin(more) && Run(c, mid, more) == Some(s') ==> |more| <= bound
    ensures forall more: Schedule, s': State ::
              NoBegin(more) && Run(c, mid, more) == Some(s') && Halts(c, s') && s'.next < NO_PAGE ==>
                && Arrived(s', Requested(steps) - LostIn(c, s, steps + more), Requested(steps) + Offered(steps + more))
                && (InsertsOnly(steps + more) ==> Arrived(s', Requested(steps), Requested(steps)))
                && Settled(s', BroughtIn(c, s, steps + more), TookIn(c, s, steps + more))
  {
    hide *;
    var g, pend, base := FreshReach(c, s, mid, root, threads, steps);
    bound := Budget(mid, g);
    forall more: Schedule, s': State | NoBegin(more) && Run(c, mid, more) == Some(s') ensures |more| <= bound {
      var g' := RunSpends(c, mid, s', more, g, pend, base);
    }
    forall more: Schedule, s': State |
      NoBegin(more) && Run(c, mid, more) == Some(s') && Halts(c, s') && s'.next < NO_PAGE
      ensures Arrived(s', Requested(steps) - LostIn(c, s, steps + more), Requested(steps) + Offered(steps + more))
      ensures InsertsOnly(steps + more) ==> Arrived(s', Requested(steps), Requested(steps))
      ensures Settled(s', BroughtIn(c, s, steps + more), TookIn(c, s, steps + more))
    {
      var g' := RunSpends(c, mid, s', more, g, pend, base);
      HaltsQuiet(c, s', g'.g, g'.pend, base);
      RunJoin(c, s, mid, s', steps, more);
      RequestedJoin(steps, more);
      var depth, rows := EveryQuietRun(c, s, s', root, threads, steps + more);
      ArrivedIntro(s', depth, rows, Requested(steps) - LostIn(c, s, steps + more),
                   Requested(steps) + Offered(steps + more));
      if InsertsOnly(steps + more) { ArrivedIntro(s', depth, rows, Requested(steps), Requested(steps)); }
      var depth', rows' := FreshAccount(c, s, s', root, threads, steps + more);
      SettledIntro(s', depth', rows', BroughtIn(c, s, steps + more), TookIn(c, s, steps + more));
    }
  }

  /** The tree is well formed and its pairs lie between the two sets. */
  ghost predicate Arrived(s: State, least: set<Entry>, most: set<Entry>) {
    exists depth: nat, rows: seq<Row> :: WellFormed(s.pages, s.root, depth, rows) && least <= PairSet(rows) <= most
  }

  /** The tree is well formed and holds the pairs added more often than removed. */
  ghost predicate Settled(s: State, brought: multiset<Entry>, took: multiset<Entry>) {
    exists depth: nat, rows: seq<Row> ::
      WellFormed(s.pages, s.root, depth, rows) && forall e :: e in PairSet(rows) <==> took[e] < brought[e]
  }

  lemma SettledIntro(s: State, depth: nat, rows: seq<Row>, brought: multiset<Entry>, took: multiset<Entry>)
    requires WellFormed(s.pages, s.root, depth, rows) && forall e :: e in PairSet(rows) <==> took[e] < brought[e]
    ensures Settled(s, brought, took)
  {
    hide WellFormed;
    hide PairSet;
  }

  lemma ArrivedIntro(s: State, depth: nat, rows: seq<Row>, least: set<Entry>, most: set<Entry>)
    requires WellFormed(s.pages, s.root, depth, rows) && least <= PairSet(rows) <= most
    ensures Arrived(s, least, most)
  {
    hide WellFormed;
    hide PairSet;
  }

  lemma FreshReach(c: Config, s: State, mid: State, root: PageId, threads: set<Tid>, steps: Schedule)
    returns (g: Shape, pend: set<PageId>, base: set<Entry>)
    requires FreshStart(s, root, threads) && Run(c, s, steps) == Some(mid)
    ensures Inv(c, mid, g, pend, base)
  {
    hide Run;
    hide Inv;
    hide TreeInv;
    hide EvolvesBut;
    hide Pairs;
    var g0 := FreshShape(root);
    FreshTree(root, c.kind);
    assert AtRest(c, s, g0);
    AtRestInv(c, s, g0);
    base := Pairs(Rows(s.pages, g0));
    TreeCovers(c, s, g0, {}, base);
    var gg := RunKeeps(c, s, mid, steps, g0, {}, base);
    g, pend := gg.g, gg.pend;
  }
}
