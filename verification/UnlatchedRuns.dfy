/**
  Stories from a new tree in which an unlatched write-back loses a pair that was asked for
  and written, and in which one undoes a split.
 */
module UnlatchedRuns {
  import opened Keys
  import opened Nodes
  import opened Shapes
  import opened Trees
  import opened Edits
  import opened Crabbing
  import opened CrabbingRuns
  import opened Unlatched

  // ── schedules step by step ─────────────────────────────────────────────────

  ghost predicate Path(c: Config, states: seq<State>, steps: Schedule) {
    && |states| == |steps| + 1
    && forall i :: 0 <= i < |steps| ==> Next(c, states[i], steps[i].0, steps[i].1) == Some(states[i + 1])
  }

  lemma {:induction false} RunPath(c: Config, states: seq<State>, steps: Schedule)
    requires Path(c, states, steps)
    ensures Run(c, states[0], steps) == Some(states[|steps|])
    decreases |steps|
  {
    hide Next;
    if steps != [] {
      assert Next(c, states[0], steps[0].0, steps[0].1) == Some(states[1]);
      forall i | 0 <= i < |steps[1..]|
        ensures Next(c, states[1..][i], steps[1..][i].0, steps[1..][i].1) == Some(states[1..][i + 1])
      {
        assert Next(c, states[i + 1], steps[i + 1].0, steps[i + 1].1) == Some(states[i + 2]);
      }
      RunPath(c, states[1..], steps[1..]);
    }
  }

  lemma {:induction false} RunJoins(c: Config, s: State, a: Schedule, b: Schedule)
    requires Run(c, s, a).Some?
    ensures Run(c, s, a + b) == Run(c, Run(c, s, a).value, b)
    decreases |a|
  {
    hide Next;
    if a == [] {
      assert a + b == b;
    } else {
      assert (a + b)[1..] == a[1..] + b;
      RunJoins(c, Next(c, s, a[0].0, a[0].1).value, a[1..], b);
    }
  }

  lemma NextGo(c: Config, s: State, t: Tid)
    requires t in s.threads && s.threads[t].drop == {}
    ensures Next(c, s, t, Go) == GoStep(c, s, t, s.threads[t].pc)
  {
    hide GoStep;
  }

  lemma NextRelease(c: Config, s: State, t: Tid, l: Latch, s': State)
    requires t in s.threads && l in s.threads[t].drop
    requires s' == s.(latches := s.latches - {l},
                      threads := s.threads[t := Thread(s.threads[t].pc, s.threads[t].drop - {l})])
    ensures Next(c, s, t, Release(l)) == Some(s')
  {
  }

  // ── one insert into a tree that is a single leaf ───────────────────────────

  /** The tree is the leaf `n` on page `r`, nothing is latched, and thread `t` is idle. */
  predicate Lone(s: State, r: PageId, n: Node, t: Tid) {
    && r in s.pages && s.pages[r] == n && n.Leaf? && s.root == r && s.latches == map[]
    && t in s.threads && s.threads[t] == Thread(Idle, {})
  }

  function Approach(t: Tid, job: Job): Schedule {
    [(t, Begin(job)), (t, Go), (t, Go), (t, Go), (t, Go), (t, Go)]
  }

  function At(s: State, t: Tid, pc: Pc, latches: map<Latch, Tid>): State {
    s.(threads := s.threads[t := Thread(pc, {})], latches := latches)
  }

  function Arrived(s: State, r: PageId, n: Node, t: Tid, job: Job): State {
    At(s, t, Apply(job, true, [Frame(r, n, 0)], None), map[MetaLatch := t, PageLatch(r) := t])
  }

  lemma ApproachStarts(c: Config, s: State, r: PageId, n: Node, t: Tid, job: Job)
    requires Lone(s, r, n, t) && JobOk(c, job) && job.task.PutOne?
    ensures Run(c, s, [(t, Begin(job)), (t, Go), (t, Go)]) == Some(At(s, t, WaitRoot(job, r), map[MetaLatch := t]))
  {
    hide JobOk;
    var one := map[MetaLatch := t];
    var s1, s2, s3 := At(s, t, WaitMeta(job), map[]), At(s, t, ReadMeta(job), one), At(s, t, WaitRoot(job, r), one);
    assert Next(c, s, t, Begin(job)) == Some(s1);
    assert Next(c, s1, t, Go) == Some(s2) by {
      assert s1.latches[MetaLatch := t] == one && s1.threads[t := Thread(ReadMeta(job), {})] == s2.threads;
    }
    assert Next(c, s2, t, Go) == Some(s3) by {
      assert s2.threads[t := Thread(WaitRoot(job, r), {})] == s3.threads;
    }
    hide Next;
    RunPath(c, [s, s1, s2, s3], [(t, Begin(job)), (t, Go), (t, Go)]);
  }

  lemma ApproachEnds(c: Config, s: State, r: PageId, n: Node, t: Tid, job: Job)
    requires Lone(s, r, n, t)
    ensures Run(c, At(s, t, WaitRoot(job, r), map[MetaLatch := t]), [(t, Go), (t, Go), (t, Go)]) ==
              Some(Arrived(s, r, n, t, job))
  {
    var two := map[MetaLatch := t, PageLatch(r) := t];
    var s3, s4 := At(s, t, WaitRoot(job, r), map[MetaLatch := t]), At(s, t, ReadRoot(job, r), two);
    var s5, s6 := At(s, t, Descend(job, true, [Frame(r, n, 0)]), two), Arrived(s, r, n, t, job);
    assert Next(c, s3, t, Go) == Some(s4) by {
      assert s3.latches[PageLatch(r) := t] == two && s3.threads[t := Thread(ReadRoot(job, r), {})] == s4.threads;
    }
    assert Next(c, s4, t, Go) == Some(s5) by {
      assert s4.threads[t := Thread(Descend(job, true, [Frame(r, n, 0)]), {})] == s5.threads;
    }
    assert Next(c, s5, t, Go) == Some(s6) by {
      assert s5.threads[t := Thread(Apply(job, true, [Frame(r, n, 0)], None), {})] == s6.threads;
    }
    hide Next;
    RunPath(c, [s3, s4, s5, s6], [(t, Go), (t, Go), (t, Go)]);
  }

  lemma ApproachRuns(c: Config, s: State, r: PageId, n: Node, t: Tid, job: Job)
    requires Lone(s, r, n, t) && JobOk(c, job) && job.task.PutOne?
    ensures Run(c, s, Approach(t, job)) == Some(Arrived(s, r, n, t, job))
  {
    hide *;
    ApproachStarts(c, s, r, n, t, job);
    ApproachEnds(c, s, r, n, t, job);
    RunJoins(c, s, [(t, Begin(job)), (t, Go), (t, Go)], [(t, Go), (t, Go), (t, Go)]);
    ApproachIs(t, job);
  }

  lemma ApproachIs(t: Tid, job: Job)
    ensures Approach(t, job) == [(t, Begin(job)), (t, Go), (t, Go)] + [(t, Go), (t, Go), (t, Go)]
  {
  }

  function DropBoth(r: PageId): set<Latch> {
    {MetaLatch, PageLatch(r)}
  }

  /** The insert is written in place and the guards are dropped. */
  function Depart(t: Tid, r: PageId, pos: nat): Schedule {
    [(t, InsertAtPos(pos)), (t, Release(MetaLatch)), (t, Release(PageLatch(r)))]
  }

  function Inserted(s: State, r: PageId, t: Tid, full: Node, e: Entry): State {
    s.(pages := s.pages[r := full], applied := s.applied + {e})
  }

  lemma HeldAtLeaf(job: Job, r: PageId, n: Node)
    ensures PcHeld(Apply(job, true, [Frame(r, n, 0)], None)) == DropBoth(r)
  {
    assert [Frame(r, n, 0)][0] in [Frame(r, n, 0)];
    assert FrameLatches([Frame(r, n, 0)]) == {PageLatch(r)};
  }

  lemma DepartWrites(c: Config, s: State, r: PageId, n: Node, t: Tid, job: Job, pos: nat, full: Node, s1: State)
    requires Lone(s, r, n, t) && job.task.PutOne? && IsInsertPos(n.entries, EntryOf(job), pos)
    requires full == LeafInsert(n, pos, EntryOf(job), job.payload) && BodyLen(full) <= c.cap
    requires s1 == Inserted(s, r, t, full, EntryOf(job))
                   .(threads := s.threads[t := Thread(Idle, DropBoth(r))], latches := Arrived(s, r, n, t, job).latches)
    ensures Next(c, Arrived(s, r, n, t, job), t, InsertAtPos(pos)) == Some(s1)
  {
    hide IsInsertPos;
    hide LeafInsert;
    hide BodyLen;
    hide EntryOf;
    HeldAtLeaf(job, r, n);
    hide PcHeld;
    assert Arrived(s, r, n, t, job).threads[t := Thread(Idle, DropBoth(r))] == s1.threads;
  }

  lemma DepartRuns(c: Config, s: State, r: PageId, n: Node, t: Tid, job: Job, pos: nat)
    requires Lone(s, r, n, t) && job.task.PutOne? && IsInsertPos(n.entries, EntryOf(job), pos)
    requires BodyLen(LeafInsert(n, pos, EntryOf(job), job.payload)) <= c.cap
    ensures var full := LeafInsert(n, pos, EntryOf(job), job.payload);
            Run(c, Arrived(s, r, n, t, job), Depart(t, r, pos)) == Some(Inserted(s, r, t, full, EntryOf(job)))
  {
    hide IsInsertPos;
    hide LeafInsert;
    hide BodyLen;
    hide EntryOf;
    hide Next;
    var e := EntryOf(job);
    var full := LeafInsert(n, pos, e, job.payload);
    var s0, end := Arrived(s, r, n, t, job), Inserted(s, r, t, full, e);
    var s1 := end.(threads := s.threads[t := Thread(Idle, DropBoth(r))], latches := s0.latches);
    var s2 := end.(threads := s.threads[t := Thread(Idle, {PageLatch(r)})], latches := map[PageLatch(r) := t]);
    DepartWrites(c, s, r, n, t, job, pos, full, s1);
    assert Next(c, s1, t, Release(MetaLatch)) == Some(s2) by {
      assert DropBoth(r) - {MetaLatch} == {PageLatch(r)} && s1.latches - {MetaLatch} == s2.latches;
      assert s1.threads[t := Thread(Idle, {PageLatch(r)})] == s2.threads;
      NextRelease(c, s1, t, MetaLatch, s2);
    }
    assert Next(c, s2, t, Release(PageLatch(r))) == Some(end) by {
      assert {PageLatch(r)} - {PageLatch(r)} == {} && s2.latches - {PageLatch(r)} == map[];
      assert s2.threads[t := Thread(Idle, {})] == s.threads;
      NextRelease(c, s2, t, PageLatch(r), end);
    }
    RunPath(c, [s0, s1, s2, end], Depart(t, r, pos));
  }

  function InsertRun(t: Tid, r: PageId, job: Job, pos: nat): Schedule {
    Approach(t, job) + Depart(t, r, pos)
  }

  lemma InsertRuns(c: Config, s: State, r: PageId, n: Node, t: Tid, job: Job, pos: nat)
    requires Lone(s, r, n, t) && JobOk(c, job) && job.task.PutOne? && IsInsertPos(n.entries, EntryOf(job), pos)
    requires BodyLen(LeafInsert(n, pos, EntryOf(job), job.payload)) <= c.cap
    ensures var full := LeafInsert(n, pos, EntryOf(job), job.payload);
            && full.Leaf? && Lone(Inserted(s, r, t, full, EntryOf(job)), r, full, t)
            && Run(c, s, InsertRun(t, r, job, pos)) == Some(Inserted(s, r, t, full, EntryOf(job)))
  {
    hide JobOk;
    hide IsInsertPos;
    hide BodyLen;
    hide Run;
    hide Next;
    ApproachRuns(c, s, r, n, t, job);
    DepartRuns(c, s, r, n, t, job, pos);
    RunJoins(c, s, Approach(t, job), Depart(t, r, pos));
  }

  // ── an insert that splits the leaf ─────────────────────────────────────────

  function SplitStarts(t: Tid, r: PageId, pos: nat): Schedule {
    [(t, InsertAtPos(pos)), (t, Go), (t, Go), (t, Release(PageLatch(r)))]
  }

  function SplitEnds(t: Tid): Schedule {
    [(t, Go), (t, Go), (t, Go), (t, Release(MetaLatch))]
  }

  /** Both halves are written, and the new root is still to come. */
  function Halved(s: State, r: PageId, n: Node, t: Tid, job: Job, full: Node, right: PageId): State {
    At(s, t, NewRoot(job, r, Sep(LeafSep(full), right)), map[MetaLatch := t])
    .(pages := s.pages[right := LeafRight(full)][r := LeafLeft(full, right)], next := s.next + 1,
      applied := s.applied + {EntryOf(job)})
  }

  function Cutting(s: State, r: PageId, n: Node, t: Tid, job: Job, full: Node, right: PageId): State {
    At(s, t, WriteRight(job, true, [Frame(r, n, 0)], None, full, right), map[MetaLatch := t, PageLatch(r) := t])
    .(next := s.next + 1)
  }

  function RightIn(s: State, r: PageId, n: Node, t: Tid, job: Job, full: Node, right: PageId): State {
    At(s, t, WriteLeft(job, true, [Frame(r, n, 0)], None, full, right), map[MetaLatch := t, PageLatch(r) := t])
    .(next := s.next + 1, pages := s.pages[right := LeafRight(full)])
  }

  lemma CutNext(c: Config, s: State, r: PageId, n: Node, t: Tid, job: Job, pos: nat, full: Node, right: PageId)
    requires Lone(s, r, n, t) && job.task.PutOne? && IsInsertPos(n.entries, EntryOf(job), pos)
    requires full == LeafInsert(n, pos, EntryOf(job), job.payload) && BodyLen(full) > c.cap
    requires right as int == s.next < NO_PAGE as int
    ensures Next(c, Arrived(s, r, n, t, job), t, InsertAtPos(pos)) == Some(Cutting(s, r, n, t, job, full, right))
  {
    hide IsInsertPos;
    hide BodyLen;
    hide EntryOf;
    hide LeafInsert;
    var s0, s1 := Arrived(s, r, n, t, job), Cutting(s, r, n, t, job, full, right);
    assert s0.threads[t := s1.threads[t]] == s1.threads;
  }

  lemma RightNext(c: Config, s: State, r: PageId, n: Node, t: Tid, job: Job, full: Node, right: PageId)
    requires Lone(s, r, n, t) && full.Leaf?
    ensures Next(c, Cutting(s, r, n, t, job, full, right), t, Go) == Some(RightIn(s, r, n, t, job, full, right))
  {
    var s1, s2 := Cutting(s, r, n, t, job, full, right), RightIn(s, r, n, t, job, full, right);
    NextGo(c, s1, t);
    hide Next;
    hide LeafRight;
    assert s1.threads[t := s2.threads[t]] == s2.threads;
  }

  lemma LeftNext(c: Config, s: State, r: PageId, n: Node, t: Tid, job: Job, full: Node, right: PageId, s3: State)
    requires Lone(s, r, n, t) && full.Leaf? && job.task.PutOne?
    requires s3 == Halved(s, r, n, t, job, full, right)
                   .(threads := s.threads[t := Thread(NewRoot(job, r, Sep(LeafSep(full), right)), {PageLatch(r)})],
                     latches := map[MetaLatch := t, PageLatch(r) := t])
    ensures Next(c, RightIn(s, r, n, t, job, full, right), t, Go) == Some(s3)
  {
    var s2 := RightIn(s, r, n, t, job, full, right);
    NextGo(c, s2, t);
    hide Next;
    hide LeafRight;
    hide LeafLeft;
    hide LeafSep;
    assert s2.threads[t := s3.threads[t]] == s3.threads;
  }

  lemma SplitStartsRun(c: Config, s: State, r: PageId, n: Node, t: Tid, job: Job, pos: nat, right: PageId)
    requires Lone(s, r, n, t) && job.task.PutOne? && IsInsertPos(n.entries, EntryOf(job), pos)
    requires BodyLen(LeafInsert(n, pos, EntryOf(job), job.payload)) > c.cap && right as int == s.next < NO_PAGE as int
    ensures Run(c, Arrived(s, r, n, t, job), SplitStarts(t, r, pos)) ==
              Some(Halved(s, r, n, t, job, LeafInsert(n, pos, EntryOf(job), job.payload), right))
  {
    hide IsInsertPos;
    hide BodyLen;
    hide EntryOf;
    hide LeafSep;
    hide Next;
    var full := LeafInsert(n, pos, EntryOf(job), job.payload);
    assert full.Leaf?;
    hide LeafInsert;
    hide LeafLeft;
    hide LeafRight;
    var s0, end := Arrived(s, r, n, t, job), Halved(s, r, n, t, job, full, right);
    var s1, s2 := Cutting(s, r, n, t, job, full, right), RightIn(s, r, n, t, job, full, right);
    var s3 := end.(threads := s.threads[t := Thread(NewRoot(job, r, Sep(LeafSep(full), right)), {PageLatch(r)})],
                   latches := s0.latches);
    CutNext(c, s, r, n, t, job, pos, full, right);
    RightNext(c, s, r, n, t, job, full, right);
    LeftNext(c, s, r, n, t, job, full, right, s3);
    assert Next(c, s3, t, Release(PageLatch(r))) == Some(end) by {
      assert {PageLatch(r)} - {PageLatch(r)} == {} && s3.latches - {PageLatch(r)} == end.latches;
      assert s3.threads[t := end.threads[t]] == end.threads;
      NextRelease(c, s3, t, PageLatch(r), end);
    }
    RunPath(c, [s0, s1, s2, s3, end], SplitStarts(t, r, pos));
  }

  function Grown(s: State, r: PageId, t: Tid, job: Job, full: Node, right: PageId, top: PageId): State {
    var pages := s.pages[right := LeafRight(full)][r := LeafLeft(full, right)];
    s.(pages := pages[top := Internal([LeafSep(full)], [r, right])], root := top, next := s.next + 2,
       applied := s.applied + {EntryOf(job)})
  }

  lemma TopNext(c: Config, s0: State, t: Tid, job: Job, r: PageId, sep: Sep, top: PageId, s1: State, s2: State,
                s3: State)
    requires t in s0.threads && s0.threads[t] == Thread(NewRoot(job, r, sep), {})
    requires top as int == s0.next < NO_PAGE as int
    requires s1 == s0.(threads := s0.threads[t := Thread(WriteTop(job, r, sep, top), {})], next := s0.next + 1)
    requires s2 == s1.(threads := s0.threads[t := Thread(Repoint(job, r, sep, top), {})],
                       pages := s0.pages[top := Internal([sep.key], [r, sep.child])])
    requires s3 == s2.(threads := s0.threads[t := Thread(Idle, {MetaLatch})], root := top)
    ensures Next(c, s0, t, Go) == Some(s1) && Next(c, s1, t, Go) == Some(s2) && Next(c, s2, t, Go) == Some(s3)
  {
    NextGo(c, s0, t);
    NextGo(c, s1, t);
    NextGo(c, s2, t);
    hide Next;
    assert s1.threads[t := s2.threads[t]] == s2.threads && s2.threads[t := s3.threads[t]] == s3.threads;
  }

  lemma SplitEndsRun(c: Config, s: State, r: PageId, n: Node, t: Tid, job: Job, full: Node, right: PageId, top: PageId)
    requires Lone(s, r, n, t) && top as int == s.next + 1 < NO_PAGE as int
    ensures Run(c, Halved(s, r, n, t, job, full, right), SplitEnds(t)) == Some(Grown(s, r, t, job, full, right, top))
  {
    hide EntryOf;
    hide LeafSep;
    hide LeafLeft;
    hide LeafRight;
    hide Next;
    var sep := Sep(LeafSep(full), right);
    var s0, end := Halved(s, r, n, t, job, full, right), Grown(s, r, t, job, full, right, top);
    var s1 := s0.(threads := s0.threads[t := Thread(WriteTop(job, r, sep, top), {})], next := s0.next + 1);
    var s2 := s1.(threads := s0.threads[t := Thread(Repoint(job, r, sep, top), {})], pages := end.pages);
    var s3 := s2.(threads := s0.threads[t := Thread(Idle, {MetaLatch})], root := top);
    TopNext(c, s0, t, job, r, sep, top, s1, s2, s3);
    assert Next(c, s3, t, Release(MetaLatch)) == Some(end) by {
      assert {MetaLatch} - {MetaLatch} == {} && s3.latches - {MetaLatch} == map[];
      assert s3.threads[t := Thread(Idle, {})] == s.threads;
      NextRelease(c, s3, t, MetaLatch, end);
    }
    RunPath(c, [s0, s1, s2, s3, end], SplitEnds(t));
  }

  function SplitRun(t: Tid, r: PageId, job: Job, pos: nat): Schedule {
    Approach(t, job) + SplitStarts(t, r, pos) + SplitEnds(t)
  }

  lemma SplitRuns(c: Config, s: State, r: PageId, n: Node, t: Tid, job: Job, pos: nat, right: PageId, top: PageId)
    requires Lone(s, r, n, t) && JobOk(c, job) && job.task.PutOne? && IsInsertPos(n.entries, EntryOf(job), pos)
    requires BodyLen(LeafInsert(n, pos, EntryOf(job), job.payload)) > c.cap
    requires right as int == s.next && top as int == s.next + 1 < NO_PAGE as int
    ensures Run(c, s, SplitRun(t, r, job, pos)) ==
              Some(Grown(s, r, t, job, LeafInsert(n, pos, EntryOf(job), job.payload), right, top))
  {
    hide *;
    var full := LeafInsert(n, pos, EntryOf(job), job.payload);
    ApproachRuns(c, s, r, n, t, job);
    SplitStartsRun(c, s, r, n, t, job, pos, right);
    SplitEndsRun(c, s, r, n, t, job, full, right, top);
    RunJoins(c, s, Approach(t, job), SplitStarts(t, r, pos));
    RunJoins(c, s, Approach(t, job) + SplitStarts(t, r, pos), SplitEnds(t));
    SplitRunIs(t, r, job, pos);
  }

  lemma SplitRunIs(t: Tid, r: PageId, job: Job, pos: nat)
    ensures SplitRun(t, r, job, pos) == Approach(t, job) + SplitStarts(t, r, pos) + SplitEnds(t)
  {
  }

  // ── stories ────────────────────────────────────────────────────────────────

  function Lift(steps: Schedule): seq<Event> {
    if steps == [] then [] else [Step(steps[0].0, steps[0].1)] + Lift(steps[1..])
  }

  lemma {:induction false} StoryRuns(c: Config, s: State, steps: Schedule, hand: Hand)
    requires Run(c, s, steps).Some?
    ensures Story(c, World(s, hand), Lift(steps)) == Some(World(Run(c, s, steps).value, hand))
    decreases |steps|
  {
    hide Next;
    if steps != [] {
      assert Lift(steps)[1..] == Lift(steps[1..]);
      StoryRuns(c, Next(c, s, steps[0].0, steps[0].1).value, steps[1..], hand);
    }
  }

  lemma {:induction false} StoryJoins(c: Config, w: World, a: seq<Event>, b: seq<Event>)
    requires Story(c, w, a).Some?
    ensures Story(c, w, a + b) == Story(c, Story(c, w, a).value, b)
    decreases |a|
  {
    hide After;
    if a == [] {
      assert a + b == b;
    } else {
      assert (a + b)[1..] == a[1..] + b;
      StoryJoins(c, After(c, w, a[0]).value, a[1..], b);
    }
  }

  lemma StoryOne(c: Config, w: World, ev: Event)
    ensures Story(c, w, [ev]) == After(c, w, ev)
  {
    hide After;
    if After(c, w, ev).Some? { assert [ev][1..] == []; }
  }

  /** A story, the unlatched read, another story, and the write-back. */
  function Race(before: Schedule, r: PageId, between: Schedule, at: nat, rid: RowId): seq<Event> {
    Lift(before) + [Peek(r)] + Lift(between) + [PutBack(at, rid)]
  }

  lemma RaceRuns(c: Config, s: State, before: Schedule, m: State, r: PageId, between: Schedule, m': State, at: nat,
                 rid: RowId)
    requires Run(c, s, before) == Some(m) && Run(c, m, between) == Some(m') && r in m.pages && m.pages[r].Leaf?
    requires at < |m.pages[r].entries|
    ensures Story(c, World(s, Empty), Race(before, r, between, at, rid)) ==
              Some(World(Stamped(m', r, m.pages[r], at, rid), Empty))
  {
    hide Run;
    hide Story;
    var w0, w1 := World(s, Empty), World(m, Has(r, m.pages[r]));
    StoryRuns(c, s, before, Empty);
    StoryOne(c, World(m, Empty), Peek(r));
    StoryRuns(c, m, between, Has(r, m.pages[r]));
    StoryOne(c, World(m', Has(r, m.pages[r])), PutBack(at, rid));
    StoryJoins(c, w0, Lift(before), [Peek(r)]);
    StoryJoins(c, w0, Lift(before) + [Peek(r)], Lift(between));
    StoryJoins(c, w0, Lift(before) + [Peek(r)] + Lift(between), [PutBack(at, rid)]);
  }

  // ── a pair is lost ─────────────────────────────────────────────────────────

  function Plain(key: Int64, slot: Word16, payload: seq<byte>): Job {
    Job(IntKey(key), RowId(1, slot), payload, PutOne)
  }

  /** The pair (5, slot 1) is inserted, its leaf is read, (7, slot 2) is inserted, and the leaf is written back. */
  function LosingStory(t: Tid, r: PageId): seq<Event> {
    Race(InsertRun(t, r, Plain(5, 1, []), 0), r, InsertRun(t, r, Plain(7, 2, []), 1), 0, RowId(1, 3))
  }

  lemma SmallLeaves(r: PageId)
    ensures var a, b := Entry(IntKey(5), RowId(1, 1)), Entry(IntKey(7), RowId(1, 2));
            && LeafInsert(Leaf([], [], NO_PAGE), 0, a, []) == Leaf([a], [], NO_PAGE)
            && LeafInsert(Leaf([a], [], NO_PAGE), 1, b, []) == Leaf([a, b], [], NO_PAGE)
            && BodyLen(Leaf([a], [], NO_PAGE)) <= 64 && BodyLen(Leaf([a, b], [], NO_PAGE)) <= 64
            && IsInsertPos([], a, 0) && IsInsertPos([a], b, 1)
  {
    var a, b := Entry(IntKey(5), RowId(1, 1)), Entry(IntKey(7), RowId(1, 2));
    assert RowsOf([a], []) == [Row(a.key, a.rid, [])];
    assert RowsOf([a, b], []) == [Row(a.key, a.rid, []), Row(b.key, b.rid, [])];
    assert RowsOf([a, b], [])[1..] == [Row(b.key, b.rid, [])];
  }

  /** In every tree of integer keys: the second pair was asked for and written, and it is gone. */
  lemma WriteBackCanLosePair(c: Config, s: State, r: PageId, t: Tid)
    requires FreshStart(s, r, {t}) && c.kind == IntKind && c.cap >= 64
    ensures var story := Story(c, World(s, Empty), LosingStory(t, r));
            && story.Some? && Entry(IntKey(7), RowId(1, 2)) in story.value.s.applied
            && r in story.value.s.pages && story.value.s.root == r
            && story.value.s.pages[r] == Leaf([Entry(IntKey(5), RowId(1, 3))], [], NO_PAGE)
  {
    var a, b := Entry(IntKey(5), RowId(1, 1)), Entry(IntKey(7), RowId(1, 2));
    var j, k := Plain(5, 1, []), Plain(7, 2, []);
    SmallLeaves(r);
    assert EntryOf(j) == a && EntryOf(k) == b && JobOk(c, j) && JobOk(c, k);
    var n0, n1 := Leaf([], [], NO_PAGE), Leaf([a], [], NO_PAGE);
    hide LeafInsert;
    hide IsInsertPos;
    hide BodyLen;
    hide JobOk;
    hide Run;
    hide Story;
    InsertRuns(c, s, r, n0, t, j, 0);
    var m := Inserted(s, r, t, n1, a);
    InsertRuns(c, m, r, n1, t, k, 1);
    var m' := Inserted(m, r, t, Leaf([a, b], [], NO_PAGE), b);
    RaceRuns(c, s, InsertRun(t, r, j, 0), m, r, InsertRun(t, r, k, 1), m', 0, RowId(1, 3));
  }

  // ── a split is undone ──────────────────────────────────────────────────────

  const A := Entry(IntKey(5), RowId(1, 1))
  const B := Entry(IntKey(7), RowId(1, 2))
  const D := Entry(IntKey(9), RowId(1, 3))

  /** A payload so long that two rows with it fit a page and three do not. */
  predicate TwoFit(cap: nat, w: seq<byte>) {
    w != []
    && NODE_HEADER + 2 * (9 + LENGTH_FIELD + |w| + ROWID_LEN) <= cap
    && cap < NODE_HEADER + 3 * (9 + LENGTH_FIELD + |w| + ROWID_LEN)
  }

  lemma WideRows(w: seq<byte>)
    ensures BodyLen(Leaf([A], [w], NO_PAGE)) == NODE_HEADER + (9 + LENGTH_FIELD + |w| + ROWID_LEN)
    ensures BodyLen(Leaf([A, B], [w, w], NO_PAGE)) == NODE_HEADER + 2 * (9 + LENGTH_FIELD + |w| + ROWID_LEN)
    ensures BodyLen(Leaf([A, B, D], [w, w, w], NO_PAGE)) == NODE_HEADER + 3 * (9 + LENGTH_FIELD + |w| + ROWID_LEN)
  {
    var a, b, d := Row(A.key, A.rid, w), Row(B.key, B.rid, w), Row(D.key, D.rid, w);
    assert RowsOf([A], [w]) == [a] && RowsOf([A, B], [w, w]) == [a, b] && RowsOf([A, B, D], [w, w, w]) == [a, b, d];
    assert [a][1..] == [] && [a, b][1..] == [b] && [b][1..] == [] && [a, b, d][1..] == [b, d] && [b, d][1..] == [d];
    assert RowsLen([d]) == RowLen(d) && RowsLen([b, d]) == RowLen(b) + RowsLen([d]);
    assert RowsLen([b]) == RowLen(b) && RowsLen([a, b]) == RowLen(a) + RowsLen([b]);
  }

  lemma WideInserts(w: seq<byte>)
    requires w != []
    ensures LeafInsert(Leaf([], [], NO_PAGE), 0, A, w) == Leaf([A], [w], NO_PAGE)
    ensures LeafInsert(Leaf([A], [w], NO_PAGE), 1, B, w) == Leaf([A, B], [w, w], NO_PAGE)
    ensures LeafInsert(Leaf([A, B], [w, w], NO_PAGE), 2, D, w) == Leaf([A, B, D], [w, w, w], NO_PAGE)
    ensures IsInsertPos([], A, 0) && IsInsertPos([A], B, 1) && IsInsertPos([A, B], D, 2)
  {
    assert InsertPayload([], 0, 0, w) == [w];
    assert InsertPayload([w], 1, 1, w) == [w, w];
    assert InsertPayload([w, w], 2, 2, w) == [w, w, w];
  }

  lemma WideHalves(w: seq<byte>, right: PageId)
    ensures var full := Leaf([A, B, D], [w, w, w], NO_PAGE);
            && LeafLeft(full, right) == Leaf([A], [w], right) && LeafRight(full) == Leaf([B, D], [w, w], NO_PAGE)
            && LeafSep(full) == B.key
  {
  }

  /** Two rows fill the leaf, it is read, the third splits it, and it is written back. */
  function UndoingStory(t: Tid, r: PageId, w: seq<byte>): seq<Event> {
    Race(InsertRun(t, r, Plain(5, 1, w), 0) + InsertRun(t, r, Plain(7, 2, w), 1), r,
         SplitRun(t, r, Plain(9, 3, w), 2), 0, RowId(1, 4))
  }

  /** The state the story ends in. */
  function Undone(r: PageId, w: seq<byte>, right: PageId, top: PageId): Pages {
    map[r := Leaf([Entry(A.key, RowId(1, 4)), B], [w, w], NO_PAGE), right := Leaf([B, D], [w, w], NO_PAGE),
        top := Internal([B.key], [r, right])]
  }

  lemma FullRuns(c: Config, s: State, r: PageId, t: Tid, w: seq<byte>)
    requires FreshStart(s, r, {t}) && c.kind == IntKind && TwoFit(c.cap, w)
    ensures var m := s.(pages := map[r := Leaf([A, B], [w, w], NO_PAGE)], applied := {A, B});
            && Lone(m, r, Leaf([A, B], [w, w], NO_PAGE), t)
            && Run(c, s, InsertRun(t, r, Plain(5, 1, w), 0) + InsertRun(t, r, Plain(7, 2, w), 1)) == Some(m)
  {
    var j, k := Plain(5, 1, w), Plain(7, 2, w);
    WideRows(w);
    WideInserts(w);
    assert EntryOf(j) == A && EntryOf(k) == B && JobOk(c, j) && JobOk(c, k);
    hide LeafInsert;
    hide IsInsertPos;
    hide BodyLen;
    hide JobOk;
    hide Run;
    InsertRuns(c, s, r, Leaf([], [], NO_PAGE), t, j, 0);
    var m0 := Inserted(s, r, t, Leaf([A], [w], NO_PAGE), A);
    InsertRuns(c, m0, r, Leaf([A], [w], NO_PAGE), t, k, 1);
    RunJoins(c, s, InsertRun(t, r, j, 0), InsertRun(t, r, k, 1));
    var m := s.(pages := map[r := Leaf([A, B], [w, w], NO_PAGE)], applied := {A, B});
    assert Inserted(m0, r, t, Leaf([A, B], [w, w], NO_PAGE), B) == m by {
      assert m0.pages[r := Leaf([A, B], [w, w], NO_PAGE)] == m.pages && m0.applied + {B} == {A, B};
    }
  }

  lemma SplitPages(s: State, r: PageId, t: Tid, w: seq<byte>, right: PageId, top: PageId)
    requires s.pages == map[r := Leaf([A, B], [w, w], NO_PAGE)] && r != right && r != top && right != top
    ensures var full := Leaf([A, B, D], [w, w, w], NO_PAGE);
            var m' := Grown(s, r, t, Plain(9, 3, w), full, right, top);
            && m'.root == top
            && Stamped(m', r, Leaf([A, B], [w, w], NO_PAGE), 0, RowId(1, 4)).pages == Undone(r, w, right, top)
  {
    WideHalves(w, right);
    hide LeafLeft;
    hide LeafRight;
    hide LeafSep;
    assert [A, B][0 := Entry(A.key, RowId(1, 4))] == [Entry(A.key, RowId(1, 4)), B];
  }

  /** Below the root the leaf that was split ends the chain, so the pages are no tree of any depth. */
  lemma UndoneIsNoTree(r: PageId, w: seq<byte>, right: PageId, top: PageId, depth: nat, rows: seq<Row>)
    requires r != right && r != top && right != top && right != NO_PAGE
    ensures !WellFormed(Undone(r, w, right, top), top, depth, rows)
  {
    var pages := Undone(r, w, right, top);
    hide Bounded;
    hide Flat;
    if depth == 0 {
      assert LeavesUnder(pages, top, 0) == [top];
    } else {
      var kids := [r, right];
      assert kids[..1] == [r] && [r][..0] == [];
      assert LeavesOfAll(pages, [], depth - 1) == [];
      assert LeavesOfAll(pages, [r], depth - 1) == LeavesUnder(pages, r, depth - 1);
      assert LeavesUnder(pages, top, depth) == LeavesUnder(pages, r, depth - 1) + LeavesUnder(pages, right, depth - 1);
      if depth == 1 { assert LeavesUnder(pages, top, 1) == [r, right]; }
    }
  }

  /**
    In every tree of integer keys, for every payload of which two rows fill a page: the leaf
    is as before the split again, its link to the right half is gone, and the pages form no
    tree any more.
   */
  lemma WriteBackCanUndoSplit(c: Config, s: State, r: PageId, t: Tid, w: seq<byte>, right: PageId, top: PageId)
    requires FreshStart(s, r, {t}) && c.kind == IntKind && TwoFit(c.cap, w)
    requires right as int == s.next && top as int == s.next + 1 < NO_PAGE as int
    ensures var story := Story(c, World(s, Empty), UndoingStory(t, r, w));
            && story.Some? && story.value.s.root == top && story.value.s.pages == Undone(r, w, right, top)
            && forall depth: nat, rows: seq<Row> :: !WellFormed(story.value.s.pages, top, depth, rows)
  {
    hide *;
    Ids(s, r, t, right, top);
    FullRuns(c, s, r, t, w);
    var n := Leaf([A, B], [w, w], NO_PAGE);
    var m := s.(pages := map[r := n], applied := {A, B});
    var job := Plain(9, 3, w);
    ThirdJob(c, w);
    SplitRuns(c, m, r, n, t, job, 2, right, top);
    var m' := Grown(m, r, t, job, Leaf([A, B, D], [w, w, w], NO_PAGE), right, top);
    RaceRuns(c, s, InsertRun(t, r, Plain(5, 1, w), 0) + InsertRun(t, r, Plain(7, 2, w), 1), m, r,
             SplitRun(t, r, job, 2), m', 0, RowId(1, 4));
    UndoingIs(t, r, w);
    SplitPages(m, r, t, w, right, top);
    StampedRoot(m', r, n, 0, RowId(1, 4));
    forall depth: nat, rows: seq<Row> ensures !WellFormed(Undone(r, w, right, top), top, depth, rows) {
      UndoneIsNoTree(r, w, right, top, depth, rows);
    }
  }

  lemma Ids(s: State, r: PageId, t: Tid, right: PageId, top: PageId)
    requires FreshStart(s, r, {t}) && right as int == s.next && top as int == s.next + 1 < NO_PAGE as int
    ensures r != right && r != top && right != top && right != NO_PAGE
  {
  }

  lemma ThirdJob(c: Config, w: seq<byte>)
    requires c.kind == IntKind && TwoFit(c.cap, w)
    ensures var job := Plain(9, 3, w);
            && JobOk(c, job) && job.task.PutOne? && EntryOf(job) == D && job.payload == w && IsInsertPos([A, B], D, 2)
            && LeafInsert(Leaf([A, B], [w, w], NO_PAGE), 2, D, w) == Leaf([A, B, D], [w, w, w], NO_PAGE)
            && BodyLen(Leaf([A, B, D], [w, w, w], NO_PAGE)) > c.cap
  {
    WideRows(w);
    WideInserts(w);
  }

  lemma UndoingIs(t: Tid, r: PageId, w: seq<byte>)
    ensures UndoingStory(t, r, w) ==
              Race(InsertRun(t, r, Plain(5, 1, w), 0) + InsertRun(t, r, Plain(7, 2, w), 1), r,
                   SplitRun(t, r, Plain(9, 3, w), 2), 0, RowId(1, 4))
  {
  }

  lemma StampedRoot(s: State, r: PageId, n: Node, at: nat, rid: RowId)
    ensures Stamped(s, r, n, at, rid).root == s.root
  {
  }
}
