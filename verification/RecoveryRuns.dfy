/**
  Runs of the durability machine that end in a state from which recovery rebuilds less than
  was there: each is shown to be reachable, and what is lost is computed.
 */
module RecoveryRuns {
  import opened Keys
  import opened Nodes
  import opened Durability
  import opened Recovery

  // ── runs step by step ──────────────────────────────────────────────────────

  /** Each state is the next of the one before, and no flush is blind. */
  ghost predicate Path(states: seq<State>, steps: seq<Action>) {
    && |states| == |steps| + 1
    && forall i :: 0 <= i < |steps| ==> Next(states[i], steps[i]) == Some(states[i + 1]) && !Blind(states[i], steps[i])
  }

  lemma {:induction false} RunPath(states: seq<State>, steps: seq<Action>)
    requires Path(states, steps)
    ensures Run(states[0], steps) == Some(states[|steps|]) && Sighted(states[0], steps)
    decreases |steps|
  {
    hide Next;
    hide Blind;
    if steps != [] {
      assert Next(states[0], steps[0]) == Some(states[1]);
      forall i | 0 <= i < |steps[1..]|
        ensures Next(states[1..][i], steps[1..][i]) == Some(states[1..][i + 1]) && !Blind(states[1..][i], steps[1..][i])
      {
        assert Next(states[i + 1], steps[i + 1]) == Some(states[i + 2]);
      }
      RunPath(states[1..], steps[1..]);
    }
  }

  lemma {:induction false} RunSplit(s: State, a: seq<Action>, b: seq<Action>)
    requires Run(s, a).Some? && Sighted(s, a) && Sighted(Run(s, a).value, b)
    ensures Run(s, a + b) == Run(Run(s, a).value, b) && Sighted(s, a + b)
    decreases |a|
  {
    hide Next;
    hide Blind;
    if a == [] {
      assert a + b == b;
    } else {
      assert (a + b)[1..] == a[1..] + b;
      RunSplit(Next(s, a[0]).value, a[1..], b);
    }
  }

  /** A run from an empty system, none of whose flushes is blind. */
  ghost predicate Reaches(steps: seq<Action>, s: State) {
    Run(START, steps) == Some(s) && Sighted(START, steps)
  }

  lemma ReachesOn(a: seq<Action>, s: State, b: seq<Action>, s': State)
    requires Reaches(a, s) && Run(s, b) == Some(s') && Sighted(s, b)
    ensures Reaches(a + b, s')
  {
    hide Run;
    hide Sighted;
    RunSplit(START, a, b);
  }

  // ── changes of one page ────────────────────────────────────────────────────

  function AfterImage(s: State, t: Txn, p: PageId): State {
    var lsn := |s.log| + 1;
    s.(log := s.log + [Image(t, p)], mem := s.mem[p := Page(lsn, [lsn])], dirty := s.dirty + {p},
       fpi := s.fpi[p := |s.log|])
  }

  lemma FinishNext(s: State, p: PageId)
    requires p in s.todo && s.todo[p].at < |s.log|
    ensures Next(s, Finish(p)) == Some(Done(s, p, s.log[s.todo[p].at], s.todo[p]))
  {
  }

  lemma ImageNext(s: State, t: Txn, p: PageId)
    requires t in s.open' && s.armed == map[] && s.todo == map[]
    ensures Next(s, LogImage(t, p)) == Some(Append(s, Image(t, p)))
  {
  }

  lemma ImageDone(s: State, t: Txn, p: PageId)
    requires s.todo == map[]
    ensures Done(Append(s, Image(t, p)), p, Image(t, p), Todo(t, |s.log|)) == AfterImage(s, t, p)
  {
    assert Append(s, Image(t, p)).todo - {p} == map[];
  }

  lemma ImageOne(s: State, t: Txn, p: PageId)
    requires t in s.open' && s.armed == map[] && s.todo == map[]
    ensures Run(s, [LogImage(t, p), Finish(p)]) == Some(AfterImage(s, t, p)) && Sighted(s, [LogImage(t, p), Finish(p)])
  {
    hide Next;
    hide Done;
    hide AfterImage;
    hide Run;
    hide Sighted;
    var s1 := Append(s, Image(t, p));
    ImageNext(s, t, p);
    FinishNext(s1, p);
    ImageDone(s, t, p);
    RunPath([s, s1, AfterImage(s, t, p)], [LogImage(t, p), Finish(p)]);
  }

  function AfterInsert(s: State, t: Txn, p: PageId): State {
    var lsn := |s.log| + 1;
    s.(log := s.log + [Insert(t, p)], mem := s.mem[p := Page(lsn, PageAt(s.mem, p).made + [lsn])],
       dirty := s.dirty + {p}, armed := s.armed - {t})
  }

  lemma InsertOne(s: State, t: Txn, p: PageId)
    requires t in s.armed && s.armed[t] == p && s.todo == map[]
    ensures Run(s, [LogInsert(t, p), Finish(p)]) == Some(AfterInsert(s, t, p))
    ensures Sighted(s, [LogInsert(t, p), Finish(p)])
  {
    var s1 := s.(log := s.log + [Insert(t, p)], armed := s.armed - {t}, todo := map[p := Todo(t, |s.log|)]);
    assert Next(s, LogInsert(t, p)) == Some(s1) by {
      assert s.todo[p := Todo(t, |s.log|)] == s1.todo;
    }
    assert Next(s1, Finish(p)) == Some(AfterInsert(s, t, p)) by {
      assert s1.todo - {p} == map[];
    }
    hide Next;
    RunPath([s, s1, AfterInsert(s, t, p)], [LogInsert(t, p), Finish(p)]);
  }

  function TrackedInsert(t: Txn, p: PageId): seq<Action> {
    [DoBegin(t), MaybeFpi(t, p)] + [LogInsert(t, p), Finish(p)]
  }

  function AfterTracked(s: State, t: Txn, p: PageId): State {
    AfterInsert(s.(log := s.log + [Begin(t)], open' := s.open' + {t}, armed := map[t := p]), t, p)
  }

  /** A mini-transaction begins and inserts into a leaf that has an image already. */
  lemma TrackedInsertRuns(s: State, t: Txn, p: PageId)
    requires Begin(t) !in s.log && s.armed == map[] && s.todo == map[] && p in s.fpi && PageAt(s.mem, p).made != []
    ensures Run(s, TrackedInsert(t, p)) == Some(AfterTracked(s, t, p)) && Sighted(s, TrackedInsert(t, p))
  {
    var s1 := s.(log := s.log + [Begin(t)], open' := s.open' + {t});
    var s2 := s1.(armed := map[t := p]);
    assert Next(s, DoBegin(t)) == Some(s1);
    assert Next(s1, MaybeFpi(t, p)) == Some(s2) by {
      assert s1.armed[t := p] == s2.armed;
    }
    InsertOne(s2, t, p);
    hide Next;
    RunPath([s, s1, s2], [DoBegin(t), MaybeFpi(t, p)]);
    RunSplit(s, [DoBegin(t), MaybeFpi(t, p)], [LogInsert(t, p), Finish(p)]);
  }

  // ── a leaf is written ──────────────────────────────────────────────────────

  function WriteRun(): seq<Action> {
    [DoBegin(1), LogImage(1, 7), Finish(7), DoCommit(1)]
  }

  /** Leaf 7 is written by a mini-transaction that commits. */
  function Written(): State {
    START.(log := [Begin(1), Image(1, 7), Commit(1)], mem := map[7 := Page(2, [2])], dirty := {7}, fpi := map[7 := 1])
  }

  lemma WriteRuns()
    ensures Reaches(WriteRun(), Written())
  {
    var s1 := START.(log := [Begin(1)], open' := {1});
    var s2 := s1.(log := [Begin(1), Image(1, 7)], todo := map[7 := Todo(1, 1)]);
    var s3 := s2.(mem := map[7 := Page(2, [2])], dirty := {7}, fpi := map[7 := 1], todo := map[]);
    assert Next(START, DoBegin(1)) == Some(s1) by {
      assert START.log + [Begin(1)] == [Begin(1)] && START.open' + {1} == {1};
    }
    assert Next(s1, LogImage(1, 7)) == Some(s2) by {
      assert s1.log + [Image(1, 7)] == s2.log && s1.todo[7 := Todo(1, 1)] == s2.todo;
    }
    assert Next(s2, Finish(7)) == Some(s3) by {
      assert s2.mem[7 := Page(2, [2])] == s3.mem && s2.dirty + {7} == {7} && s2.fpi[7 := 1] == s3.fpi;
      assert s2.todo - {7} == map[];
    }
    assert Next(s3, DoCommit(1)) == Some(Written()) by {
      assert s3.log + [Commit(1)] == Written().log && s3.open' - {1} == {};
    }
    hide Next;
    RunPath([START, s1, s2, s3, Written()], WriteRun());
  }

  // ── a checkpoint with nobody writing ───────────────────────────────────────

  function CheckpointRun(retain: Lsn): seq<Action> {
    [StartCheckpoint, FlushAll, ClearFpi] + [LogCheckpoint, PointControl, Truncate(retain)]
  }

  function JustCleared(s: State): State {
    s.(phase := Cleared(|s.log|, {}), durable := |s.log|, disk := s.disk + (map p | p in s.dirty :: PageAt(s.mem, p)),
       dirty := {}, fpi := map[], clear := |s.log|)
  }

  function AfterCheckpoint(s: State): State {
    JustCleared(s).(phase := Running, log := s.log + [Record.Checkpoint], durable := |s.log| + 1, ckpt := |s.log| + 1,
                 swept := |s.log|, missed := {}, floor := |s.log| + 1)
  }

  lemma CheckpointFlushes(s: State)
    requires s.phase.Running? && s.todo == map[] && |s.log| > 0
    requires forall p :: p in s.dirty ==> PageAt(s.mem, p).lsn <= |s.log|
    ensures Run(s, [StartCheckpoint, FlushAll, ClearFpi]) == Some(JustCleared(s))
    ensures Sighted(s, [StartCheckpoint, FlushAll, ClearFpi])
  {
    var s1 := s.(phase := Synced, durable := |s.log|);
    var s2 := JustCleared(s).(phase := Flushed(|s.log|, {}), fpi := s.fpi, clear := s.clear);
    assert Next(s, StartCheckpoint) == Some(s1);
    assert Next(s1, FlushAll) == Some(s2) by {
      assert Pending(s1) == {};
    }
    assert Next(s2, ClearFpi) == Some(JustCleared(s));
    hide Next;
    RunPath([s, s1, s2, JustCleared(s)], [StartCheckpoint, FlushAll, ClearFpi]);
  }

  lemma CheckpointPoints(s: State)
    requires s.phase.Running? && s.floor <= |s.log|
    ensures var steps := [LogCheckpoint, PointControl, Truncate(|s.log| + 1)];
            Run(JustCleared(s), steps) == Some(AfterCheckpoint(s)) && Sighted(JustCleared(s), steps)
  {
    var s0, n := JustCleared(s), |s.log|;
    var s1 := s0.(phase := Logged(n, {}, n + 1), log := s.log + [Record.Checkpoint], durable := n + 1);
    var s2 := s1.(phase := Pointed, ckpt := n + 1, swept := n, missed := {});
    assert Next(s0, LogCheckpoint) == Some(s1);
    assert Next(s1, PointControl) == Some(s2);
    assert Next(s2, Truncate(n + 1)) == Some(AfterCheckpoint(s));
    hide Next;
    RunPath([s0, s1, s2, AfterCheckpoint(s)], [LogCheckpoint, PointControl, Truncate(n + 1)]);
  }

  lemma CheckpointAlone(s: State)
    requires s.phase.Running? && s.todo == map[] && |s.log| > 0 && s.floor <= |s.log|
    requires forall p :: p in s.dirty ==> PageAt(s.mem, p).lsn <= |s.log|
    ensures Run(s, CheckpointRun(|s.log| + 1)) == Some(AfterCheckpoint(s)) && Sighted(s, CheckpointRun(|s.log| + 1))
  {
    hide Run;
    hide Sighted;
    CheckpointFlushes(s);
    CheckpointPoints(s);
    RunSplit(s, [StartCheckpoint, FlushAll, ClearFpi], [LogCheckpoint, PointControl, Truncate(|s.log| + 1)]);
  }

  /** The leaf is checkpointed. */
  function Checkpointed(): State {
    START.(log := [Begin(1), Image(1, 7), Commit(1), Record.Checkpoint], durable := 4, mem := map[7 := Page(2, [2])],
           disk := map[7 := Page(2, [2])], clear := 3, ckpt := 4, swept := 3, floor := 4)
  }

  lemma CheckpointRuns()
    ensures Reaches(WriteRun() + CheckpointRun(4), Checkpointed())
  {
    hide Run;
    hide Sighted;
    var s := Written();
    WriteRuns();
    CheckpointAlone(s);
    assert AfterCheckpoint(s) == Checkpointed() by {
      assert s.disk + (map p | p in s.dirty :: PageAt(s.mem, p)) == Checkpointed().disk;
      assert s.log + [Record.Checkpoint] == Checkpointed().log;
    }
    ReachesOn(WriteRun(), s, CheckpointRun(4), Checkpointed());
  }

  // ── a checkpoint among writers ─────────────────────────────────────────────

  /** Between its flush and its record the leaf is written, by a mini-transaction that commits. */
  function OverlapRun(): seq<Action> {
    [DoBegin(1), StartCheckpoint, FlushAll] + [LogImage(1, 7), Finish(7), DoCommit(1)]
    + [ClearFpi, LogCheckpoint, PointControl, Truncate(4)]
  }

  function OverlapFlushed(): State {
    START.(log := [Begin(1)], durable := 1, open' := {1}, phase := Flushed(1, {}))
  }

  function OverlapWritten(): State {
    Written().(durable := 1, phase := Flushed(1, {}))
  }

  function OverlapEnd(): State {
    Written().(log := Written().log + [Record.Checkpoint], durable := 4, fpi := map[], clear := 3, ckpt := 4,
               swept := 1, floor := 4)
  }

  lemma OverlapStarts()
    ensures Reaches([DoBegin(1), StartCheckpoint, FlushAll], OverlapFlushed())
  {
    var s1 := START.(log := [Begin(1)], open' := {1});
    var s2 := s1.(phase := Synced, durable := 1);
    assert Next(START, DoBegin(1)) == Some(s1) by {
      assert START.log + [Begin(1)] == [Begin(1)] && START.open' + {1} == {1};
    }
    assert Next(s1, StartCheckpoint) == Some(s2);
    assert Next(s2, FlushAll) == Some(OverlapFlushed()) by {
      assert s2.disk + (map p | p in s2.dirty :: PageAt(s2.mem, p)) == map[] && Pending(s2) == {};
    }
    hide Next;
    RunPath([START, s1, s2, OverlapFlushed()], [DoBegin(1), StartCheckpoint, FlushAll]);
  }

  lemma OverlapWrites()
    ensures var steps := [LogImage(1, 7), Finish(7), DoCommit(1)];
            Run(OverlapFlushed(), steps) == Some(OverlapWritten()) && Sighted(OverlapFlushed(), steps)
  {
    var s0 := OverlapFlushed();
    var s1 := s0.(log := [Begin(1), Image(1, 7)], todo := map[7 := Todo(1, 1)]);
    var s2 := s1.(mem := map[7 := Page(2, [2])], dirty := {7}, fpi := map[7 := 1], todo := map[]);
    assert Next(s0, LogImage(1, 7)) == Some(s1) by {
      assert s0.log + [Image(1, 7)] == s1.log && s0.todo[7 := Todo(1, 1)] == s1.todo;
    }
    assert Next(s1, Finish(7)) == Some(s2) by {
      assert s1.mem[7 := Page(2, [2])] == s2.mem && s1.dirty + {7} == {7} && s1.fpi[7 := 1] == s2.fpi;
      assert s1.todo - {7} == map[];
    }
    assert Next(s2, DoCommit(1)) == Some(OverlapWritten()) by {
      assert s2.log + [Commit(1)] == OverlapWritten().log && s2.open' - {1} == {};
    }
    hide Next;
    RunPath([s0, s1, s2, OverlapWritten()], [LogImage(1, 7), Finish(7), DoCommit(1)]);
  }

  lemma OverlapFinishes()
    ensures var steps := [ClearFpi, LogCheckpoint, PointControl, Truncate(4)];
            Run(OverlapWritten(), steps) == Some(OverlapEnd()) && Sighted(OverlapWritten(), steps)
  {
    var s0 := OverlapWritten();
    var s1 := s0.(phase := Cleared(1, {}), fpi := map[], clear := 3);
    var s2 := s1.(phase := Logged(1, {}, 4), log := s1.log + [Record.Checkpoint], durable := 4);
    var s3 := s2.(phase := Pointed, ckpt := 4, swept := 1);
    assert Next(s0, ClearFpi) == Some(s1) && Next(s1, LogCheckpoint) == Some(s2);
    assert Next(s2, PointControl) == Some(s3) && Next(s3, Truncate(4)) == Some(OverlapEnd());
    hide Next;
    RunPath([s0, s1, s2, s3, OverlapEnd()], [ClearFpi, LogCheckpoint, PointControl, Truncate(4)]);
  }

  lemma OverlapRuns()
    ensures Reaches(OverlapRun(), OverlapEnd())
  {
    hide Run;
    hide Sighted;
    hide Next;
    var a, b, c := [DoBegin(1), StartCheckpoint, FlushAll], [LogImage(1, 7), Finish(7), DoCommit(1)],
      [ClearFpi, LogCheckpoint, PointControl, Truncate(4)];
    OverlapStarts();
    OverlapWrites();
    OverlapFinishes();
    ReachesOn(a, OverlapFlushed(), b, OverlapWritten());
    ReachesOn(a + b, OverlapWritten(), c, OverlapEnd());
  }

  /** The leaf's image and its commit are durable, and no redo, of whatever records, brings the leaf back. */
  lemma CheckpointCanLoseCommitted(all: bool)
    ensures var s := OverlapEnd();
            && Survives(s, s.log) && Committed(s.log, 0, 1) && s.durable == |s.log|
            && At(s.log, |s.log|, 7) == Page(2, [2]) && Recovered(s, s.log, 7, all) == BLANK
  {
    var log := OverlapEnd().log;
    assert log[..|log|] == log;
    assert log[2] == Commit(1);
    assert At(log, 0, 7) == BLANK && At(log, 1, 7) == BLANK;
    assert At(log, 2, 7) == Page(2, [2]) && At(log, 3, 7) == Page(2, [2]) && At(log, 4, 7) == Page(2, [2]);
    assert Redone(log, 3, 3, BLANK, 7, all) == BLANK;
    assert Redone(log, 3, 4, BLANK, 7, all) == BLANK;
  }

  // ── image tracking cleared before the insert ───────────────────────────────

  /** A mini-transaction gets its image logged and a checkpoint clears tracking before it logs its insert. */
  function ClearedRun(): seq<Action> {
    [DoBegin(2), MaybeFpi(2, 7), Finish(7)] + CheckpointRun(7) + [LogInsert(2, 7), Finish(7)] + [DoCommit(2), Sync]
  }

  function Armed(): State {
    Checkpointed().(log := Checkpointed().log + [Begin(2), Fpi(2, 7, Page(2, [2]))], fpi := map[7 := 5], open' := {2},
                    armed := map[2 := 7])
  }

  function ClearedPointed(): State {
    Armed().(log := Armed().log + [Record.Checkpoint], durable := 7, fpi := map[], clear := 6, ckpt := 7,
                    swept := 6, floor := 7)
  }

  function ClearedEnd(): State {
    ClearedPointed().(log := ClearedPointed().log + [Insert(2, 7), Commit(2)], durable := 9,
                      mem := map[7 := Page(8, [2, 8])], dirty := {7}, open' := {}, armed := map[])
  }

  lemma ArmRuns()
    ensures var steps := [DoBegin(2), MaybeFpi(2, 7), Finish(7)];
            Run(Checkpointed(), steps) == Some(Armed()) && Sighted(Checkpointed(), steps)
  {
    var s0 := Checkpointed();
    var s1 := s0.(log := s0.log + [Begin(2)], open' := {2});
    var s2 := s1.(log := s1.log + [Fpi(2, 7, Page(2, [2]))], todo := map[7 := Todo(2, 5)]);
    assert Next(s0, DoBegin(2)) == Some(s1) by {
      assert s0.open' + {2} == {2} && s0.log[0..] == s0.log;
    }
    assert Next(s1, MaybeFpi(2, 7)) == Some(s2) by {
      assert s1.todo[7 := Todo(2, 5)] == s2.todo;
    }
    assert Next(s2, Finish(7)) == Some(Armed()) by {
      assert s2.todo - {7} == map[] && s2.fpi[7 := 5] == map[7 := 5] && s2.armed[2 := 7] == map[2 := 7];
      assert s2.log == Armed().log;
    }
    hide Next;
    RunPath([s0, s1, s2, Armed()], [DoBegin(2), MaybeFpi(2, 7), Finish(7)]);
  }

  lemma ClearRuns()
    ensures Run(Armed(), CheckpointRun(7)) == Some(ClearedPointed()) && Sighted(Armed(), CheckpointRun(7))
  {
    hide Run;
    hide Sighted;
    var s := Armed();
    CheckpointAlone(s);
    assert s.disk + (map p | p in s.dirty :: PageAt(s.mem, p)) == s.disk;
  }

  lemma InsertRuns()
    ensures var steps := [LogInsert(2, 7), Finish(7)] + [DoCommit(2), Sync];
            Run(ClearedPointed(), steps) == Some(ClearedEnd()) && Sighted(ClearedPointed(), steps)
  {
    var s0 := ClearedPointed();
    var s2 := s0.(log := s0.log + [Insert(2, 7)], armed := map[], mem := map[7 := Page(8, [2, 8])], dirty := {7});
    var s3 := ClearedEnd().(durable := 7);
    InsertOne(s0, 2, 7);
    assert AfterInsert(s0, 2, 7) == s2 by {
      assert [2] + [8] == [2, 8] && s0.mem[7 := Page(8, [2, 8])] == s2.mem;
      assert s0.dirty + {7} == {7} && s0.armed - {2} == map[];
    }
    assert Next(s2, DoCommit(2)) == Some(s3) by {
      assert s2.log + [Commit(2)] == s3.log && s2.open' - {2} == {};
    }
    assert Next(s3, Sync) == Some(ClearedEnd());
    hide Next;
    RunPath([s2, s3, ClearedEnd()], [DoCommit(2), Sync]);
    RunSplit(s0, [LogInsert(2, 7), Finish(7)], [DoCommit(2), Sync]);
  }

  lemma ClearedRuns()
    ensures Reaches(WriteRun() + CheckpointRun(4) + ClearedRun(), ClearedEnd())
  {
    hide Run;
    hide Sighted;
    hide Next;
    CheckpointRuns();
    ArmRuns();
    ClearRuns();
    InsertRuns();
    var z := WriteRun() + CheckpointRun(4);
    var a, b := [DoBegin(2), MaybeFpi(2, 7), Finish(7)], CheckpointRun(7);
    var c := [LogInsert(2, 7), Finish(7)] + [DoCommit(2), Sync];
    ReachesOn(z, Checkpointed(), a, Armed());
    ReachesOn(z + a, Armed(), b, ClearedPointed());
    ReachesOn(z + a + b, ClearedPointed(), c, ClearedEnd());
    assert z + ClearedRun() == z + a + b + c;
  }

  /**
    There a committed insert has no whole image of its leaf since tracking was cleared; the
    leaf may be on its way to disk, and if the crash tears it, it stays as it was torn.
   */
  lemma ClearedImageIsMissing(torn: Page)
    requires torn.made == []
    ensures var s := ClearedEnd();
            && s.log[7] == Insert(2, 7) && Sel(s.log, From(s.ckpt), 7, false) && !WholeFrom(s.log, s.clear, 7, 7)
            && 7 in s.dirty && PageAt(s.mem, 7).lsn <= s.durable && Survives(s, s.log)
            && Redone(s.log, From(s.ckpt), |s.log|, torn, 7, false) == torn
  {
    var log := ClearedEnd().log;
    assert log[..|log|] == log;
    assert log[6] == Record.Checkpoint && log[8] == Commit(2);
    assert Committed(log, 6, 2);
    assert Redone(log, 6, 6, torn, 7, false) == torn;
    assert Redone(log, 6, 7, torn, 7, false) == torn;
    assert Redone(log, 6, 8, torn, 7, false) == torn;
    assert Redone(log, 6, 9, torn, 7, false) == torn;
  }

  // ── a torn page whose image did not commit ─────────────────────────────────

  /**
    After a checkpoint a mini-transaction images the leaf, inserts into it, and the log is
    synced. The pool may now write the leaf back, and the crash may tear it.
   */
  function TornRun(): seq<Action> {
    [DoBegin(2), MaybeFpi(2, 7), Finish(7)] + ([LogInsert(2, 7), Finish(7)] + [Sync])
  }

  function TornEnd(): State {
    Armed().(log := Armed().log + [Insert(2, 7)], durable := 7, mem := map[7 := Page(7, [2, 7])], dirty := {7},
             armed := map[])
  }

  lemma TornRuns()
    ensures Reaches(WriteRun() + CheckpointRun(4) + TornRun(), TornEnd())
  {
    hide Run;
    hide Sighted;
    CheckpointRuns();
    ArmRuns();
    var z, a, b := WriteRun() + CheckpointRun(4), [DoBegin(2), MaybeFpi(2, 7), Finish(7)], [LogInsert(2, 7), Finish(7)];
    InsertOne(Armed(), 2, 7);
    var s1 := TornEnd().(durable := 4);
    assert AfterInsert(Armed(), 2, 7) == s1 by {
      assert [2] + [7] == [2, 7] && Armed().mem[7 := Page(7, [2, 7])] == s1.mem && Armed().dirty + {7} == {7};
      assert Armed().armed - {2} == map[];
    }
    assert Next(s1, Sync) == Some(TornEnd());
    hide Next;
    RunPath([s1, TornEnd()], [Sync]);
    ReachesOn(z, Checkpointed(), a, Armed());
    ReachesOn(z + a, Armed(), b, s1);
    ReachesOn(z + a + b, s1, [Sync], TornEnd());
    assert z + TornRun() == z + a + b + [Sync];
  }

  /** There the leaf may be on its way to disk, its only image is not redone, and it stays as the crash tore it. */
  lemma TornPageCanStay(torn: Page)
    ensures var s := TornEnd();
            && 7 in s.dirty && PageAt(s.mem, 7).lsn <= s.durable && Survives(s, s.log)
            && Redone(s.log, From(s.ckpt), |s.log|, torn, 7, false) == torn
  {
    var log := TornEnd().log;
    assert log ==
             [Begin(1), Image(1, 7), Commit(1), Record.Checkpoint, Begin(2), Fpi(2, 7, Page(2, [2])), Insert(2, 7)];
    assert log[..|log|] == log;
    assert !Committed(log, 3, 2);
    assert Redone(log, 3, 3, torn, 7, false) == torn;
    assert Redone(log, 3, 4, torn, 7, false) == torn;
    assert Redone(log, 3, 5, torn, 7, false) == torn;
    assert Redone(log, 3, 6, torn, 7, false) == torn;
    assert Redone(log, 3, 7, torn, 7, false) == torn;
  }

  // ── two inserts into one leaf ──────────────────────────────────────────────

  /** Two mini-transactions insert into one leaf; the second commits first, and then the system crashes. */
  function Interleaved(): seq<Action> {
    WriteRun() + TrackedInsert(2, 7) + TrackedInsert(3, 7) + [DoCommit(3), Sync]
  }

  function Halfway(): State {
    Written().(log := Written().log + [Begin(2), Insert(2, 7)], mem := map[7 := Page(5, [2, 5])], open' := {2})
  }

  function BothIn(): State {
    Halfway().(log := Halfway().log + [Begin(3), Insert(3, 7)], mem := map[7 := Page(7, [2, 5, 7])], open' := {2, 3})
  }

  function InterleavedEnd(): State {
    BothIn().(log := BothIn().log + [Commit(3)], durable := 8, open' := {2})
  }

  lemma BothRun()
    ensures Reaches(WriteRun() + TrackedInsert(2, 7) + TrackedInsert(3, 7), BothIn())
  {
    hide Run;
    hide Sighted;
    WriteRuns();
    var s := Written();
    TrackedInsertRuns(s, 2, 7);
    assert AfterTracked(s, 2, 7) == Halfway() by {
      assert s.log + [Begin(2)] + [Insert(2, 7)] == Halfway().log && [2] + [5] == [2, 5];
      assert s.mem[7 := Page(5, [2, 5])] == Halfway().mem && s.dirty + {7} == {7} && s.open' + {2} == {2};
      assert map[2 := 7] - {2} == map[];
    }
    ReachesOn(WriteRun(), s, TrackedInsert(2, 7), Halfway());
    var h := Halfway();
    TrackedInsertRuns(h, 3, 7);
    assert AfterTracked(h, 3, 7) == BothIn() by {
      assert h.log + [Begin(3)] + [Insert(3, 7)] == BothIn().log && [2, 5] + [7] == [2, 5, 7];
      assert h.mem[7 := Page(7, [2, 5, 7])] == BothIn().mem && h.dirty + {7} == {7} && h.open' + {3} == {2, 3};
      assert map[3 := 7] - {3} == map[];
    }
    ReachesOn(WriteRun() + TrackedInsert(2, 7), h, TrackedInsert(3, 7), BothIn());
  }

  lemma InterleavedRuns()
    ensures Reaches(Interleaved(), InterleavedEnd())
  {
    hide Run;
    hide Sighted;
    BothRun();
    var s0, s1 := BothIn(), InterleavedEnd().(durable := 0);
    assert Next(s0, DoCommit(3)) == Some(s1) by {
      assert s0.open' - {3} == {2};
    }
    assert Next(s1, Sync) == Some(InterleavedEnd());
    hide Next;
    RunPath([s0, s1, InterleavedEnd()], [DoCommit(3), Sync]);
    ReachesOn(WriteRun() + TrackedInsert(2, 7) + TrackedInsert(3, 7), s0, [DoCommit(3), Sync], InterleavedEnd());
  }

  lemma InterleavedAt(log: Log)
    requires log == [Begin(1), Image(1, 7), Commit(1), Begin(2), Insert(2, 7), Begin(3), Insert(3, 7), Commit(3)]
    ensures At(log, 8, 7) == Page(7, [2, 5, 7])
  {
    assert At(log, 0, 7) == BLANK && At(log, 1, 7) == BLANK;
    assert At(log, 2, 7) == Page(2, [2]) && At(log, 4, 7) == At(log, 3, 7) == Page(2, [2]);
    assert At(log, 5, 7) == Page(5, [2, 5]) && At(log, 6, 7) == Page(5, [2, 5]);
    assert At(log, 7, 7) == Page(7, [2, 5, 7]);
  }

  lemma InterleavedRedone(log: Log)
    requires log == [Begin(1), Image(1, 7), Commit(1), Begin(2), Insert(2, 7), Begin(3), Insert(3, 7), Commit(3)]
    ensures Redone(log, 0, 8, BLANK, 7, false) == Page(7, [2, 7])
  {
    assert log[2] == Commit(1) && log[7] == Commit(3);
    assert Committed(log, 0, 1) && Committed(log, 0, 3) && !Committed(log, 0, 2);
    hide Committed;
    assert Redone(log, 0, 1, BLANK, 7, false) == BLANK;
    assert Redone(log, 0, 2, BLANK, 7, false) == Page(2, [2]);
    assert Redone(log, 0, 3, BLANK, 7, false) == Page(2, [2]);
    assert Redone(log, 0, 4, BLANK, 7, false) == Page(2, [2]);
    assert Redone(log, 0, 5, BLANK, 7, false) == Page(2, [2]);
    assert Redone(log, 0, 6, BLANK, 7, false) == Page(2, [2]);
    assert Redone(log, 0, 7, BLANK, 7, false) == Page(7, [2, 7]);
  }

  /** The second insert is redone on a leaf that lacks the first, against which its position was computed. */
  lemma RecoveryCanLoseAnInsert()
    ensures var s := InterleavedEnd();
            && At(s.log, 8, 7) == Page(7, [2, 5, 7]) && Recovered(s, s.log, 7, false) == Page(7, [2, 7])
  {
    hide At;
    hide Redone;
    var log := InterleavedEnd().log;
    assert log == [Begin(1), Image(1, 7), Commit(1), Begin(2), Insert(2, 7), Begin(3), Insert(3, 7), Commit(3)];
    InterleavedAt(log);
    InterleavedRedone(log);
  }

  // ── a split that did not commit ────────────────────────────────────────────

  /**
    After a checkpoint a mini-transaction splits leaf 7 into 7 and 8; the left half is stolen,
    and the system crashes.
   */
  function SplitRun(): seq<Action> {
    [DoBegin(2)] + [LogImage(2, 8), Finish(8)] + [LogImage(2, 7), Finish(7)] + [Sync, Steal(7)]
  }

  function HalvesIn(): State {
    Checkpointed().(log := Checkpointed().log + [Begin(2), Image(2, 8), Image(2, 7)],
                    mem := map[7 := Page(7, [7]), 8 := Page(6, [6])], dirty := {7, 8}, fpi := map[8 := 5, 7 := 6],
                    open' := {2})
  }

  function SplitEnd(): State {
    HalvesIn().(durable := 7, disk := map[7 := Page(7, [7])], dirty := {8})
  }

  lemma HalvesRun()
    ensures Reaches(WriteRun() + CheckpointRun(4) + [DoBegin(2)] + [LogImage(2, 8), Finish(8)]
                    + [LogImage(2, 7), Finish(7)], HalvesIn())
  {
    hide Run;
    hide Sighted;
    CheckpointRuns();
    var z, s0 := WriteRun() + CheckpointRun(4), Checkpointed();
    var s1 := s0.(log := s0.log + [Begin(2)], open' := {2});
    assert Next(s0, DoBegin(2)) == Some(s1) by {
      assert s0.open' + {2} == {2};
    }
    hide Next;
    RunPath([s0, s1], [DoBegin(2)]);
    ReachesOn(z, s0, [DoBegin(2)], s1);
    ImageOne(s1, 2, 8);
    var s2 := AfterImage(s1, 2, 8);
    ReachesOn(z + [DoBegin(2)], s1, [LogImage(2, 8), Finish(8)], s2);
    ImageOne(s2, 2, 7);
    ReachesOn(z + [DoBegin(2)] + [LogImage(2, 8), Finish(8)], s2, [LogImage(2, 7), Finish(7)], AfterImage(s2, 2, 7));
    assert AfterImage(s2, 2, 7) == HalvesIn() by {
      assert s2.log + [Image(2, 7)] == HalvesIn().log && s2.mem[7 := Page(7, [7])] == HalvesIn().mem;
      assert s2.dirty + {7} == {7, 8} && s2.fpi[7 := 6] == HalvesIn().fpi;
    }
  }

  lemma SplitRuns()
    ensures Reaches(WriteRun() + CheckpointRun(4) + SplitRun(), SplitEnd())
  {
    hide Run;
    hide Sighted;
    HalvesRun();
    var s0 := HalvesIn();
    var s1 := s0.(durable := 7);
    assert Next(s0, Sync) == Some(s1);
    assert Next(s1, Steal(7)) == Some(SplitEnd()) by {
      assert s1.disk[7 := Page(7, [7])] == SplitEnd().disk && s1.dirty - {7} == {8};
    }
    hide Next;
    RunPath([s0, s1, SplitEnd()], [Sync, Steal(7)]);
    var z := WriteRun() + CheckpointRun(4);
    ReachesOn(z + [DoBegin(2)] + [LogImage(2, 8), Finish(8)] + [LogImage(2, 7), Finish(7)], s0, [Sync, Steal(7)],
              SplitEnd());
    assert z + SplitRun() ==
             z + [DoBegin(2)] + [LogImage(2, 8), Finish(8)] + [LogImage(2, 7), Finish(7)] + [Sync, Steal(7)];
  }

  /**
    Whatever pairs of the leaf the left half does not have are lost: recovery keeps the left
    half of the split, which never committed, and not the right one.
   */
  lemma SplitCanLosePairs(pairs: map<Lsn, set<Entry>>)
    requires 2 in pairs && 6 in pairs && 7 in pairs
    ensures var s := SplitEnd();
            && Survives(s, s.log) && !Committed(s.log, From(s.ckpt), 2)
            && PairsIn(pairs, At(s.log, 6, 7)) == pairs[2]
            && PairsIn(pairs, Recovered(s, s.log, 7, false)) + PairsIn(pairs, Recovered(s, s.log, 8, false)) == pairs[7]
  {
    var s := SplitEnd();
    var log := s.log;
    assert log == [Begin(1), Image(1, 7), Commit(1), Record.Checkpoint, Begin(2), Image(2, 8), Image(2, 7)];
    assert log[..|log|] == log;
    assert At(log, 1, 7) == BLANK && At(log, 2, 7) == Page(2, [2]) && At(log, 3, 7) == Page(2, [2])
           && At(log, 4, 7) == Page(2, [2]) && At(log, 5, 7) == Page(2, [2]) && At(log, 6, 7) == Page(2, [2]);
    assert !Committed(log, 3, 2);
    forall p, x ensures Redone(log, 3, 7, x, p, false) == x {
      assert Redone(log, 3, 3, x, p, false) == x && Redone(log, 3, 4, x, p, false) == x;
      assert Redone(log, 3, 5, x, p, false) == x && Redone(log, 3, 6, x, p, false) == x;
    }
    assert Recovered(s, log, 7, false) == Page(7, [7]) && Recovered(s, log, 8, false) == BLANK;
    PairsInOne(pairs, 2);
    PairsInOne(pairs, 7);
  }

  function EntrySet(entries: seq<Entry>): set<Entry> {
    set e | e in entries
  }

  ghost predicate AllDifferent(entries: seq<Entry>) {
    forall i, j :: 0 <= i < j < |entries| ==> entries[i] != entries[j]
  }

  lemma InsertedDifferent(es: seq<Entry>, pos: nat, e: Entry)
    requires pos <= |es| && AllDifferent(es) && e !in es
    ensures AllDifferent(InsertAt(es, pos, e))
  {
    var full := InsertAt(es, pos, e);
    assert forall i :: 0 <= i < |full| ==> full[i] == if i < pos then es[i] else if i == pos then e else es[i - 1];
  }

  /** Of the last two entries of the full leaf one is old, and both are in the right half. */
  lemma LeftLacks(es: seq<Entry>, pos: nat, e: Entry, h: nat)
    requires pos <= |es| && |es| >= 2 && AllDifferent(InsertAt(es, pos, e)) && h <= |es| - 1
    ensures exists x :: x in es && x !in InsertAt(es, pos, e)[..h]
  {
    var full := InsertAt(es, pos, e);
    var k := if pos == |es| then |es| - 1 else |es|;
    assert full[k] == es[|es| - 1];
    assert full[k] in es && full[k] !in full[..h];
  }

  lemma HalvesHold(es: seq<Entry>, pos: nat, e: Entry, h: nat)
    requires pos <= |es| && h <= |es| + 1
    ensures forall x :: x in es || x == e ==> x in InsertAt(es, pos, e)[h..] || x in InsertAt(es, pos, e)[..h]
  {
    var full := InsertAt(es, pos, e);
    forall x | x in es || x == e ensures x in full[h..] || x in full[..h] {
      assert es == es[..pos] + es[pos..];
      assert x in full;
      assert full == full[..h] + full[h..];
    }
  }

  /**
    The halves of a leaf split, which hold the new entry too, have all pairs the leaf had; and
    if the leaf had two at least, all different, the left half lacks one of them.
   */
  lemma LeafSplitPairs(n: Node, pos: nat, e: Entry, payload: seq<byte>, q: PageId)
    requires n.Leaf? && pos <= |n.entries|
    ensures var full := LeafInsert(n, pos, e, payload);
            var left, right := EntrySet(LeafLeft(full, q).entries), EntrySet(LeafRight(full).entries);
            && EntrySet(n.entries) <= right + left && e in right + left
            && (|n.entries| >= 2 && e !in n.entries && AllDifferent(n.entries) ==> !(EntrySet(n.entries) <= left))
  {
    var full := LeafInsert(n, pos, e, payload);
    var h := |full.entries| / 2;
    assert LeafLeft(full, q).entries == full.entries[..h] && LeafRight(full).entries == full.entries[h..];
    HalvesHold(n.entries, pos, e, h);
    if |n.entries| >= 2 && e !in n.entries && AllDifferent(n.entries) {
      InsertedDifferent(n.entries, pos, e);
      LeftLacks(n.entries, pos, e, h);
      var x :| x in n.entries && x !in full.entries[..h];
      assert x in EntrySet(n.entries) && x !in EntrySet(full.entries[..h]);
    }
  }

  // ── numbers of mini-transactions after a restart ───────────────────────────

  /** Reopening keeps log, checkpoint and the pages recovery rebuilt, and numbers mini-transactions from 1 again. */
  function Reopened(s: State, log: Log, pages: Pages): State {
    s.(log := log, durable := |log|, mem := pages, disk := pages, dirty := {}, fpi := map[], clear := |log|,
       born := |log|, phase := Running, open' := {}, armed := map[], todo := map[])
  }

  /**
    A record from before the restart is redone after the next crash if and only if it was
    redone after the first, or a mini-transaction with its number has committed since.
   */
  lemma TakenForCommittedIff(log: Log, more: Log, from: nat, j: nat)
    requires from <= j < |log| && TxnOf(log[j]).Some?
    ensures Sel(log + more, from, j, false) <==> Sel(log, from, j, false) || Commit(TxnOf(log[j]).value) in more
  {
    var c := Commit(TxnOf(log[j]).value);
    var both := log + more;
    assert both[j] == log[j];
    if i :| from <= i < |log| && log[i] == c { assert both[i] == c; }
    if i :| from <= i < |both| && both[i] == c {
      if i < |log| { assert log[i] == c; } else { assert more[i - |log|] == c; }
    }
    if c in more {
      var i :| 0 <= i < |more| && more[i] == c;
      assert both[|log| + i] == c;
    }
  }

  /** Mini-transaction 2 images leaf 7 anew and does not commit. */
  function FirstLife(): State {
    Written().(log := Written().log + [Begin(2), Image(2, 7)], durable := 5, mem := map[7 := Page(5, [5])],
               fpi := map[7 := 4], open' := {2})
  }

  lemma FirstLifeRuns()
    ensures Reaches(WriteRun() + [DoBegin(2)] + [LogImage(2, 7), Finish(7)] + [Sync], FirstLife())
  {
    hide Run;
    hide Sighted;
    WriteRuns();
    var s0 := Written();
    var s1 := s0.(log := s0.log + [Begin(2)], open' := {2});
    var s2 := FirstLife().(durable := 0);
    assert Next(s0, DoBegin(2)) == Some(s1) by {
      assert s0.open' + {2} == {2};
    }
    assert Next(s2, Sync) == Some(FirstLife());
    hide Next;
    RunPath([s0, s1], [DoBegin(2)]);
    ImageOne(s1, 2, 7);
    assert AfterImage(s1, 2, 7) == s2 by {
      assert s1.log + [Image(2, 7)] == s2.log && s1.mem[7 := Page(5, [5])] == s2.mem && s1.dirty + {7} == {7};
      assert s1.fpi[7 := 4] == s2.fpi;
    }
    RunPath([s2, FirstLife()], [Sync]);
    ReachesOn(WriteRun(), s0, [DoBegin(2)], s1);
    ReachesOn(WriteRun() + [DoBegin(2)], s1, [LogImage(2, 7), Finish(7)], s2);
    ReachesOn(WriteRun() + [DoBegin(2)] + [LogImage(2, 7), Finish(7)], s2, [Sync], FirstLife());
  }

  lemma {:induction false} OnlyLeaf(log: Log, n: nat, p: PageId)
    requires n <= |log| && forall j :: 0 <= j < n ==> !OnPage(log[j], p)
    ensures Redone(log, 0, n, BLANK, p, false) == BLANK
  {
    if n > 0 { OnlyLeaf(log, n - 1, p); }
  }

  /** The crash undoes that image: recovery rebuilds the leaf as mini-transaction 1 wrote it. */
  lemma FirstRecovery(p: PageId)
    ensures Recovered(FirstLife(), FirstLife().log, p, false) == PageAt(map[7 := Page(2, [2])], p)
  {
    var log := FirstLife().log;
    assert log == [Begin(1), Image(1, 7), Commit(1), Begin(2), Image(2, 7)];
    assert log[2] == Commit(1);
    assert Committed(log, 0, 1) && !Committed(log, 0, 2);
    if p != 7 {
      OnlyLeaf(log, 5, p);
    } else {
      assert Redone(log, 0, 1, BLANK, 7, false) == BLANK;
      assert Redone(log, 0, 2, BLANK, 7, false) == Page(2, [2]);
      assert Redone(log, 0, 3, BLANK, 7, false) == Page(2, [2]);
      assert Redone(log, 0, 4, BLANK, 7, false) == Page(2, [2]);
    }
  }

  /** In the second life two mini-transactions run that touch no page. */
  function SecondLifeRun(): seq<Action> {
    [DoBegin(1), DoCommit(1), DoBegin(2), DoCommit(2), Sync]
  }

  function Restarted(): State {
    Reopened(FirstLife(), FirstLife().log, map[7 := Page(2, [2])])
  }

  function SecondLife(): State {
    Restarted().(log := Restarted().log + [Begin(1), Commit(1), Begin(2), Commit(2)], durable := 9)
  }

  lemma SecondLifeRuns()
    ensures Run(Restarted(), SecondLifeRun()) == Some(SecondLife())
  {
    var s0 := Restarted();
    var s1 := s0.(log := s0.log + [Begin(1)], open' := {1});
    var s2 := s0.(log := s1.log + [Commit(1)]);
    var s3 := s2.(log := s2.log + [Begin(2)], open' := {2});
    var s4 := SecondLife().(durable := 5);
    assert Next(s0, DoBegin(1)) == Some(s1) by {
      assert s0.log[5..] == [] && s0.open' + {1} == {1};
    }
    assert Next(s1, DoCommit(1)) == Some(s2) by {
      assert s1.open' - {1} == {};
    }
    assert Next(s2, DoBegin(2)) == Some(s3) by {
      assert s2.log[5..] == [Begin(1), Commit(1)] && s2.open' + {2} == {2};
    }
    assert Next(s3, DoCommit(2)) == Some(s4) by {
      assert s3.log + [Commit(2)] == s4.log && s3.open' - {2} == {};
    }
    assert Next(s4, Sync) == Some(SecondLife());
    hide Next;
    RunPath([s0, s1, s2, s3, s4, SecondLife()], SecondLifeRun());
  }

  /** The next recovery redoes the image that never committed, over a leaf that nobody touched since. */
  lemma RestartCanRedoUncommitted()
    ensures var s := SecondLife();
            PageAt(s.mem, 7) == PageAt(s.disk, 7) == Page(2, [2]) && Recovered(s, s.log, 7, false) == Page(5, [5])
  {
    var log := SecondLife().log;
    assert log == [Begin(1), Image(1, 7), Commit(1), Begin(2), Image(2, 7), Begin(1), Commit(1), Begin(2), Commit(2)];
    assert log[2] == Commit(1) && log[8] == Commit(2);
    assert Committed(log, 0, 1) && Committed(log, 0, 2);
    hide Committed;
    var d := Page(2, [2]);
    assert Redone(log, 0, 1, d, 7, false) == d && Redone(log, 0, 2, d, 7, false) == d;
    assert Redone(log, 0, 3, d, 7, false) == d && Redone(log, 0, 4, d, 7, false) == d;
    assert Redone(log, 0, 5, d, 7, false) == Page(5, [5]) && Redone(log, 0, 6, d, 7, false) == Page(5, [5]);
    assert Redone(log, 0, 7, d, 7, false) == Page(5, [5]) && Redone(log, 0, 8, d, 7, false) == Page(5, [5]);
  }

  // ── a flush that tests nothing ─────────────────────────────────────────────

  lemma BlindNext(s: State)
    requires s == AfterImage(START.(phase := Synced, log := [Begin(1)], open' := {1}), 1, 7)
    ensures Next(s, FlushAll).Some? && PageAt(Next(s, FlushAll).value.disk, 7) == Page(2, [2])
    ensures Next(s, FlushAll).value.durable == 0
  {
  }

  /** A checkpoint starts on an empty log and meets the first write. */
  lemma FirstCheckpointCanBreakWal()
    ensures var run := Run(START, [StartCheckpoint, DoBegin(1)] + [LogImage(1, 7), Finish(7)] + [FlushAll]);
            run.Some? && PageAt(run.value.disk, 7) == Page(2, [2]) && run.value.durable == 0
  {
    var s1 := START.(phase := Synced);
    var s2 := s1.(log := [Begin(1)], open' := {1});
    var s3 := AfterImage(s2, 1, 7);
    assert Next(START, StartCheckpoint) == Some(s1) && Next(s1, DoBegin(1)) == Some(s2) by {
      assert s1.log + [Begin(1)] == [Begin(1)] && s1.open' + {1} == {1};
    }
    var a, b := [StartCheckpoint, DoBegin(1)], [LogImage(1, 7), Finish(7)];
    hide Next;
    hide Run;
    hide Sighted;
    RunPath([START, s1, s2], a);
    ImageOne(s2, 1, 7);
    RunSplit(START, a, b);
    BlindNext(s3);
    RunOne(s3, FlushAll);
    RunThen(START, a + b, [FlushAll]);
  }

  lemma RunOne(s: State, a: Action)
    ensures Run(s, [a]) == Next(s, a)
  {
    hide Next;
    if Next(s, a).Some? { assert [a][1..] == []; }
  }

  lemma {:induction false} RunThen(s: State, a: seq<Action>, b: seq<Action>)
    requires Run(s, a).Some?
    ensures Run(s, a + b) == Run(Run(s, a).value, b)
    decreases |a|
  {
    hide Next;
    if a == [] {
      assert a + b == b;
    } else {
      assert (a + b)[1..] == a[1..] + b;
      RunThen(Next(s, a[0]).value, a[1..], b);
    }
  }
}
