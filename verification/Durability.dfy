/**
  Steal / no-force durability: pages change in memory, reach disk only behind the
  durable log, and are rebuilt from disk and log after a crash at any point.

  Record `i` of the log has LSN `i + 1`. A page is its LSN and the records that make it
  up: the last whole-page image written and the leaf inserts since. Memory is the
  mapped page file, which keeps every page; a frame only says whether it is dirty.
 */
module Durability {
  import opened Keys

  type Lsn = nat
  type Txn = nat

  datatype Page = Page(lsn: Lsn, made: seq<Lsn>)

  /** A page nobody has written. */
  const BLANK := Page(0, [])

  /** `Image` is `WAL_INDEX`, `Insert` is `WAL_INDEX_INSERT`, `Fpi` the full-page image taken before a first change. */
  datatype Record =
    | Begin(t: Txn)
    | Commit(t: Txn)
    | Image(t: Txn, p: PageId)
    | Insert(t: Txn, p: PageId)
    | Fpi(t: Txn, p: PageId, page: Page)
    | Checkpoint

  type Log = seq<Record>
  type Pages = map<PageId, Page>

  function PageAt(pages: Pages, p: PageId): Page {
    if p in pages then pages[p] else BLANK
  }

  /** The record changes page `p`. */
  predicate Changes(r: Record, p: PageId) {
    (r.Image? || r.Insert?) && r.p == p
  }

  /** The record holds a whole image of page `p`. */
  predicate Whole(r: Record, p: PageId) {
    (r.Image? || r.Fpi?) && r.p == p
  }

  predicate OnPage(r: Record, p: PageId) {
    (r.Image? || r.Insert? || r.Fpi?) && r.p == p
  }

  /** Page `p` after the first `n` records. */
  function At(log: Log, n: nat, p: PageId): Page
    requires n <= |log|
  {
    if n == 0 then BLANK
    else
      var page := At(log, n - 1, p);
      match log[n - 1]
      case Image(_, q) => if q == p then Page(n, [n]) else page
      case Insert(_, q) => if q == p then Page(n, page.made + [n]) else page
      case _ => page
  }

  // ── the machine ────────────────────────────────────────────────────────────

  /**
    Where a checkpoint stands; writers go on meanwhile. `at` is the length of the log when
    its flush ran, `missed` the LSNs that were logged then and not yet applied to their pages.
   */
  datatype Phase =
    | Running
    | Synced
    | Flushed(at: nat, missed: set<Lsn>)
    | Cleared(at: nat, missed: set<Lsn>)
    | Logged(at: nat, missed: set<Lsn>, lsn: Lsn)
    | Pointed

  /** Record `at` of a page is logged, and mini-transaction `t` has yet to do what it says. */
  datatype Todo = Todo(t: Txn, at: nat)

  /**
    `fpi` are the pages under image tracking, each with the record that put it there.
    `open'` are the mini-transactions that have begun and not committed; `armed` says for
    which leaf one of them has called `maybe_log_fpi` without having logged its insert yet.
    `swept` and `missed` are what the flush of the checkpoint `ckpt` saw, and `born` is the
    length of the log when the system was opened: mini-transactions are numbered from 1 again.
   */
  datatype State = State(
    log: Log,
    durable: nat,
    mem: Pages,
    disk: Pages,
    dirty: set<PageId>,
    fpi: map<PageId, nat>,
    clear: nat,
    ckpt: Lsn,
    swept: nat,
    missed: set<Lsn>,
    floor: Lsn,
    born: nat,
    phase: Phase,
    open': set<Txn>,
    armed: map<Txn, PageId>,
    todo: map<PageId, Todo>)

  datatype Action =
    | DoBegin(t: Txn)
    | DoCommit(t: Txn)
    | LogImage(t: Txn, p: PageId)
    | MaybeFpi(t: Txn, p: PageId)
    | LogInsert(t: Txn, p: PageId)
    | Finish(p: PageId)
    | Sync
    | Steal(p: PageId)
    | StartCheckpoint
    | FlushAll
    | GiveUp
    | ClearFpi
    | LogCheckpoint
    | PointControl
    | Truncate(retain: Lsn)

  predicate HasFlushed(phase: Phase) {
    phase.Flushed? || phase.Cleared? || phase.Logged?
  }

  predicate Busy(s: State, t: Txn) {
    exists p :: p in s.todo && s.todo[p].t == t
  }

  /** Another writer has the page's latch. */
  predicate Latched(s: State, t: Txn, p: PageId) {
    p in s.todo || exists u :: u in s.armed && u != t && s.armed[u] == p
  }

  predicate Free(s: State, t: Txn, p: PageId) {
    t in s.open' && t !in s.armed && !Busy(s, t) && !Latched(s, t, p)
  }

  /** Log a record of a page; its effect is still to come. */
  function Append(s: State, r: Record): State
    requires r.Image? || r.Insert? || r.Fpi?
  {
    s.(log := s.log + [r], todo := s.todo[r.p := Todo(r.t, |s.log|)])
  }

  /** What a page becomes by record `at`, which is about it. */
  function Applied(r: Record, at: nat, page: Page): Page {
    match r
    case Image(_, _) => Page(at + 1, [at + 1])
    case Insert(_, _) => Page(at + 1, page.made + [at + 1])
    case _ => page
  }

  /** Write the page in memory and mark it dirty, or arm the insert; track the page if it has an image now. */
  function Done(s: State, p: PageId, r: Record, d: Todo): State {
    var s' := s.(todo := s.todo - {p}, fpi := if r.Insert? then s.fpi else s.fpi[p := d.at]);
    if r.Fpi? then s'.(armed := s.armed[d.t := p])
    else s'.(mem := s.mem[p := Applied(r, d.at, PageAt(s.mem, p))], dirty := s.dirty + {p})
  }

  function Next(s: State, a: Action): Option<State> {
    match a
    case DoBegin(t) =>
      if s.born <= |s.log| && Begin(t) in s.log[s.born..] then None
      else Some(s.(log := s.log + [Begin(t)], open' := s.open' + {t}))
    case DoCommit(t) =>
      if t !in s.open' || t in s.armed || Busy(s, t) then None
      else Some(s.(log := s.log + [Commit(t)], open' := s.open' - {t}))
    case LogImage(t, p) => if Free(s, t, p) then Some(Append(s, Image(t, p))) else None
    case MaybeFpi(t, p) =>
      // the caller has read page `p` as a leaf, so some image was written to it before
      if !Free(s, t, p) || PageAt(s.mem, p).made == [] then None
      else if p in s.fpi then Some(s.(armed := s.armed[t := p]))
      else Some(Append(s, Fpi(t, p, PageAt(s.mem, p))))
    case LogInsert(t, p) =>
      if t !in s.armed || s.armed[t] != p || p in s.todo then None
      else Some(Append(s, Insert(t, p)).(armed := s.armed - {t}))
    case Finish(p) =>
      if p in s.todo && s.todo[p].at < |s.log| then Some(Done(s, p, s.log[s.todo[p].at], s.todo[p])) else None
    case Sync => Some(s.(durable := |s.log|))
    case Steal(p) =>
      if p in s.dirty && s.durable > 0 && PageAt(s.mem, p).lsn <= s.durable then
        Some(s.(disk := s.disk[p := PageAt(s.mem, p)], dirty := s.dirty - {p}))
      else None
    case StartCheckpoint => if s.phase.Running? then Some(s.(phase := Synced, durable := |s.log|)) else None
    case FlushAll =>
      // one dirty page ahead of the durable log fails the flush; a frontier of 0 switches that test off
      if s.phase.Synced? && (s.durable == 0 || forall p :: p in s.dirty ==> PageAt(s.mem, p).lsn <= s.durable) then
        Some(s.(phase := Flushed(|s.log|, Pending(s)),
                disk := s.disk + (map p | p in s.dirty :: PageAt(s.mem, p)), dirty := {}))
      else None
    case GiveUp => if s.phase.Synced? then Some(s.(phase := Running)) else None
    case ClearFpi =>
      if s.phase.Flushed? then
        Some(s.(phase := Cleared(s.phase.at, s.phase.missed), fpi := map[], clear := |s.log|))
      else None
    case LogCheckpoint =>
      if s.phase.Cleared? then
        Some(s.(phase := Logged(s.phase.at, s.phase.missed, |s.log| + 1), log := s.log + [Record.Checkpoint],
                durable := |s.log| + 1))
      else None
    case PointControl =>
      if s.phase.Logged? then
        Some(s.(phase := Pointed, ckpt := s.phase.lsn, swept := s.phase.at, missed := s.phase.missed))
      else None
    case Truncate(retain) =>
      if s.phase.Pointed? then
        var to := if retain < s.ckpt then retain else s.ckpt;
        Some(s.(phase := Running, floor := if s.floor < to then to else s.floor))
      else None
  }

  /** The LSNs that are logged and not yet applied. */
  function Pending(s: State): set<Lsn> {
    set p | p in s.todo :: s.todo[p].at + 1
  }

  // ── recovery ───────────────────────────────────────────────────────────────

  predicate Committed(log: Log, from: nat, t: Txn) {
    exists i :: from <= i < |log| && log[i] == Commit(t)
  }

  /**
    What redo of record `n - 1` does to page `p`, if that record is to be redone. Redo of a
    logical insert fails, and is skipped, on a page that holds no node.
   */
  function RedoOne(log: Log, n: nat, p: PageId, page: Page): Page
    requires 0 < n <= |log|
  {
    match log[n - 1]
    case Image(_, q) => if q == p then Page(n, [n]) else page
    case Fpi(_, q, image) => if q == p then image else page
    case Insert(_, q) => if q == p && page.lsn < n && page.made != [] then Page(n, page.made + [n]) else page
    case _ => page
  }

  function TxnOf(r: Record): Option<Txn> {
    match r
    case Image(t, _) => Some(t)
    case Insert(t, _) => Some(t)
    case Fpi(t, _, _) => Some(t)
    case _ => None
  }

  /** Records of committed mini-transactions only, as the redo pass has it; or all records. */
  predicate Selected(log: Log, from: nat, n: nat, all: bool)
    requires 0 < n <= |log|
  {
    all || (TxnOf(log[n - 1]).Some? && Committed(log, from, TxnOf(log[n - 1]).value))
  }

  /** Page `p` after redoing records `from..n` on what is on disk. */
  function Redone(log: Log, from: nat, n: nat, disk: Page, p: PageId, all: bool): Page
    requires from <= n <= |log|
    decreases n
  {
    if n == from then disk
    else
      var page := Redone(log, from, n - 1, disk, p, all);
      if Selected(log, from, n, all) then RedoOne(log, n, p, page) else page
  }

  /** The records recovery looks at start here: at the checkpoint record, or at the beginning. */
  function From(ckpt: Lsn): nat {
    if ckpt == 0 then 0 else ckpt - 1
  }

  /** A crash loses memory and possibly records that were not durable yet. */
  predicate Survives(s: State, log: Log) {
    s.durable <= |log| <= |s.log| && log == s.log[..|log|]
  }

  function Recovered(s: State, log: Log, p: PageId, all: bool): Page
    requires From(s.ckpt) <= |log|
  {
    Redone(log, From(s.ckpt), |log|, PageAt(s.disk, p), p, all)
  }

  // ── page states along the log ──────────────────────────────────────────────

  lemma {:induction false} AtPrefix(log: Log, log': Log, n: nat, p: PageId)
    requires n <= |log| && n <= |log'| && log[..n] == log'[..n]
    ensures At(log, n, p) == At(log', n, p)
  {
    if n > 0 {
      assert log[..n][..n - 1] == log'[..n][..n - 1];
      assert log[..n - 1] == log'[..n - 1];
      AtPrefix(log, log', n - 1, p);
      assert log[..n][n - 1] == log'[..n][n - 1];
    }
  }

  lemma {:induction false} AtBound(log: Log, n: nat, p: PageId)
    requires n <= |log|
    ensures At(log, n, p).lsn <= n
  {
    if n > 0 { AtBound(log, n - 1, p); }
  }

  lemma {:induction false} AtMono(log: Log, n: nat, m: nat, p: PageId)
    requires n <= m <= |log|
    ensures At(log, n, p).lsn <= At(log, m, p).lsn
    decreases m
  {
    AtBound(log, n, p);
    if n < m { AtMono(log, n, m - 1, p); AtBound(log, m - 1, p); }
  }

  /** A page state is reached at its own LSN and stays until the next change. */
  lemma {:induction false} AtOwnLsn(log: Log, n: nat, p: PageId)
    requires n <= |log|
    ensures At(log, n, p).lsn <= n && At(log, At(log, n, p).lsn, p) == At(log, n, p)
  {
    AtBound(log, n, p);
    if n > 0 && !Changes(log[n - 1], p) { AtOwnLsn(log, n - 1, p); }
  }

  // ── the invariant ──────────────────────────────────────────────────────────

  predicate WholeFrom(log: Log, from: nat, to: nat, p: PageId) {
    exists i :: from <= i < to && i < |log| && Whole(log[i], p)
  }

  ghost predicate NoneSince(log: Log, n: nat, p: PageId) {
    forall j :: n <= j < |log| ==> !OnPage(log[j], p)
  }

  /** What is still to be done to a page is its last record, of an open mini-transaction. */
  ghost predicate TodoOk(s: State, p: PageId) {
    p in s.todo ==>
      && s.todo[p].at < |s.log| && OnPage(s.log[s.todo[p].at], p)
      && NoneSince(s.log, s.todo[p].at + 1, p)
      && s.log[s.todo[p].at].t == s.todo[p].t && s.todo[p].t in s.open'
      && (s.log[s.todo[p].at].Fpi? ==> PageAt(s.mem, p).made != [])
  }

  function Seen(s: State, p: PageId): nat {
    if p in s.todo then s.todo[p].at else |s.log|
  }

  /** The page in memory is what the log makes of it, up to what is still to be done. */
  ghost predicate MemOk(s: State, p: PageId) {
    Seen(s, p) <= |s.log| && PageAt(s.mem, p) == At(s.log, Seen(s, p), p)
  }

  /** The page on disk is what a durable prefix of the log makes of it. */
  ghost predicate DiskOk(s: State, p: PageId) {
    var d := PageAt(s.disk, p);
    && d.lsn <= s.durable <= |s.log| && d == At(s.log, d.lsn, p)
    && (p !in s.dirty ==> d == PageAt(s.mem, p))
    && (p in s.dirty ==> d.lsn <= PageAt(s.mem, p).lsn && 0 < PageAt(s.mem, p).lsn)
  }

  /** Every change logged before `n` is on disk, except those the flush missed. */
  ghost predicate SweptOk(s: State, n: nat, missed: set<Lsn>, p: PageId) {
    n <= |s.log| && forall j :: 0 <= j < n && Changes(s.log[j], p) ==> j < PageAt(s.disk, p).lsn || j + 1 in missed
  }

  /** A page has a whole image since tracking was cleared exactly if tracking says so or is about to. */
  ghost predicate FpiOk(s: State, p: PageId) {
    && (p in s.fpi ==> s.fpi[p] < |s.log| && Whole(s.log[s.fpi[p]], p))
    && (WholeFrom(s.log, s.clear, |s.log|, p) <==> Imaged(s, p) || ToImage(s, p))
  }

  predicate Imaged(s: State, p: PageId) {
    p in s.fpi && s.clear <= s.fpi[p]
  }

  predicate ToImage(s: State, p: PageId) {
    p in s.todo && s.clear <= s.todo[p].at < |s.log| && Whole(s.log[s.todo[p].at], p)
  }

  /** A logical insert goes to a node; a full-page image is true and logged once since tracking was cleared. */
  ghost predicate RecordOk(s: State, j: nat) {
    j < |s.log| &&
    match s.log[j]
    case Insert(_, p) => At(s.log, j, p).made != []
    case Fpi(_, p, page) => page == At(s.log, j, p) && (s.clear <= j ==> !WholeFrom(s.log, s.clear, j, p))
    case _ => true
  }

  ghost predicate PhaseOk(s: State) {
    && s.ckpt <= s.durable <= |s.log| && s.swept <= From(s.ckpt) && s.clear <= |s.log| && s.floor <= s.ckpt
    && (HasFlushed(s.phase) ==> s.phase.at <= |s.log|)
    && (s.phase.Logged? ==> s.phase.at < s.phase.lsn <= s.durable && s.ckpt < s.phase.lsn)
  }

  ghost predicate PageOk(s: State, p: PageId) {
    && TodoOk(s, p) && MemOk(s, p) && DiskOk(s, p) && FpiOk(s, p)
    && SweptOk(s, s.swept, s.missed, p) && (HasFlushed(s.phase) ==> SweptOk(s, s.phase.at, s.phase.missed, p))
  }

  /** A mini-transaction about to log an insert has read a node. */
  ghost predicate TxnsOk(s: State) {
    forall t :: t in s.armed ==> t in s.open' && PageAt(s.mem, s.armed[t]).made != []
  }

  ghost predicate Inv(s: State) {
    && PhaseOk(s) && TxnsOk(s)
    && (forall p {:trigger PageOk(s, p)} :: PageOk(s, p))
    && (forall j {:trigger RecordOk(s, j)} :: 0 <= j < |s.log| ==> RecordOk(s, j))
  }

  /** An empty log and empty files. */
  const START := State([], 0, map[], map[], {}, map[], 0, 0, 0, {}, 0, 0, Running, {}, map[], map[])

  lemma StartOk()
    ensures Inv(START)
  {
    forall p ensures PageOk(START, p) {
    }
  }

  // ── every step keeps it ────────────────────────────────────────────────────

  lemma WholePrefix(log: Log, r: Record, from: nat, to: nat, p: PageId)
    requires to <= |log|
    ensures WholeFrom(log + [r], from, to, p) <==> WholeFrom(log, from, to, p)
  {
    if i :| from <= i < to && i < |log| && Whole(log[i], p) { assert (log + [r])[i] == log[i]; }
    if i :| from <= i < to && i < |log + [r]| && Whole((log + [r])[i], p) { assert (log + [r])[i] == log[i]; }
  }

  lemma WholeNext(log: Log, r: Record, from: nat, p: PageId)
    requires from <= |log|
    ensures WholeFrom(log + [r], from, |log| + 1, p) <==> WholeFrom(log, from, |log|, p) || Whole(r, p)
  {
    var log' := log + [r];
    WholePrefix(log, r, from, |log|, p);
    if i :| from <= i < |log| + 1 && i < |log'| && Whole(log'[i], p) {
      if i < |log| { assert WholeFrom(log', from, |log|, p); } else { assert log'[i] == r; }
    }
    if Whole(r, p) { assert Whole(log'[|log|], p); }
  }

  lemma AtAppend(log: Log, r: Record, n: nat, p: PageId)
    requires n <= |log|
    ensures At(log + [r], n, p) == At(log, n, p)
  {
    assert (log + [r])[..n] == log[..n];
    AtPrefix(log + [r], log, n, p);
  }

  /** Appending a record leaves what earlier records say as it was. */
  lemma RecordKept(s: State, s': State, r: Record, j: nat)
    requires RecordOk(s, j) && s'.log == s.log + [r] && s'.clear == s.clear
    ensures RecordOk(s', j)
  {
    assert s'.log[j] == s.log[j];
    match s.log[j]
    case Insert(_, p) => WholePrefix(s.log, r, s.clear, j, p); AtAppend(s.log, r, j, p);
    case Fpi(_, p, _) => WholePrefix(s.log, r, s.clear, j, p); AtAppend(s.log, r, j, p);
    case _ =>
  }

  /** A page no record was about since then is as it was then. */
  lemma {:induction false} AtStays(log: Log, n: nat, m: nat, p: PageId)
    requires n <= m <= |log| && NoneSince(log, n, p)
    ensures At(log, m, p) == At(log, n, p)
    decreases m
  {
    if n < m {
      AtStays(log, n, m - 1, p);
      assert !OnPage(log[m - 1], p);
    }
  }

  lemma SweptKept(s: State, s': State, r: Record, n: nat, missed: set<Lsn>, p: PageId)
    requires SweptOk(s, n, missed, p) && s'.log == s.log + [r] && PageAt(s'.disk, p) == PageAt(s.disk, p)
    ensures SweptOk(s', n, missed, p)
  {
    forall j | 0 <= j < n && Changes(s'.log[j], p) ensures j < PageAt(s'.disk, p).lsn || j + 1 in missed {
      assert s'.log[j] == s.log[j];
    }
  }

  /** The disk side of a page survives any append. */
  lemma DiskKept(s: State, s': State, r: Record, p: PageId)
    requires PageOk(s, p) && PhaseOk(s) && s'.log == s.log + [r] && s.durable <= s'.durable <= |s'.log|
    requires s'.disk == s.disk && s'.mem == s.mem && s'.dirty == s.dirty && s'.swept == s.swept && s'.missed == s.missed
    requires SamePhase(s, s')
    ensures DiskOk(s', p) && SweptOk(s', s'.swept, s'.missed, p)
    ensures HasFlushed(s'.phase) ==> SweptOk(s', s'.phase.at, s'.phase.missed, p)
  {
    AtAppend(s.log, r, PageAt(s.disk, p).lsn, p);
    SweptKept(s, s', r, s.swept, s.missed, p);
    if HasFlushed(s'.phase) { SweptKept(s, s', r, s.phase.at, s.phase.missed, p); }
  }

  /** The checkpoint is where it was, or one step on from its flush. */
  predicate SamePhase(s: State, s': State) {
    HasFlushed(s'.phase) ==> HasFlushed(s.phase) && s'.phase.at == s.phase.at && s'.phase.missed == s.phase.missed
  }

  lemma InvIntro(s: State)
    requires PhaseOk(s) && TxnsOk(s) && (forall p :: PageOk(s, p)) && (forall j :: 0 <= j < |s.log| ==> RecordOk(s, j))
    ensures Inv(s)
  {
    hide PageOk;
    hide RecordOk;
    hide PhaseOk;
    hide TxnsOk;
  }

  lemma InvPage(s: State, p: PageId)
    requires Inv(s)
    ensures PhaseOk(s) && PageOk(s, p) && TxnsOk(s)
  {
    hide PageOk;
    hide RecordOk;
    hide PhaseOk;
  }

  lemma InvRecord(s: State, j: nat)
    requires Inv(s) && j < |s.log|
    ensures RecordOk(s, j)
  {
    hide PageOk;
    hide RecordOk;
    hide PhaseOk;
  }

  /** Records that touch no page: of begin, commit and checkpoint. */
  lemma PlainStep(s: State, s': State, r: Record)
    requires Inv(s) && (r.Begin? || r.Commit? || r == Record.Checkpoint) && TxnsOk(s') && PhaseOk(s')
    requires s' == s.(log := s.log + [r], open' := s'.open', durable := s'.durable, phase := s'.phase)
    requires s.durable <= s'.durable && SamePhase(s, s') && forall p :: p in s.todo ==> s.todo[p].t in s'.open'
    ensures Inv(s')
  {
    hide Inv;
    forall p ensures PageOk(s', p) {
      InvPage(s, p);
      PlainPage(s, s', r, p);
    }
    forall j | 0 <= j < |s'.log| ensures RecordOk(s', j) {
      if j < |s.log| { InvRecord(s, j); RecordKept(s, s', r, j); }
    }
    InvIntro(s');
  }

  lemma NoneNext(log: Log, r: Record, n: nat, p: PageId)
    requires NoneSince(log, n, p) && !OnPage(r, p) && n <= |log|
    ensures NoneSince(log + [r], n, p)
  {
    forall j | n <= j < |log + [r]| ensures !OnPage((log + [r])[j], p) {
      if j < |log| { assert (log + [r])[j] == log[j]; }
    }
  }

  /** A record that is not about a page leaves what is known of the page. */
  lemma OtherPage(s: State, s': State, r: Record, p: PageId)
    requires PhaseOk(s) && PageOk(s, p) && !OnPage(r, p) && PhaseOk(s') && SamePhase(s, s') && s.durable <= s'.durable
    requires s'.log == s.log + [r] && s'.mem == s.mem && s'.disk == s.disk && s'.dirty == s.dirty && s'.fpi == s.fpi
    requires s'.clear == s.clear && s'.swept == s.swept && s'.missed == s.missed
    requires p in s'.todo <==> p in s.todo
    requires p in s.todo ==> s'.todo[p] == s.todo[p] && s.todo[p].t in s'.open'
    ensures PageOk(s', p)
  {
    DiskKept(s, s', r, p);
    AtAppend(s.log, r, Seen(s, p), p);
    AtAppend(s.log, r, |s.log|, p);
    WholeNext(s.log, r, s.clear, p);
    if p in s.todo {
      NoneNext(s.log, r, s.todo[p].at + 1, p);
      assert s'.log[s.todo[p].at] == s.log[s.todo[p].at];
    }
    if p in s.fpi { assert s'.log[s.fpi[p]] == s.log[s.fpi[p]]; }
    hide WholeFrom;
    hide NoneSince;
    hide SweptOk;
  }

  lemma PlainPage(s: State, s': State, r: Record, p: PageId)
    requires PhaseOk(s) && PageOk(s, p) && (r.Begin? || r.Commit? || r == Record.Checkpoint) && PhaseOk(s')
    requires s' == s.(log := s.log + [r], open' := s'.open', durable := s'.durable, phase := s'.phase)
    requires s.durable <= s'.durable && SamePhase(s, s') && (p in s.todo ==> s.todo[p].t in s'.open')
    ensures PageOk(s', p)
  {
    OtherPage(s, s', r, p);
  }

  /** A record about a page is logged. */
  lemma AppendStep(s: State, s': State, r: Record)
    requires Inv(s) && (r.Image? || r.Insert? || r.Fpi?) && r.p !in s.todo && r.t in s.open' && TxnsOk(s')
    requires !r.Image? ==> PageAt(s.mem, r.p).made != []
    requires r.Fpi? ==> r.page == PageAt(s.mem, r.p) && r.p !in s.fpi
    requires s' == Append(s, r).(armed := s'.armed)
    ensures Inv(s')
  {
    hide Inv;
    InvPage(s, r.p);
    forall p ensures PageOk(s', p) {
      InvPage(s, p);
      if p == r.p { AppendPage(s, s', r); } else { OtherPage(s, s', r, p); }
    }
    forall j | 0 <= j < |s'.log| ensures RecordOk(s', j) {
      if j < |s.log| { InvRecord(s, j); RecordKept(s, s', r, j); }
      else {
        AtAppend(s.log, r, |s.log|, r.p);
        WholePrefix(s.log, r, s.clear, |s.log|, r.p);
      }
    }
    InvIntro(s');
  }

  lemma AppendPage(s: State, s': State, r: Record)
    requires PhaseOk(s) && (r.Image? || r.Insert? || r.Fpi?) && PageOk(s, r.p) && r.p !in s.todo && r.t in s.open'
    requires r.Fpi? ==> PageAt(s.mem, r.p).made != []
    requires s' == Append(s, r).(armed := s'.armed)
    ensures PageOk(s', r.p)
  {
    DiskKept(s, s', r, r.p);
    AtAppend(s.log, r, |s.log|, r.p);
    WholeNext(s.log, r, s.clear, r.p);
    if r.p in s.fpi { assert s'.log[s.fpi[r.p]] == s.log[s.fpi[r.p]]; }
    hide WholeFrom;
    hide SweptOk;
  }

  /** What a logged record says is done. */
  lemma DoneStep(s: State, s': State, q: PageId)
    requires Inv(s) && q in s.todo && Next(s, Finish(q)) == Some(s') && TxnsOk(s')
    ensures Inv(s')
  {
    hide Inv;
    InvPage(s, q);
    forall p ensures PageOk(s', p) {
      InvPage(s, p);
      if p == q { DonePage(s, s', p); } else { DoneElsewhere(s, s', q, p); }
    }
    forall j | 0 <= j < |s'.log| ensures RecordOk(s', j) {
      InvRecord(s, j);
    }
    InvIntro(s');
  }

  lemma SweptMore(s: State, s': State, n: nat, missed: set<Lsn>, p: PageId)
    requires SweptOk(s, n, missed, p) && s'.log == s.log && PageAt(s.disk, p).lsn <= PageAt(s'.disk, p).lsn
    ensures SweptOk(s', n, missed, p)
  {
  }

  lemma DoneMem(s: State, s': State, p: PageId)
    requires PhaseOk(s) && TodoOk(s, p) && MemOk(s, p) && DiskOk(s, p) && p in s.todo && Next(s, Finish(p)) == Some(s')
    ensures MemOk(s', p) && DiskOk(s', p)
  {
    var at := s.todo[p].at;
    AtStays(s.log, at + 1, |s.log|, p);
    AtBound(s.log, at, p);
    hide NoneSince;
    assert At(s.log, at + 1, p) == Applied(s.log[at], at, At(s.log, at, p));
    assert PageAt(s'.mem, p) == Applied(s.log[at], at, PageAt(s.mem, p));
  }

  lemma DoneFpi(s: State, s': State, p: PageId)
    requires PhaseOk(s) && TodoOk(s, p) && FpiOk(s, p) && p in s.todo && Next(s, Finish(p)) == Some(s')
    ensures FpiOk(s', p)
  {
    var at := s.todo[p].at;
    assert p in s.fpi && at < s.fpi[p] ==> !OnPage(s.log[s.fpi[p]], p);
    hide WholeFrom;
    hide NoneSince;
  }

  lemma DonePage(s: State, s': State, p: PageId)
    requires PhaseOk(s) && PageOk(s, p) && p in s.todo && Next(s, Finish(p)) == Some(s')
    ensures PageOk(s', p)
  {
    DoneMem(s, s', p);
    DoneFpi(s, s', p);
    assert s'.log == s.log && s'.disk == s.disk && p !in s'.todo && s'.phase == s.phase;
    assert s'.swept == s.swept && s'.missed == s.missed;
    hide Next;
    SweptMore(s, s', s.swept, s.missed, p);
    if HasFlushed(s.phase) { SweptMore(s, s', s.phase.at, s.phase.missed, p); }
    hide MemOk;
    hide DiskOk;
    hide FpiOk;
    hide SweptOk;
    hide NoneSince;
  }

  /** A page that a step leaves alone. */
  lemma PageKept(s: State, s': State, p: PageId)
    requires PageOk(s, p) && PhaseOk(s') && s'.log == s.log && s'.clear == s.clear && s'.open' == s.open'
    requires PageAt(s'.mem, p) == PageAt(s.mem, p) && PageAt(s'.disk, p) == PageAt(s.disk, p) && s.durable <= s'.durable
    requires (p in s'.dirty <==> p in s.dirty) && (p in s'.fpi <==> p in s.fpi) && (p in s'.todo <==> p in s.todo)
    requires (p in s.fpi ==> s'.fpi[p] == s.fpi[p]) && (p in s.todo ==> s'.todo[p] == s.todo[p])
    requires SamePhase(s, s')
    requires || (s'.swept == s.swept && s'.missed == s.missed)
             || (HasFlushed(s.phase) && s'.swept == s.phase.at && s'.missed == s.phase.missed)
    ensures PageOk(s', p)
  {
    SweptMore(s, s', s.swept, s.missed, p);
    if HasFlushed(s.phase) { SweptMore(s, s', s.phase.at, s.phase.missed, p); }
    hide WholeFrom;
    hide NoneSince;
    hide SweptOk;
  }

  lemma DoneElsewhere(s: State, s': State, q: PageId, p: PageId)
    requires PhaseOk(s) && PageOk(s, p) && p != q && q in s.todo && Next(s, Finish(q)) == Some(s')
    ensures PageOk(s', p)
  {
    hide PageOk;
    PageKept(s, s', p);
  }

  /** Finishing keeps what armed mini-transactions rely on. */
  lemma DoneArms(s: State, s': State, q: PageId)
    requires TxnsOk(s) && TodoOk(s, q) && q in s.todo && Next(s, Finish(q)) == Some(s')
    ensures TxnsOk(s')
  {
  }

  /**
    Every change before this point is on disk if the page on disk is as far as memory, except
    what is still to be done.
   */
  lemma SweptNow(s: State, s': State, p: PageId)
    requires PageOk(s, p) && s'.log == s.log && PageAt(s'.disk, p) == PageAt(s.mem, p)
    ensures SweptOk(s', |s.log|, Pending(s), p)
  {
    forall j | 0 <= j < |s.log| && Changes(s.log[j], p) ensures j < PageAt(s'.disk, p).lsn || j + 1 in Pending(s) {
      if p in s.todo && s.todo[p].at <= j {
        assert !(s.todo[p].at + 1 <= j) || !OnPage(s.log[j], p);
        assert j + 1 == s.todo[p].at + 1;
      } else {
        AtMono(s.log, j + 1, Seen(s, p), p);
      }
    }
  }

  /** Dirty pages at or behind the durable log go to disk. */
  lemma WriteBackStep(s: State, s': State, out: set<PageId>)
    requires Inv(s) && out <= s.dirty && (forall p :: p in out ==> PageAt(s.mem, p).lsn <= s.durable)
    requires s' == s.(disk := s'.disk, dirty := s.dirty - out, phase := s'.phase) && PhaseOk(s')
    requires forall p :: PageAt(s'.disk, p) == if p in out then PageAt(s.mem, p) else PageAt(s.disk, p)
    requires s'.phase == s.phase || (s'.phase == Flushed(|s.log|, Pending(s)) && s'.dirty == {})
    ensures Inv(s')
  {
    hide Inv;
    forall p ensures PageOk(s', p) {
      InvPage(s, p);
      WriteBackPage(s, s', out, p);
    }
    forall j | 0 <= j < |s'.log| ensures RecordOk(s', j) {
      InvRecord(s, j);
    }
    InvPage(s, 0);
    InvIntro(s');
  }

  lemma WriteBackPage(s: State, s': State, out: set<PageId>, p: PageId)
    requires PhaseOk(s) && PageOk(s, p) && out <= s.dirty && (p in out ==> PageAt(s.mem, p).lsn <= s.durable)
    requires s' == s.(disk := s'.disk, dirty := s.dirty - out, phase := s'.phase) && PhaseOk(s')
    requires PageAt(s'.disk, p) == if p in out then PageAt(s.mem, p) else PageAt(s.disk, p)
    requires s'.phase == s.phase || (s'.phase == Flushed(|s.log|, Pending(s)) && s'.dirty == {})
    ensures PageOk(s', p)
  {
    AtOwnLsn(s.log, Seen(s, p), p);
    assert p in s'.dirty <==> p in s.dirty && p !in out;
    SweptMore(s, s', s.swept, s.missed, p);
    if s'.phase == s.phase {
      if HasFlushed(s.phase) { SweptMore(s, s', s.phase.at, s.phase.missed, p); }
    } else {
      SweptNow(s, s', p);
    }
    hide WholeFrom;
    hide NoneSince;
    hide SweptOk;
  }

  /** Steps that change neither log, memory nor disk. */
  lemma QuietStep(s: State, s': State)
    requires Inv(s) && s'.log == s.log && s'.mem == s.mem && s'.disk == s.disk && s'.dirty == s.dirty
    requires s'.fpi == s.fpi && s'.clear == s.clear && s'.todo == s.todo && s'.open' == s.open'
    requires s.durable <= s'.durable
    requires PhaseOk(s') && TxnsOk(s') && SamePhase(s, s')
    requires || (s'.swept == s.swept && s'.missed == s.missed)
             || (HasFlushed(s.phase) && s'.swept == s.phase.at && s'.missed == s.phase.missed)
    ensures Inv(s')
  {
    hide Inv;
    forall p ensures PageOk(s', p) {
      InvPage(s, p);
      PageKept(s, s', p);
    }
    forall j | 0 <= j < |s'.log| ensures RecordOk(s', j) {
      InvRecord(s, j);
    }
    InvIntro(s');
  }

  /** Image tracking starts a new interval. */
  lemma ClearStep(s: State, s': State)
    requires Inv(s) && Next(s, ClearFpi) == Some(s')
    ensures Inv(s')
  {
    hide Inv;
    forall p ensures PageOk(s', p) {
      InvPage(s, p);
      hide NoneSince;
      hide SweptOk;
    }
    forall j | 0 <= j < |s'.log| ensures RecordOk(s', j) {
      InvRecord(s, j);
    }
    InvPage(s, 0);
    InvIntro(s');
  }

  /** The flush that tests nothing, because no record was durable when it read the log's frontier. */
  predicate Blind(s: State, a: Action) {
    a.FlushAll? && s.durable == 0 && s.dirty != {}
  }

  /** Such a flush puts a page on disk that the durable log does not have. */
  lemma BlindBreaks(s: State, s': State)
    requires Inv(s) && Blind(s, FlushAll) && Next(s, FlushAll) == Some(s')
    ensures exists p :: PageAt(s'.disk, p).lsn > s'.durable
    ensures !Inv(s')
  {
    hide Inv;
    var p :| p in s.dirty;
    InvPage(s, p);
    assert PageAt(s'.disk, p).lsn > s'.durable;
    if Inv(s') { InvPage(s', p); assert false; }
  }

  lemma FlushKeeps(s: State, s': State)
    requires Inv(s) && !Blind(s, FlushAll) && Next(s, FlushAll) == Some(s')
    ensures Inv(s')
  {
    InvPage(s, 0);
    hide Inv;
    hide PageOk;
    assert s.dirty - s.dirty == {};
    WriteBackStep(s, s', s.dirty);
  }

  lemma QuietKeeps(s: State, s': State, a: Action)
    requires Inv(s) && Next(s, a) == Some(s')
    requires a.Sync? || a.StartCheckpoint? || a.GiveUp? || a.PointControl? || a.Truncate?
    ensures Inv(s')
  {
    InvPage(s, 0);
    hide Inv;
    hide PageOk;
    QuietStep(s, s');
  }

  /** Steps of a mini-transaction. */
  lemma WorkKeeps(s: State, s': State, a: Action)
    requires Inv(s) && Next(s, a) == Some(s')
    requires a.DoBegin? || a.DoCommit? || a.LogImage? || a.MaybeFpi? || a.LogInsert?
    ensures Inv(s')
  {
    InvPage(s, 0);
    hide Inv;
    match a
    case DoBegin(t) => TodoOpen(s); PlainStep(s, s', Begin(t));
    case DoCommit(t) => TodoOpen(s); PlainStep(s, s', Commit(t));
    case LogImage(t, p) => AppendStep(s, s', Image(t, p));
    case MaybeFpi(t, p) =>
      if p in s.fpi { QuietStep(s, s'); } else { AppendStep(s, s', Fpi(t, p, PageAt(s.mem, p))); }
    case LogInsert(t, p) => AppendStep(s, s', Insert(t, p));
  }

  lemma FinishKeeps(s: State, s': State, p: PageId)
    requires Inv(s) && Next(s, Finish(p)) == Some(s')
    ensures Inv(s')
  {
    InvPage(s, p);
    hide Inv;
    DoneArms(s, s', p);
    DoneStep(s, s', p);
  }

  lemma TodoOpen(s: State)
    requires Inv(s)
    ensures forall p :: p in s.todo ==> s.todo[p].t in s.open'
  {
    hide Inv;
    forall p | p in s.todo ensures s.todo[p].t in s.open' {
      InvPage(s, p);
    }
  }

  lemma StealKeeps(s: State, s': State, p: PageId)
    requires Inv(s) && Next(s, Steal(p)) == Some(s')
    ensures Inv(s')
  {
    InvPage(s, p);
    hide Inv;
    hide PageOk;
    WriteBackStep(s, s', {p});
  }

  lemma LogKeeps(s: State, s': State)
    requires Inv(s) && Next(s, LogCheckpoint) == Some(s')
    ensures Inv(s')
  {
    InvPage(s, 0);
    TodoOpen(s);
    hide Inv;
    hide PageOk;
    PlainStep(s, s', Record.Checkpoint);
  }

  /** Every step keeps the invariant, except that flush. */
  lemma StepKeeps(s: State, s': State, a: Action)
    requires Inv(s) && Next(s, a) == Some(s')
    ensures Inv(s') <==> !Blind(s, a)
  {
    hide Inv;
    hide Next;
    match a
    case Finish(p) => FinishKeeps(s, s', p);
    case Steal(p) => StealKeeps(s, s', p);
    case FlushAll => if Blind(s, a) { BlindBreaks(s, s'); } else { FlushKeeps(s, s'); }
    case ClearFpi => ClearStep(s, s');
    case LogCheckpoint => LogKeeps(s, s');
    case Sync => QuietKeeps(s, s', a);
    case StartCheckpoint => QuietKeeps(s, s', a);
    case GiveUp => QuietKeeps(s, s', a);
    case PointControl => QuietKeeps(s, s', a);
    case Truncate(_) => QuietKeeps(s, s', a);
    case _ => WorkKeeps(s, s', a);
  }

  function Run(s: State, steps: seq<Action>): Option<State>
    decreases |steps|
  {
    if steps == [] then Some(s)
    else
      match Next(s, steps[0])
      case None => None
      case Some(s') => Run(s', steps[1..])
  }

  /** No flush along the run is blind. */
  predicate Sighted(s: State, steps: seq<Action>)
    decreases |steps|
  {
    steps != [] ==>
      && !Blind(s, steps[0])
      && match Next(s, steps[0]) { case None => true case Some(s') => Sighted(s', steps[1..]) }
  }

  lemma {:induction false} RunKeeps(s: State, s': State, steps: seq<Action>)
    requires Inv(s) && Run(s, steps) == Some(s') && Sighted(s, steps)
    ensures Inv(s')
    decreases |steps|
  {
    hide Inv;
    hide Next;
    if steps != [] {
      var mid := Next(s, steps[0]).value;
      StepKeeps(s, mid, steps[0]);
      RunKeeps(mid, s', steps[1..]);
    }
  }

  // ── recovery from any crash ────────────────────────────────────────────────

  /** The full-page images of a page in the log are true, and its logical inserts go to a node. */
  ghost predicate TrueImages(log: Log, p: PageId) {
    && (forall j :: 0 <= j < |log| && log[j].Fpi? && log[j].p == p ==> log[j].page == At(log, j, p))
    && (forall j :: 0 <= j < |log| && log[j].Insert? && log[j].p == p ==> At(log, j, p).made != [])
  }

  /** What survives a crash is a log that extends the durable one and whose images are true. */
  lemma SurvivorFacts(s: State, log: Log, p: PageId)
    requires Inv(s) && Survives(s, log)
    ensures From(s.ckpt) <= |log| && TrueImages(log, p)
    ensures var d := PageAt(s.disk, p); d.lsn <= |log| && d == At(log, d.lsn, p)
    ensures forall n :: 0 <= n <= |log| ==> At(log, n, p) == At(s.log, n, p)
  {
    hide Inv;
    InvPage(s, p);
    forall n | 0 <= n <= |log| ensures At(log, n, p) == At(s.log, n, p) {
      assert log[..n] == s.log[..n];
      AtPrefix(log, s.log, n, p);
    }
    forall j | 0 <= j < |log| && (log[j].Fpi? || log[j].Insert?) && log[j].p == p
      ensures (log[j].Fpi? ==> log[j].page == At(log, j, p)) && (log[j].Insert? ==> At(log, j, p).made != [])
    {
      assert log[j] == s.log[j];
      InvRecord(s, j);
    }
  }

  // ── a checkpoint among writers ─────────────────────────────────────────────

  /**
    Some change of the page was logged before the record of the checkpoint, and not applied
    to the page in memory before its flush, and is not on disk.
   */
  ghost predicate Late(s: State, p: PageId) {
    exists j :: 0 <= j < From(s.ckpt) && j < |s.log| && Changes(s.log[j], p) && (s.swept <= j || j + 1 in s.missed)
                && PageAt(s.disk, p).lsn <= j
  }

  /** Every change of the page before this point is on disk. */
  ghost predicate Covered(s: State, from: nat, p: PageId) {
    from <= |s.log| && forall j :: 0 <= j < from && Changes(s.log[j], p) ==> j < PageAt(s.disk, p).lsn
  }

  /** What the checkpoint lets recovery skip is on disk, unless its flush missed it. */
  lemma CoveredIff(s: State, p: PageId)
    requires Inv(s)
    ensures Covered(s, From(s.ckpt), p) <==> !Late(s, p)
  {
    hide Inv;
    InvPage(s, p);
  }

  // ── images before inserts ──────────────────────────────────────────────────

  /** A mini-transaction is at one page at a time, and a page has one mini-transaction at it. */
  ghost predicate Exclusive(armed: map<Txn, PageId>, todo: map<PageId, Todo>) {
    && (forall p, q :: p in todo && q in todo && todo[p].t == todo[q].t ==> p == q)
    && (forall t, u :: t in armed && u in armed && armed[t] == armed[u] ==> t == u)
    && (forall t, p :: t in armed && p in todo ==> todo[p].t != t && armed[t] != p)
  }

  ghost predicate LatchOk(s: State) {
    Exclusive(s.armed, s.todo)
  }

  lemma ExclusiveNew(s: State, t: Txn, p: PageId, at: nat)
    requires LatchOk(s) && Free(s, t, p)
    ensures Exclusive(s.armed, s.todo[p := Todo(t, at)]) && Exclusive(s.armed[t := p], s.todo)
  {
    assert forall q :: q in s.todo ==> s.todo[q].t != t;
    assert forall u :: u in s.armed ==> s.armed[u] != p;
  }

  lemma ExclusiveTurns(armed: map<Txn, PageId>, todo: map<PageId, Todo>, p: PageId, t: Txn, at: nat)
    requires Exclusive(armed, todo)
    ensures t in armed && armed[t] == p ==> Exclusive(armed - {t}, todo[p := Todo(t, at)])
    ensures Exclusive(armed, todo - {p})
    ensures p in todo ==> Exclusive(armed[todo[p].t := p], todo - {p})
  {
  }

  lemma LatchKeeps(s: State, s': State, a: Action)
    requires LatchOk(s) && Next(s, a) == Some(s')
    ensures LatchOk(s')
  {
    match a
    case MaybeFpi(t, p) => ExclusiveNew(s, t, p, |s.log|);
    case LogImage(t, p) => ExclusiveNew(s, t, p, |s.log|);
    case LogInsert(t, p) => ExclusiveTurns(s.armed, s.todo, p, t, |s.log|);
    case Finish(p) => ExclusiveTurns(s.armed, s.todo, p, 0, 0);
    case _ =>
    hide Exclusive;
  }

  lemma {:induction false} LatchAlong(s: State, s': State, steps: seq<Action>)
    requires LatchOk(s) && Run(s, steps) == Some(s')
    ensures LatchOk(s')
    decreases |steps|
  {
    hide LatchOk;
    hide Next;
    if steps != [] {
      LatchKeeps(s, Next(s, steps[0]).value, steps[0]);
      LatchAlong(Next(s, steps[0]).value, s', steps[1..]);
    }
  }

  /** The mini-transaction has called `maybe_log_fpi` for the page and has its insert still to log. */
  predicate Holds(s: State, t: Txn, p: PageId) {
    t in s.armed && s.armed[t] == p
  }

  /** While it does, it goes on doing so, and tracking of the page changes only by being cleared. */
  lemma HoldsOn(s: State, s': State, a: Action, t: Txn, p: PageId)
    requires Inv(s) && LatchOk(s) && Holds(s, t, p) && Next(s, a) == Some(s') && a != LogInsert(t, p)
    ensures Holds(s', t, p) && (Imaged(s', p) <==> Imaged(s, p) && a != ClearFpi)
  {
    InvPage(s, p);
    hide Inv;
    hide PageOk;
    if a.Finish? {
      HoldsFinish(s, s', a.p, t, p);
    } else if a.LogImage? || a.LogInsert? || a.MaybeFpi? {
      HoldsWork(s, s', a, t, p);
    }
  }

  lemma HoldsFinish(s: State, s': State, q: PageId, t: Txn, p: PageId)
    requires LatchOk(s) && Holds(s, t, p) && Next(s, Finish(q)) == Some(s')
    ensures Holds(s', t, p) && (Imaged(s', p) <==> Imaged(s, p))
  {
    assert q != p && s.todo[q].t != t;
  }

  lemma HoldsWork(s: State, s': State, a: Action, t: Txn, p: PageId)
    requires LatchOk(s) && Holds(s, t, p) && Next(s, a) == Some(s') && a != LogInsert(t, p)
    requires a.LogImage? || a.LogInsert? || a.MaybeFpi?
    ensures Holds(s', t, p) && (Imaged(s', p) <==> Imaged(s, p))
  {
    assert a.t != t && a.p != p;
  }

  lemma {:induction false} HoldsAlong(s: State, s': State, mid: seq<Action>, t: Txn, p: PageId)
    requires Inv(s) && LatchOk(s) && Sighted(s, mid) && Holds(s, t, p) && Run(s, mid) == Some(s')
    requires LogInsert(t, p) !in mid
    ensures Inv(s') && LatchOk(s') && Holds(s', t, p) && (Imaged(s', p) <==> Imaged(s, p) && ClearFpi !in mid)
    decreases |mid|
  {
    hide Inv;
    hide LatchOk;
    hide Next;
    hide Imaged;
    hide Holds;
    if mid != [] {
      assert mid == [mid[0]] + mid[1..];
      var s1 := Next(s, mid[0]).value;
      StepKeeps(s, s1, mid[0]);
      LatchKeeps(s, s1, mid[0]);
      HoldsOn(s, s1, mid[0], t, p);
      HoldsAlong(s1, s', mid[1..], t, p);
    }
  }

  /**
    In every run, a mini-transaction whose call of `maybe_log_fpi` returned in state `s0` has
    a whole image of the page, in the interval of image tracking its insert falls into, if
    and only if the record that got the page tracked was logged since the last clear before
    `s0`, and tracking was not cleared since.
   */
  lemma ImageBeforeInsertIff(s0: State, s: State, pre: seq<Action>, mid: seq<Action>, t: Txn, p: PageId)
    requires Run(START, pre) == Some(s0) && Sighted(START, pre) && Holds(s0, t, p)
    requires Run(s0, mid) == Some(s) && Sighted(s0, mid) && LogInsert(t, p) !in mid
    ensures Next(s, LogInsert(t, p)).Some?
    ensures (exists i :: s.clear <= i < |s.log| && Whole(s.log[i], p))
            <==> p in s0.fpi && s0.clear <= s0.fpi[p] && ClearFpi !in mid
  {
    hide Inv;
    StartOk();
    assert LatchOk(START);
    hide Run;
    hide Sighted;
    hide Next;
    RunKeeps(START, s0, pre);
    LatchAlong(START, s0, pre);
    HoldsAlong(s0, s, mid, t, p);
    InsertEnabled(s, t, p);
    InvPage(s, p);
  }

  lemma InsertEnabled(s: State, t: Txn, p: PageId)
    requires LatchOk(s) && Holds(s, t, p)
    ensures Next(s, LogInsert(t, p)).Some?
  {
  }

  /**
    In every run a full-page image shows its page as it was, the first whole image of it since
    tracking was cleared.
   */
  lemma ImageOnce(s: State, steps: seq<Action>, j: nat)
    requires Run(START, steps) == Some(s) && Sighted(START, steps) && s.clear <= j < |s.log| && s.log[j].Fpi?
    ensures s.log[j].page == At(s.log, j, s.log[j].p)
    ensures forall i :: s.clear <= i < j ==> !Whole(s.log[i], s.log[j].p)
  {
    hide Inv;
    hide Run;
    hide Sighted;
    StartOk();
    RunKeeps(START, s, steps);
    InvRecord(s, j);
  }
}
