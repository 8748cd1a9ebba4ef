/**
  Persisting and loading the catalog: a new chain is written beside the old one and the
  control file's pointer is flipped last, so a crash leaves the old catalog or the new.
 */
module Catalogs {
  import opened Keys
  import opened Codec
  import opened Chains

  // ── loading ────────────────────────────────────────────────────────────────

  /** No catalog yet, the bytes of one, or a broken chain. */
  datatype Loaded = Fresh | Blob(bytes: Bytes) | Corrupt

  /** A root page with the magic number heads a chain; any other root page is a whole blob in the old format. */
  function LoadBlob(pages: Store, root: PageId, ids: seq<PageId>): Loaded {
    if root == NO_PAGE then Fresh
    else if root !in pages then Corrupt
    else if !Good(pages, root) then Blob(pages[root])
    else
      match Collected(pages, ids)
      case None => Corrupt
      case Some(blob) => Blob(blob)
  }

  /** `Catalog::load`, up to parsing. */
  method Load(pages: Store, root: PageId, ghost ids: seq<PageId>) returns (r: Loaded)
    requires root != NO_PAGE && Good(pages, root) ==> Walk(pages, root, ids)
    ensures r == LoadBlob(pages, root, ids)
  {
    hide Walk;
    hide Collected;
    hide Good;
    if root == NO_PAGE { return Fresh; }
    if root !in pages { return Corrupt; }
    if !Good(pages, root) { return Blob(pages[root]); }
    var blob := Collect(pages, root, ids);
    return if blob.None? then Corrupt else Blob(blob.value);
  }

  /** The first byte of every JSON object. */
  const BRACE := 0x7B

  /** A catalog in the old format, a whole JSON object in the root page, loads as that object. */
  lemma OldFormatLoads(pages: Store, root: PageId, ids: seq<PageId>)
    requires root != NO_PAGE && root in pages && pages[root] != [] && pages[root][0] == BRACE
    ensures LoadBlob(pages, root, ids) == Blob(pages[root])
  {
    if Good(pages, root) {
      LowByte(pages[root][..4], CHAIN_MAGIC);
    }
  }

  lemma LowByte(bytes: Bytes, v: nat)
    requires bytes != [] && FromWord(bytes) == v
    ensures bytes[0] == v % 256
  {
  }

  /** No other page is taken for one: a chain page is followed, whatever its chunk. */
  lemma ChainIsFollowed(pages: Store, root: PageId, ids: seq<PageId>, next: PageId, chunk: Bytes)
    requires root != NO_PAGE && root in pages && pages[root] == Payload(next, chunk)
    ensures LoadBlob(pages, root, ids) == match Collected(pages, ids) case None => Corrupt case Some(blob) => Blob(blob)
  {
    PayloadParts(pages, root, next, chunk);
    hide Collected;
  }

  // ── persisting, step by step ───────────────────────────────────────────────

  /** Records of the log: a chain page's payload is one insert into slot 0 of a new page. */
  datatype ChainRecord = TxnBegin(t: nat) | ChainInsert(t: nat, p: PageId, payload: Bytes) | TxnCommit(t: nat)

  type ChainLog = seq<ChainRecord>

  /** Where a `persist` stands. */
  datatype Stage =
    | Resting
    | Writing(t: nat, first: nat, chunks: seq<Bytes>, done: nat)
    | Syncing(t: nat, first: nat, chunks: seq<Bytes>, lsn: nat)
    | Flipping(t: nat, first: nat, chunks: seq<Bytes>, lsn: nat)

  /**
    `mem` is the mapped page file, `disk` what has reached the disk. Recovery looks at the
    log from `from` on. `root` is the pointer in the control file, replaced atomically.
   */
  datatype World = World(mem: Store, disk: Store, next: nat, log: ChainLog, durable: nat, from: nat, root: PageId,
                         stage: Stage)

  /**
    The steps of a `persist`, which any error ends, and what may happen at any time: a sync of the log for another
    reason, write-back of a mapped page by the system, and, between two persists, a
    checkpoint. A checkpoint writes back pages with a dirty frame; a chain page has none.
   */
  datatype Step =
    | StartPersist(chunks: seq<Bytes>)
    | WriteChainPage
    | CommitTxn
    | SyncUpTo
    | FlipRoot
    | GiveUp
    | SyncLog
    | WriteBack(p: PageId)
    | TakeCheckpoint

  function Next(s: World, a: Step): Option<World> {
    match a
    case StartPersist(chunks) =>
      if s.stage.Resting? && chunks != [] && s.next + |chunks| <= NO_PAGE as int then
        Some(s.(next := s.next + |chunks|, log := s.log + [TxnBegin(|s.log|)],
                stage := Writing(|s.log|, s.next, chunks, 0)))
      else None
    case WriteChainPage =>
      (match s.stage
       case Writing(t, first, chunks, done) =>
         if done < |chunks| && first + |chunks| <= NO_PAGE as int then
           var p := (first + done) as PageId;
           var payload := ChainPage(first, chunks, done);
           Some(s.(log := s.log + [ChainInsert(t, p, payload)], mem := s.mem[p := payload],
                   stage := Writing(t, first, chunks, done + 1)))
         else None
       case _ => None)
    case CommitTxn =>
      (match s.stage
       case Writing(t, first, chunks, done) =>
         if done == |chunks| then
           Some(s.(log := s.log + [TxnCommit(t)], stage := Syncing(t, first, chunks, |s.log| + 1)))
         else None
       case _ => None)
    case SyncUpTo =>
      (match s.stage
       case Syncing(t, first, chunks, lsn) => Some(s.(durable := |s.log|, stage := Flipping(t, first, chunks, lsn)))
       case _ => None)
    case FlipRoot =>
      (match s.stage
       case Flipping(_, first, _, _) =>
         if first < NO_PAGE as int then Some(s.(root := first as PageId, stage := Resting)) else None
       case _ => None)
    case GiveUp => if s.stage.Resting? then None else Some(s.(stage := Resting))
    case SyncLog => Some(s.(durable := |s.log|))
    case WriteBack(p) => if p in s.mem then Some(s.(disk := s.disk[p := s.mem[p]])) else None
    case TakeCheckpoint => if s.stage.Resting? then Some(s.(durable := |s.log|, from := |s.log|)) else None
  }

  function Run(s: World, steps: seq<Step>): Option<World>
    decreases |steps|
  {
    if steps == [] then Some(s)
    else
      match Next(s, steps[0])
      case None => None
      case Some(s') => Run(s', steps[1..])
  }

  // ── a crash and what recovery makes of it ──────────────────────────────────

  /** Memory is lost, and so may be records that were not durable yet. */
  predicate Survives(s: World, log: ChainLog) {
    s.durable <= |log| <= |s.log| && log == s.log[..|log|]
  }

  predicate Committed(log: ChainLog, from: nat, t: nat) {
    exists k :: from <= k < |log| && log[k] == TxnCommit(t)
  }

  /** Redo of a chain page's insert, which is skipped on a page that has a slot already. */
  function Redone(log: ChainLog, from: nat, n: nat, disk: Store): Store
    requires from <= n <= |log|
    decreases n
  {
    if n == from then disk
    else
      var pages := Redone(log, from, n - 1, disk);
      match log[n - 1]
      case ChainInsert(t, p, payload) => if Committed(log, from, t) && p !in pages then pages[p := payload] else pages
      case _ => pages
  }

  function Recovered(s: World, log: ChainLog): Store
    requires s.from <= |log|
  {
    Redone(log, s.from, |log|, s.disk)
  }

  /** The page is on disk, or a committed record of it is redone. */
  ghost predicate Kept(s: World, log: ChainLog, p: PageId) {
    p in s.disk
    || exists j, t, payload :: s.from <= j < |log| && log[j] == ChainInsert(t, p, payload) && Committed(log, s.from, t)
  }

  // ── what every step keeps ──────────────────────────────────────────────────

  /** Record `j` says what page it is about holds: a page id is written once. */
  ghost predicate RecordOk(s: World, j: nat) {
    j < |s.log| && (s.log[j].ChainInsert? ==> s.log[j].p in s.mem && s.mem[s.log[j].p] == s.log[j].payload)
  }

  /** Page `i` of the chain being written is in memory and among the first `n` records. */
  ghost predicate Logged(s: World, t: nat, first: nat, chunks: seq<Bytes>, i: nat, n: nat) {
    && InPlace(s.mem, first, chunks, i) && n <= |s.log|
    && exists j :: s.from <= j < n && s.log[j] == ChainInsert(t, (first + i) as PageId, ChainPage(first, chunks, i))
  }

  ghost predicate StageOk(s: World) {
    match s.stage
    case Resting => true
    case Writing(t, first, chunks, done) =>
      && chunks != [] && done <= |chunks| && first + |chunks| <= s.next
      && (forall i :: 0 <= i < done ==> Logged(s, t, first, chunks, i, |s.log|))
      && (forall p :: p in s.mem ==> p as int < first + done || first + |chunks| <= p as int)
    case Syncing(t, first, chunks, lsn) =>
      && chunks != [] && first + |chunks| <= s.next && s.from < lsn <= |s.log| && s.log[lsn - 1] == TxnCommit(t)
      && (forall i :: 0 <= i < |chunks| ==> Logged(s, t, first, chunks, i, lsn))
    case Flipping(t, first, chunks, lsn) =>
      && chunks != [] && first + |chunks| <= s.next && s.from < lsn <= |s.log| && s.log[lsn - 1] == TxnCommit(t)
      && lsn <= s.durable && (forall i :: 0 <= i < |chunks| ==> Logged(s, t, first, chunks, i, lsn))
  }

  /** Following the root visits `ids`, all in memory. */
  ghost predicate RootOk(s: World, ids: seq<PageId>) {
    s.root != NO_PAGE ==> Walk(s.mem, s.root, ids) && forall i :: 0 <= i < |ids| ==> ids[i] in s.mem
  }

  ghost predicate Inv(s: World, ids: seq<PageId>) {
    && s.from <= s.durable <= |s.log| && s.next <= NO_PAGE as int
    && (forall p :: p in s.mem ==> p as int < s.next)
    && (forall p :: p in s.disk ==> p in s.mem && s.disk[p] == s.mem[p])
    && (forall j {:trigger RecordOk(s, j)} :: 0 <= j < |s.log| ==> RecordOk(s, j))
    && StageOk(s) && RootOk(s, ids)
  }

  /** Every page of the current catalog is on disk or has a committed, durable record that recovery looks at. */
  ghost predicate Safe(s: World, ids: seq<PageId>) {
    s.root != NO_PAGE ==> forall i :: 0 <= i < |ids| ==> Held(s, ids[i])
  }

  ghost predicate Held(s: World, p: PageId) {
    s.durable <= |s.log| && Kept(s, s.log[..s.durable], p)
  }

  /** The chain the root names after a step. */
  function IdsAfter(s: World, a: Step, ids: seq<PageId>): seq<PageId> {
    if a.FlipRoot? && s.stage.Flipping? && s.stage.first + |s.stage.chunks| <= NO_PAGE as int then
      ChainIds(s.stage.first, |s.stage.chunks|)
    else ids
  }

  /** Reading depends only on the pages of the chain. */
  lemma LoadFrame(pages: Store, pages': Store, root: PageId, ids: seq<PageId>)
    requires Walk(pages, root, ids)
    requires forall i :: 0 <= i < |ids| ==> ids[i] in pages && ids[i] in pages' && pages'[ids[i]] == pages[ids[i]]
    ensures Walk(pages', root, ids) && LoadBlob(pages', root, ids) == LoadBlob(pages, root, ids)
  {
    hide Joined;
    hide FromWord;
    forall i | 0 <= i < |ids| - 1 ensures Follows(pages', ids[i], ids[i + 1]) {
      assert Follows(pages, ids[i], ids[i + 1]);
    }
    forall i | 0 <= i < |ids| ensures Good(pages', ids[i]) <==> Good(pages, ids[i]) {
    }
    if forall i :: 0 <= i < |ids| ==> Good(pages, ids[i]) { assert Chunks(pages', ids) == Chunks(pages, ids); }
  }

  /** Steps that add pages and records but keep the rest. */
  lemma RecordsKept(s: World, s': World, r: ChainRecord)
    requires (forall j :: 0 <= j < |s.log| ==> RecordOk(s, j)) && s'.log == s.log + [r]
    requires forall p :: p in s.mem ==> p in s'.mem && s'.mem[p] == s.mem[p]
    requires r.ChainInsert? ==> r.p in s'.mem && s'.mem[r.p] == r.payload
    ensures forall j :: 0 <= j < |s'.log| ==> RecordOk(s', j)
  {
    forall j | 0 <= j < |s'.log| ensures RecordOk(s', j) {
      if j < |s.log| { assert RecordOk(s, j); }
    }
  }

  lemma LoggedKept(s: World, s': World, t: nat, first: nat, chunks: seq<Bytes>, i: nat, n: nat, n': nat)
    requires Logged(s, t, first, chunks, i, n) && s.log <= s'.log && s'.from == s.from && n <= n' <= |s'.log|
    requires forall p :: p in s.mem ==> p in s'.mem && s'.mem[p] == s.mem[p]
    ensures Logged(s', t, first, chunks, i, n')
  {
    hide ChainPage;
    var j :| s.from <= j < n && s.log[j] == ChainInsert(t, (first + i) as PageId, ChainPage(first, chunks, i));
    assert s'.log[j] == s.log[j];
  }

  lemma RootKept(s: World, s': World, ids: seq<PageId>)
    requires RootOk(s, ids) && s'.root == s.root && forall p :: p in s.mem ==> p in s'.mem && s'.mem[p] == s.mem[p]
    ensures RootOk(s', ids)
  {
    if s.root != NO_PAGE { LoadFrame(s.mem, s'.mem, s.root, ids); }
  }

  lemma WriteKeeps(s: World, s': World, ids: seq<PageId>)
    requires Inv(s, ids) && Next(s, WriteChainPage) == Some(s')
    ensures Inv(s', ids)
  {
    hide ChainPage;
    hide Walk;
    var Writing(t, first, chunks, done) := s.stage;
    var p := (first + done) as PageId;
    var payload := ChainPage(first, chunks, done);
    assert p !in s.mem;
    RecordsKept(s, s', ChainInsert(t, p, payload));
    RootKept(s, s', ids);
    forall i | 0 <= i < done + 1 ensures Logged(s', t, first, chunks, i, |s'.log|) {
      if i < done {
        LoggedKept(s, s', t, first, chunks, i, |s.log|, |s'.log|);
      } else {
        assert s'.log[|s.log|] == ChainInsert(t, p, payload);
      }
    }
  }

  lemma LogKeeps(s: World, s': World, a: Step, ids: seq<PageId>)
    requires Inv(s, ids) && (a.StartPersist? || a.CommitTxn?) && Next(s, a) == Some(s')
    ensures Inv(s', ids)
  {
    hide ChainPage;
    hide Walk;
    RecordsKept(s, s', s'.log[|s.log|]);
    RootKept(s, s', ids);
    if a.CommitTxn? {
      var Writing(t, first, chunks, done) := s.stage;
      forall i | 0 <= i < |chunks| ensures Logged(s', t, first, chunks, i, |s'.log|) {
        LoggedKept(s, s', t, first, chunks, i, |s.log|, |s'.log|);
      }
    }
  }

  /** Steps that change neither pages in memory nor the log. */
  lemma PlainKeeps(s: World, s': World, a: Step, ids: seq<PageId>)
    requires Inv(s, ids) && Next(s, a) == Some(s')
    requires a.SyncUpTo? || a.GiveUp? || a.SyncLog? || a.WriteBack? || a.TakeCheckpoint?
    ensures Inv(s', ids)
  {
    hide ChainPage;
    hide Walk;
    RootKept(s, s', ids);
    forall j | 0 <= j < |s'.log| ensures RecordOk(s', j) {
      assert RecordOk(s, j);
    }
    if !s.stage.Resting? {
      var n := if s.stage.Writing? then s.stage.done else |s.stage.chunks|;
      var m := if s.stage.Writing? then |s.log| else s.stage.lsn;
      forall i | 0 <= i < n ensures Logged(s', s.stage.t, s.stage.first, s.stage.chunks, i, m) {
        LoggedKept(s, s', s.stage.t, s.stage.first, s.stage.chunks, i, m, m);
      }
    }
  }

  /** The chain a persist has written reads as its blob. */
  lemma WrittenReads(s: World, ids: seq<PageId>)
    requires Inv(s, ids) && s.stage.Flipping?
    ensures s.stage.first + |s.stage.chunks| <= NO_PAGE as int && s.stage.first < NO_PAGE as int
    ensures var ids' := ChainIds(s.stage.first, |s.stage.chunks|);
            && |ids'| == |s.stage.chunks|
            && (forall i :: 0 <= i < |ids'| ==> ids'[i] == (s.stage.first + i) as PageId && ids'[i] in s.mem)
            && Walk(s.mem, s.stage.first as PageId, ids')
            && LoadBlob(s.mem, s.stage.first as PageId, ids') == Blob(Joined(s.stage.chunks))
  {
    var Flipping(t, first, chunks, lsn) := s.stage;
    forall i | 0 <= i < |chunks| ensures InPlace(s.mem, first, chunks, i) {
      assert Logged(s, t, first, chunks, i, lsn);
    }
    hide ChainPage;
    ChainReads(s.mem, first, chunks);
    HeadIsGood(s.mem, first as PageId, ChainIds(first, |chunks|));
    hide Walk;
    hide Collected;
    hide Good;
  }

  lemma HeadIsGood(pages: Store, root: PageId, ids: seq<PageId>)
    requires Walk(pages, root, ids) && Collected(pages, ids).Some?
    ensures Good(pages, root) && root in pages
  {
    hide FromWord;
    assert Good(pages, ids[0]);
  }

  lemma FlipKeeps(s: World, s': World, ids: seq<PageId>)
    requires Inv(s, ids) && Next(s, FlipRoot) == Some(s')
    ensures Inv(s', IdsAfter(s, FlipRoot, ids))
  {
    WrittenReads(s, ids);
    hide Walk;
    hide LoadBlob;
    hide ChainIds;
    forall j | 0 <= j < |s'.log| ensures RecordOk(s', j) {
      assert RecordOk(s, j);
    }
  }

  /** Every step keeps the invariant. */
  lemma StepKeeps(s: World, s': World, a: Step, ids: seq<PageId>)
    requires Inv(s, ids) && Next(s, a) == Some(s')
    ensures Inv(s', IdsAfter(s, a, ids))
  {
    hide Inv;
    match a
    case WriteChainPage => WriteKeeps(s, s', ids);
    case StartPersist(_) => LogKeeps(s, s', a, ids);
    case CommitTxn => LogKeeps(s, s', a, ids);
    case FlipRoot => FlipKeeps(s, s', ids);
    case _ => PlainKeeps(s, s', a, ids);
  }

  // ── the catalog after a crash ──────────────────────────────────────────────

  lemma {:induction false} RedoneHas(s: World, log: ChainLog, n: nat, ids: seq<PageId>, p: PageId)
    requires Inv(s, ids) && Survives(s, log) && s.from <= n <= |log|
    ensures var pages := Redone(log, s.from, n, s.disk);
            && (p in pages <==>
                (p in s.disk
                 || exists j, t, payload ::
                      s.from <= j < n && log[j] == ChainInsert(t, p, payload) && Committed(log, s.from, t)))
            && (p in pages ==> p in s.mem && pages[p] == s.mem[p])
    decreases n
  {
    hide Committed;
    if n > s.from {
      RedoneHas(s, log, n - 1, ids, p);
      assert log[n - 1] == s.log[n - 1] && RecordOk(s, n - 1);
      hide Inv;
      if log[n - 1].ChainInsert? && log[n - 1].p == p && Committed(log, s.from, log[n - 1].t) {
        assert log[n - 1] == ChainInsert(log[n - 1].t, p, log[n - 1].payload);
      }
    }
  }

  /** Recovery has exactly the pages that are kept, with the bytes they had. */
  lemma RecoveredIs(s: World, log: ChainLog, ids: seq<PageId>, p: PageId)
    requires Inv(s, ids) && Survives(s, log)
    ensures s.from <= |log|
    ensures p in Recovered(s, log) <==> Kept(s, log, p)
    ensures p in Recovered(s, log) ==> p in s.mem && Recovered(s, log)[p] == s.mem[p]
  {
    RedoneHas(s, log, |log|, ids, p);
  }

  /** What a load gives while nothing has crashed. */
  function Current(s: World, ids: seq<PageId>): Loaded {
    LoadBlob(s.mem, s.root, ids)
  }

  /** After a crash the catalog loads as it was if and only if each of its pages is kept. */
  lemma CrashLoadsIff(s: World, log: ChainLog, ids: seq<PageId>)
    requires Inv(s, ids) && Survives(s, log) && s.root != NO_PAGE && !Current(s, ids).Corrupt?
    ensures s.from <= |log|
    ensures LoadBlob(Recovered(s, log), s.root, ids) == Current(s, ids) <==>
              forall i :: 0 <= i < |ids| ==> Kept(s, log, ids[i])
  {
    RecoveredIs(s, log, ids, s.root);
    var pages := Recovered(s, log);
    forall i | 0 <= i < |ids| ensures ids[i] in pages <==> Kept(s, log, ids[i]) {
      RecoveredIs(s, log, ids, ids[i]);
    }
    hide Kept;
    if forall i :: 0 <= i < |ids| ==> Kept(s, log, ids[i]) {
      forall i | 0 <= i < |ids| ensures ids[i] in pages && pages[ids[i]] == s.mem[ids[i]] {
        assert Kept(s, log, ids[i]);
        RecoveredIs(s, log, ids, ids[i]);
      }
      hide Recovered;
      LoadFrame(s.mem, pages, s.root, ids);
    } else {
      var i :| 0 <= i < |ids| && !Kept(s, log, ids[i]);
      hide Recovered;
      hide Inv;
      MissingPage(pages, s.mem, s.root, ids, i);
    }
  }

  /** A chain with a page missing does not load. */
  lemma MissingPage(pages: Store, mem: Store, root: PageId, ids: seq<PageId>, i: nat)
    requires Walk(mem, root, ids) && i < |ids| && ids[i] !in pages && root != NO_PAGE
    requires !LoadBlob(mem, root, ids).Corrupt?
    requires root in pages ==> root in mem && pages[root] == mem[root]
    ensures LoadBlob(pages, root, ids) == Corrupt
  {
    hide FromWord;
    hide Joined;
    if root in pages {
      assert i > 0 && Follows(mem, ids[0], ids[1]);
      assert !Good(pages, ids[i]);
    }
  }

  lemma HeldKept(s: World, log: ChainLog, p: PageId)
    requires Held(s, p) && Survives(s, log)
    ensures Kept(s, log, p)
  {
    var pre := s.log[..s.durable];
    if p !in s.disk {
      var j, t, payload :| s.from <= j < |pre| && pre[j] == ChainInsert(t, p, payload) && Committed(pre, s.from, t);
      var k :| s.from <= k < |pre| && pre[k] == TxnCommit(t);
      assert log[j] == pre[j] && log[k] == pre[k];
    }
  }

  lemma HeldOn(s: World, s': World, p: PageId)
    requires Held(s, p) && s.log <= s'.log && s.durable <= s'.durable <= |s'.log| && s'.from == s.from
    requires s.disk.Keys <= s'.disk.Keys
    ensures Held(s', p)
  {
    var pre := s'.log[..s'.durable];
    if p !in s.disk {
      var old' := s.log[..s.durable];
      var j, t, payload :| s.from <= j < |old'| && old'[j] == ChainInsert(t, p, payload) && Committed(old', s.from, t);
      var k :| s.from <= k < |old'| && old'[k] == TxnCommit(t);
      assert pre[j] == old'[j] && pre[k] == old'[k];
      assert Committed(pre, s'.from, t);
    }
  }

  /** A chain page whose commit is durable is held. */
  lemma LoggedHeld(s: World, ids: seq<PageId>, i: nat)
    requires Inv(s, ids) && s.stage.Flipping? && i < |s.stage.chunks|
    ensures s.stage.first + |s.stage.chunks| <= NO_PAGE as int && Held(s, (s.stage.first + i) as PageId)
  {
    var Flipping(t, first, chunks, lsn) := s.stage;
    assert Logged(s, t, first, chunks, i, lsn);
    hide ChainPage;
    var j :| s.from <= j < lsn && s.log[j] == ChainInsert(t, (first + i) as PageId, ChainPage(first, chunks, i));
    var pre := s.log[..s.durable];
    assert pre[lsn - 1] == TxnCommit(t) && pre[j] == s.log[j];
    assert Committed(pre, s.from, t);
  }

  /** Every step but a checkpoint leaves the catalog safe; flipping the root makes the new one so. */
  lemma StepSafe(s: World, s': World, a: Step, ids: seq<PageId>)
    requires Inv(s, ids) && Safe(s, ids) && Next(s, a) == Some(s') && !a.TakeCheckpoint?
    ensures Safe(s', IdsAfter(s, a, ids))
  {
    if a.FlipRoot? {
      WrittenReads(s, ids);
      var ids' := IdsAfter(s, a, ids);
      forall i | 0 <= i < |ids'| ensures Held(s', ids'[i]) {
        LoggedHeld(s, ids, i);
        HeldOn(s, s', ids'[i]);
      }
    } else {
      hide Held;
      forall i | 0 <= i < |ids| && s.root != NO_PAGE ensures Held(s', ids[i]) {
        HeldOn(s, s', ids[i]);
      }
    }
  }

  /** What the catalog is after a run: what the last flip made it, or what it was. */
  function Latest(s: World, steps: seq<Step>, cur: Loaded): Loaded
    decreases |steps|
  {
    if steps == [] then cur
    else
      match Next(s, steps[0])
      case None => cur
      case Some(s') =>
        Latest(s', steps[1..], if steps[0].FlipRoot? && s.stage.Flipping? then Blob(Joined(s.stage.chunks)) else cur)
  }

  lemma CurrentStep(s: World, s': World, a: Step, ids: seq<PageId>)
    requires Inv(s, ids) && Next(s, a) == Some(s')
    ensures Current(s', IdsAfter(s, a, ids)) == if a.FlipRoot? then Blob(Joined(s.stage.chunks)) else Current(s, ids)
  {
    if a.FlipRoot? {
      WrittenReads(s, ids);
    } else if s.root != NO_PAGE {
      MemoryGrows(s, s', a, ids);
      LoadFrame(s.mem, s'.mem, s.root, ids);
    }
  }

  lemma MemoryGrows(s: World, s': World, a: Step, ids: seq<PageId>)
    requires Inv(s, ids) && Next(s, a) == Some(s')
    ensures forall p :: p in s.mem ==> p in s'.mem && s'.mem[p] == s.mem[p]
  {
    hide ChainPage;
    hide Walk;
  }

  predicate NoCheckpoint(steps: seq<Step>) {
    forall i :: 0 <= i < |steps| ==> !steps[i].TakeCheckpoint?
  }

  lemma {:induction false} RunKeeps(s: World, s': World, steps: seq<Step>, ids: seq<PageId>) returns (ids': seq<PageId>)
    requires Inv(s, ids) && Run(s, steps) == Some(s')
    ensures Inv(s', ids') && Current(s', ids') == Latest(s, steps, Current(s, ids))
    ensures Safe(s, ids) && NoCheckpoint(steps) ==> Safe(s', ids')
    decreases |steps|
  {
    hide Inv;
    hide Safe;
    hide Next;
    hide Current;
    ids' := ids;
    if steps != [] {
      var mid := Next(s, steps[0]).value;
      StepKeeps(s, mid, steps[0], ids);
      CurrentStep(s, mid, steps[0], ids);
      FlipIsFlipping(s, mid, steps[0]);
      if Safe(s, ids) && NoCheckpoint(steps) { StepSafe(s, mid, steps[0], ids); }
      ids' := RunKeeps(mid, s', steps[1..], IdsAfter(s, steps[0], ids));
    }
  }

  lemma FlipIsFlipping(s: World, s': World, a: Step)
    requires Next(s, a) == Some(s')
    ensures a.FlipRoot? ==> s.stage.Flipping?
  {
  }

  /**
    From a safe catalog, crash anywhere in any run of persists, syncs and write-backs, with
    any part of the log beyond the durable prefix kept: recovery and load give exactly the
    catalog of the last flipped root. Before the flip of a persist that is the whole old
    catalog, after it the whole new one.
   */
  lemma CrashIsAtomic(s: World, s': World, steps: seq<Step>, log: ChainLog, ids: seq<PageId>)
    returns (ids': seq<PageId>)
    requires Inv(s, ids) && Safe(s, ids) && Run(s, steps) == Some(s') && NoCheckpoint(steps) && Survives(s', log)
    requires !Latest(s, steps, Current(s, ids)).Corrupt?
    ensures s'.from <= |log| && LoadBlob(Recovered(s', log), s'.root, ids') == Latest(s, steps, Current(s, ids))
  {
    hide Run;
    hide Latest;
    ids' := RunKeeps(s, s', steps, ids);
    RecoveredIs(s', log, ids', 0);
    hide Recovered;
    if s'.root != NO_PAGE {
      forall i | 0 <= i < |ids'| ensures Kept(s', log, ids'[i]) {
        HeldKept(s', log, ids'[i]);
      }
      hide Inv;
      hide Safe;
      hide Kept;
      CrashLoadsIff(s', log, ids');
    }
  }

  // ── a checkpoint after a persist ───────────────────────────────────────────

  const EMPTY := World(map[], map[], 0, [], 0, 0, NO_PAGE, Resting)

  /** Persist one chunk, flip the root, take a checkpoint. */
  function PersistThenCheckpoint(chunk: Bytes): seq<Step> {
    [StartPersist([chunk]), WriteChainPage, CommitTxn, SyncUpTo, FlipRoot, TakeCheckpoint]
  }

  function Checkpointed(chunk: Bytes): World {
    var page := Payload(NO_PAGE, chunk);
    World(map[0 := page], map[], 1, [TxnBegin(0), ChainInsert(0, 0, page), TxnCommit(0)], 3, 3, 0, Resting)
  }

  lemma RunOne(s: World, s': World, steps: seq<Step>)
    requires steps != [] && Next(s, steps[0]) == Some(s')
    ensures Run(s, steps) == Run(s', steps[1..])
  {
    hide Next;
  }

  lemma PersistRuns(chunk: Bytes)
    ensures Run(EMPTY, PersistThenCheckpoint(chunk)) == Some(Checkpointed(chunk))
  {
    hide Payload;
    var a := PersistThenCheckpoint(chunk);
    var page := Payload(NO_PAGE, chunk);
    var s1 := EMPTY.(next := 1, log := [TxnBegin(0)], stage := Writing(0, 0, [chunk], 0));
    var s2 := s1.(log := [TxnBegin(0), ChainInsert(0, 0, page)], mem := map[0 := page],
                  stage := Writing(0, 0, [chunk], 1));
    var s3 := s2.(log := [TxnBegin(0), ChainInsert(0, 0, page), TxnCommit(0)], stage := Syncing(0, 0, [chunk], 3));
    var s4 := s3.(durable := 3, stage := Flipping(0, 0, [chunk], 3));
    var s5 := s4.(root := 0, stage := Resting);
    assert Next(EMPTY, a[0]) == Some(s1) by {
      assert EMPTY.log + [TxnBegin(0)] == s1.log;
    }
    assert Next(s1, a[1]) == Some(s2) by {
      assert ChainPage(0, [chunk], 0) == page && s1.log + [ChainInsert(0, 0, page)] == s2.log;
      assert s1.mem[0 := page] == s2.mem;
    }
    assert Next(s2, a[2]) == Some(s3) by {
      assert s2.log + [TxnCommit(0)] == s3.log;
    }
    assert Next(s3, a[3]) == Some(s4) && Next(s4, a[4]) == Some(s5) && Next(s5, a[5]) == Some(Checkpointed(chunk));
    hide Next;
    hide Run;
    RunOne(EMPTY, s1, a);
    RunOne(s1, s2, a[1..]);
    assert a[1..][1..] == a[2..];
    RunOne(s2, s3, a[2..]);
    assert a[2..][1..] == a[3..];
    RunOne(s3, s4, a[3..]);
    assert a[3..][1..] == a[4..];
    RunOne(s4, s5, a[4..]);
    assert a[4..][1..] == a[5..];
    RunOne(s5, Checkpointed(chunk), a[5..]);
    assert a[5..][1..] == [];
    RunNone(Checkpointed(chunk));
  }

  lemma RunNone(s: World)
    ensures Run(s, []) == Some(s)
  {
  }

  /**
    The chain page has no frame, so the checkpoint neither writes it back nor keeps its record:
    after a crash it is gone.
   */
  lemma CheckpointCanLoseCatalog(chunk: Bytes)
    ensures var s := Checkpointed(chunk);
            && Survives(s, s.log) && Current(s, [0]) == Blob(chunk)
            && LoadBlob(Recovered(s, s.log), s.root, [0]) == Corrupt
  {
    var s := Checkpointed(chunk);
    assert s.log[..3] == s.log;
    PayloadParts(s.mem, 0, NO_PAGE, chunk);
    hide Payload;
    assert Chunks(s.mem, [0]) == [chunk];
    JoinedAppend([], chunk);
    assert [] + [chunk] == [chunk] && [] + chunk == chunk;
    assert Collected(s.mem, [0]) == Some(chunk);
    assert Recovered(s, s.log) == map[];
  }

  // ── `Catalog::persist` ─────────────────────────────────────────────────────

  class CatalogStore {
    const pageSize: nat
    var s: World

    constructor (pageSize: nat, s: World)
      ensures this.pageSize == pageSize && this.s == s
    {
      this.pageSize, this.s := pageSize, s;
    }

    /** Take one step, and remember it. */
    method Do(a: Step, ghost start: World, ghost steps: seq<Step>, ghost ids: seq<PageId>)
      requires Inv(s, ids) && Next(s, a).Some? && Run(start, steps) == Some(s) && !a.TakeCheckpoint?
      modifies this`s
      ensures Next(old(s), a) == Some(s) && Run(start, steps + [a]) == Some(s) && Inv(s, IdsAfter(old(s), a, ids))
      ensures Safe(old(s), ids) ==> Safe(s, IdsAfter(old(s), a, ids))
    {
      hide *;
      StepKeeps(s, Next(s, a).value, a, ids);
      if Safe(s, ids) { StepSafe(s, Next(s, a).value, a, ids); }
      RunSnoc(start, s, steps, a);
      s := Next(s, a).value;
    }

    /** `Catalog::persist`: the chain first, then commit and sync, the pointer last. */
    method Persist(blob: Bytes, ghost ids: seq<PageId>)
      returns (ok: bool, ghost steps: seq<Step>, ghost ids': seq<PageId>)
      requires Inv(s, ids) && s.stage.Resting? && blob != []
      modifies this`s
      ensures ok <==> ChunkSize(pageSize) > 0
                      && old(s).next + PagesFor(|blob|, ChunkSize(pageSize)) <= NO_PAGE as int
      ensures Run(old(s), steps) == Some(s) && NoCheckpoint(steps) && Inv(s, ids') && s.stage.Resting?
      ensures Safe(old(s), ids) ==> Safe(s, ids')
      ensures forall p :: p in old(s).mem ==> p in s.mem && s.mem[p] == old(s).mem[p]
      ensures ok ==> s.root != NO_PAGE && Current(s, ids') == Blob(blob)
      ensures ok ==> forall i :: 0 <= i < |ids'| ==> old(s).next <= ids'[i] as int < s.next
      ensures ok ==> |ids'| == s.next - old(s).next == PagesFor(|blob|, ChunkSize(pageSize))
      ensures ok ==> forall i :: 0 <= i < |ids'| ==> ids'[i] in s.mem && SlotFits(s.mem[ids'[i]], pageSize)
      ensures !ok ==> s.mem == old(s).mem && s.disk == old(s).disk && s.root == old(s).root && ids' == ids
      ensures !ok && ChunkSize(pageSize) > 0 ==> s == old(s)
    {
      hide *;
      steps, ids' := [], ids;
      RunNone(s);
      var size := ChunkSize(pageSize);
      var chunks := Cut(blob, size);
      if s.next + |chunks| > NO_PAGE as int {
        NothingYet();
        return false, steps, ids';
      }
      ghost var s0 := s;
      Starts(s, chunks);
      KeptIds(s, StartPersist(chunks), ids);
      Do(StartPersist(chunks), s0, steps, ids);
      assert [] + [StartPersist(chunks)] == [StartPersist(chunks)];
      steps := [StartPersist(chunks)];
      ChunksFit(pageSize, s.next - |chunks|, chunks);
      var i := 0;
      while i < |chunks|
        invariant i <= |chunks| && (i > 0 ==> size > 0) && WritingAt(s0, s, chunks, i)
        invariant Inv(s, ids) && Run(s0, steps) == Some(s)
        invariant NoCheckpoint(steps) && (Safe(s0, ids) ==> Safe(s, ids))
      {
        WritingFirst(s0, s, chunks, i);
        if !SlotFits(ChainPage(s.stage.first, chunks, i), pageSize) {
          GivesUp(s0, s, chunks, i);
          KeptIds(s, GiveUp, ids);
          CalmSteps(steps, GiveUp);
          Do(GiveUp, s0, steps, ids);
          steps := steps + [GiveUp];
          return false, steps, ids';
        }
        Writes(s0, s, chunks, i, ids);
        KeptIds(s, WriteChainPage, ids);
        CalmSteps(steps, WriteChainPage);
        Do(WriteChainPage, s0, steps, ids);
        steps := steps + [WriteChainPage];
        i := i + 1;
      }
      ghost var s2, s3, s4 := Finishes(s0, s, chunks, ids);
      KeptIds(s, CommitTxn, ids);
      CalmSteps(steps, CommitTxn);
      Do(CommitTxn, s0, steps, ids);
      steps := steps + [CommitTxn];
      KeptIds(s, SyncUpTo, ids);
      CalmSteps(steps, SyncUpTo);
      Do(SyncUpTo, s0, steps, ids);
      steps := steps + [SyncUpTo];
      CalmSteps(steps, FlipRoot);
      ids' := IdsAfter(s, FlipRoot, ids);
      AreChunks(chunks, size);
      WrittenPages(s, ids, pageSize);
      Do(FlipRoot, s0, steps, ids);
      steps := steps + [FlipRoot];
      return true, steps, ids';
    }

    /**
      `Catalog::persist` of a whole catalog, for an encoding that can be undone: loading it,
      now or after a crash with any part of the log beyond the durable prefix kept, gives the
      same tables, with every row count unknown.
     */
    method Save(c: Catalog, encode: Catalog -> Bytes, ghost decode: Bytes -> Option<Catalog>, ghost ids: seq<PageId>)
      returns (ok: bool, ghost ids': seq<PageId>)
      requires Inv(s, ids) && Safe(s, ids) && s.stage.Resting? && encode(c) != [] && decode(encode(c)) == Some(c)
      modifies this`s
      ensures Inv(s, ids') && Safe(s, ids') && s.stage.Resting?
      ensures ok <==> ChunkSize(pageSize) > 0
                      && old(s).next + PagesFor(|encode(c)|, ChunkSize(pageSize)) <= NO_PAGE as int
      ensures !ok ==> s.mem == old(s).mem && s.disk == old(s).disk && s.root == old(s).root && ids' == ids
      ensures !ok && ChunkSize(pageSize) > 0 ==> s == old(s)
      ensures ok ==> Restored(LoadCatalog(s.mem, s.root, ids', decode), c)
      ensures ok ==> forall log :: Survives(s, log) ==>
                s.from <= |log| && Restored(LoadCatalog(Recovered(s, log), s.root, ids', decode), c)
    {
      hide *;
      ghost var steps;
      ok, steps, ids' := Persist(encode(c), ids);
      if ok {
        CurrentIs(s, ids');
        LoadGives(s.mem, s.root, ids', c, encode(c), decode);
        forall log | Survives(s, log)
          ensures s.from <= |log| && Restored(LoadCatalog(Recovered(s, log), s.root, ids', decode), c)
        {
          SafeLoads(s, log, ids');
          LoadGives(Recovered(s, log), s.root, ids', c, encode(c), decode);
        }
      }
    }
  }

  lemma NothingYet()
    ensures NoCheckpoint([])
  {
  }

  lemma {:induction false} RunSnoc(start: World, s: World, steps: seq<Step>, a: Step)
    requires Run(start, steps) == Some(s) && Next(s, a).Some?
    ensures Run(start, steps + [a]) == Next(s, a)
    decreases |steps|
  {
    hide Next;
    if steps == [] {
      assert steps + [a] == [a] && [a][1..] == [];
    } else {
      assert (steps + [a])[1..] == steps[1..] + [a];
      RunSnoc(Next(start, steps[0]).value, s, steps[1..], a);
    }
  }

  /** `i` pages of the new chain are written, beside the old pages. */
  ghost predicate WritingAt(s0: World, s: World, chunks: seq<Bytes>, i: nat) {
    && s.stage == Writing(|s0.log|, s0.next, chunks, i) && s.next == s0.next + |chunks| <= NO_PAGE as int
    && s.root == s0.root && s.disk == s0.disk && (i == 0 ==> s.mem == s0.mem)
    && (forall p :: p in s0.mem ==> p in s.mem && s.mem[p] == s0.mem[p])
  }

  lemma Starts(s0: World, chunks: seq<Bytes>)
    requires s0.stage.Resting? && chunks != [] && s0.next + |chunks| <= NO_PAGE as int
    ensures Next(s0, StartPersist(chunks)).Some? && WritingAt(s0, Next(s0, StartPersist(chunks)).value, chunks, 0)
    ensures NoCheckpoint([StartPersist(chunks)])
  {
  }

  lemma Writes(s0: World, s: World, chunks: seq<Bytes>, i: nat, ids: seq<PageId>)
    requires Inv(s, ids) && WritingAt(s0, s, chunks, i) && i < |chunks|
    ensures Next(s, WriteChainPage).Some? && WritingAt(s0, Next(s, WriteChainPage).value, chunks, i + 1)
  {
    hide ChainPage;
    hide Walk;
  }

  /** Commit, sync and flip, one after the other. */
  lemma Finishes(s0: World, s1: World, chunks: seq<Bytes>, ids: seq<PageId>) returns (s2: World, s3: World, s4: World)
    requires Inv(s1, ids) && WritingAt(s0, s1, chunks, |chunks|)
    ensures Next(s1, CommitTxn) == Some(s2) && Next(s2, SyncUpTo) == Some(s3) && Next(s3, FlipRoot) == Some(s4)
    ensures s3.stage.Flipping? && s3.stage.chunks == chunks && s4.mem == s3.mem
    ensures IdsAfter(s3, FlipRoot, ids) == ChainIds(s0.next, |chunks|) && s4.stage.Resting? && s4.root != NO_PAGE
    ensures Current(s4, ChainIds(s0.next, |chunks|)) == Blob(Joined(chunks)) && s4.next == s0.next + |chunks|
    ensures |ChainIds(s0.next, |chunks|)| == |chunks|
    ensures forall i :: 0 <= i < |chunks| ==> ChainIds(s0.next, |chunks|)[i] as int == s0.next + i
    ensures forall p :: p in s0.mem ==> p in s4.mem && s4.mem[p] == s0.mem[p]
  {
    s2 := Next(s1, CommitTxn).value;
    StepKeeps(s1, s2, CommitTxn, ids);
    s3 := Next(s2, SyncUpTo).value;
    StepKeeps(s2, s3, SyncUpTo, ids);
    assert s3.stage == Flipping(|s0.log|, s0.next, chunks, |s1.log| + 1);
    WrittenReads(s3, ids);
    s4 := s3.(root := s0.next as PageId, stage := Resting);
    hide Inv;
    hide LoadBlob;
  }

  /** The payload fits the one slot of its page. */
  predicate SlotFits(payload: Bytes, pageSize: nat) {
    |payload| + SLOT_OVERHEAD <= pageSize
  }

  /** Chunks of the right size fit their pages; where there is no room for a chunk, the first one does not. */
  lemma ChunksFit(pageSize: nat, first: nat, chunks: seq<Bytes>)
    requires first + |chunks| <= NO_PAGE as int && forall i :: 0 <= i < |chunks| ==> chunks[i] != []
    ensures ChunkSize(pageSize) == 0 && chunks != [] ==> !SlotFits(ChainPage(first, chunks, 0), pageSize)
    ensures forall i :: 0 <= i < |chunks| && |chunks[i]| <= ChunkSize(pageSize) ==>
              SlotFits(ChainPage(first, chunks, i), pageSize)
  {
    hide Word;
  }

  /** The pages of a chain that is about to be the catalog are in memory, and each fits its slot. */
  lemma WrittenPages(s: World, ids: seq<PageId>, pageSize: nat)
    requires Inv(s, ids) && s.stage.Flipping? && ChunksOf(s.stage.chunks, ChunkSize(pageSize))
    ensures var ids' := IdsAfter(s, FlipRoot, ids);
            forall i :: 0 <= i < |ids'| ==> ids'[i] in s.mem && SlotFits(s.mem[ids'[i]], pageSize)
  {
    hide *;
    var Flipping(t, first, chunks, lsn) := s.stage;
    FlippedIds(s, ids);
    var ids' := IdsAfter(s, FlipRoot, ids);
    forall i | 0 <= i < |ids'| ensures ids'[i] in s.mem && SlotFits(s.mem[ids'[i]], pageSize) {
      WrittenPage(s, ids, i);
      PageFits(s.mem, first, chunks, i, pageSize);
    }
  }

  lemma FlippedIds(s: World, ids: seq<PageId>)
    requires Inv(s, ids) && s.stage.Flipping?
    ensures var ids' := IdsAfter(s, FlipRoot, ids);
            && |ids'| == |s.stage.chunks| && s.stage.first + |s.stage.chunks| <= NO_PAGE as int
            && forall i :: 0 <= i < |ids'| ==> ids'[i] as int == s.stage.first + i
  {
    hide Walk;
    hide RecordOk;
    hide Logged;
  }

  lemma WrittenPage(s: World, ids: seq<PageId>, i: nat)
    requires Inv(s, ids) && s.stage.Flipping? && i < |s.stage.chunks|
    ensures InPlace(s.mem, s.stage.first, s.stage.chunks, i)
  {
    hide Walk;
    hide RecordOk;
    hide InPlace;
    assert Logged(s, s.stage.t, s.stage.first, s.stage.chunks, i, s.stage.lsn);
  }

  predicate ChunksOf(chunks: seq<Bytes>, size: nat) {
    forall i :: 0 <= i < |chunks| ==> 0 < |chunks[i]| <= size
  }

  lemma AreChunks(chunks: seq<Bytes>, size: nat)
    requires forall i :: 0 <= i < |chunks| ==> 0 < |chunks[i]| <= size
    ensures ChunksOf(chunks, size)
  {
  }

  lemma PageFits(pages: Store, first: nat, chunks: seq<Bytes>, i: nat, pageSize: nat)
    requires InPlace(pages, first, chunks, i) && ChunksOf(chunks, ChunkSize(pageSize))
    ensures (first + i) as PageId in pages && SlotFits(pages[(first + i) as PageId], pageSize)
  {
    ChunksFit(pageSize, first, chunks);
    hide ChainPage;
  }

  lemma WritingFirst(s0: World, s: World, chunks: seq<Bytes>, i: nat)
    requires WritingAt(s0, s, chunks, i)
    ensures s.stage.Writing? && s.stage.first == s0.next && s0.next + |chunks| <= NO_PAGE as int
    ensures s.next == s0.next + |chunks|
  {
  }

  lemma GivesUp(s0: World, s: World, chunks: seq<Bytes>, i: nat)
    requires WritingAt(s0, s, chunks, i)
    ensures Next(s, GiveUp) == Some(s.(stage := Resting))
    ensures s.root == s0.root && s.disk == s0.disk && (i == 0 ==> s.mem == s0.mem)
  {
  }

  lemma CalmSteps(steps: seq<Step>, a: Step)
    requires NoCheckpoint(steps) && !a.TakeCheckpoint?
    ensures NoCheckpoint(steps + [a])
  {
  }

  lemma KeptIds(s: World, a: Step, ids: seq<PageId>)
    requires !a.FlipRoot?
    ensures IdsAfter(s, a, ids) == ids
  {
  }

  // ── row counts ─────────────────────────────────────────────────────────────

  const ROW_COUNT_UNKNOWN := -0x8000_0000_0000_0000

  datatype Table = Table(rowCount: int, definition: Bytes)

  type Catalog = map<Bytes, Table>

  /** `reset_row_counts_unknown`: stored counts may be stale after a crash. */
  function Reset(c: Catalog): Catalog {
    map name | name in c :: c[name].(rowCount := ROW_COUNT_UNKNOWN)
  }

  /** The catalog a load gives, for a given blob decoder. */
  function LoadCatalog(pages: Store, root: PageId, ids: seq<PageId>,
                       decode: Bytes -> Option<Catalog>): Option<Catalog> {
    match LoadBlob(pages, root, ids)
    case Fresh => Some(map[])
    case Corrupt => None
    case Blob(bytes) =>
      match decode(bytes)
      case None => None
      case Some(c) => Some(Reset(c))
  }

  /** The same tables, with every row count unknown. */
  ghost predicate Restored(r: Option<Catalog>, c: Catalog) {
    && r.Some? && r.value.Keys == c.Keys
    && forall name :: name in c ==> r.value[name] == Table(ROW_COUNT_UNKNOWN, c[name].definition)
  }

  lemma CurrentIs(s: World, ids: seq<PageId>)
    ensures Current(s, ids) == LoadBlob(s.mem, s.root, ids)
  {
    hide LoadBlob;
  }

  lemma LoadGives(pages: Store, root: PageId, ids: seq<PageId>, c: Catalog, blob: Bytes,
                  decode: Bytes -> Option<Catalog>)
    requires LoadBlob(pages, root, ids) == Blob(blob) && decode(blob) == Some(c)
    ensures Restored(LoadCatalog(pages, root, ids, decode), c)
  {
    hide LoadBlob;
  }

  /** A safe catalog that loads now loads the same after any crash. */
  lemma SafeLoads(s: World, log: ChainLog, ids: seq<PageId>)
    requires Inv(s, ids) && Safe(s, ids) && Survives(s, log) && s.root != NO_PAGE && !Current(s, ids).Corrupt?
    ensures s.from <= |log|
    ensures LoadBlob(Recovered(s, log), s.root, ids) == Current(s, ids) == LoadBlob(s.mem, s.root, ids)
  {
    forall i | 0 <= i < |ids| ensures Kept(s, log, ids[i]) {
      HeldKept(s, log, ids[i]);
    }
    hide Inv;
    hide Safe;
    hide Kept;
    hide Recovered;
    hide LoadBlob;
    CrashLoadsIff(s, log, ids);
  }

  predicate NoFlip(steps: seq<Step>) {
    forall i :: 0 <= i < |steps| ==> !steps[i].FlipRoot?
  }

  lemma {:induction false} RootStays(s: World, s': World, steps: seq<Step>)
    requires Run(s, steps) == Some(s') && NoFlip(steps)
    ensures s'.root == s.root
    decreases |steps|
  {
    if steps != [] {
      hide ChainPage;
      var mid := Next(s, steps[0]).value;
      assert !steps[0].FlipRoot?;
      assert mid.root == s.root;
      hide Next;
      RootStays(mid, s', steps[1..]);
    }
  }

  /** Until a first catalog is persisted, a new system loads as one without tables, after any crash. */
  lemma FreshUntilFlip(s: World, steps: seq<Step>, log: ChainLog, ids: seq<PageId>, decode: Bytes -> Option<Catalog>)
    requires Run(EMPTY, steps) == Some(s) && NoFlip(steps) && s.from <= |log|
    ensures LoadCatalog(s.mem, s.root, ids, decode) == Some(map[])
    ensures LoadCatalog(Recovered(s, log), s.root, ids, decode) == Some(map[])
  {
    RootStays(EMPTY, s, steps);
    hide Recovered;
  }

  /** A new system has no catalog, which is safe. */
  lemma EmptyIsSafe()
    ensures Inv(EMPTY, []) && Safe(EMPTY, []) && EMPTY.stage.Resting?
  {
  }
}
