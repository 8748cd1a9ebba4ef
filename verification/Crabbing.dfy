/**
  Any number of threads writing to one tree: inserters under latch coupling with safe-node
  early release, batch inserters that keep every latch from the meta page to the leaf, and
  writers that rewrite one latched leaf at a time. Every latch, read, page write,
  allocation and release is a step of its own, and any thread may take the next step.
 */
module Crabbing {
  import opened Keys
  import opened Nodes
  import opened Shapes
  import opened Steps
  import opened Merges
  import opened Searches
  import opened Rewrites

  /** Exclusive latches: the meta page's and one per node page. */
  datatype Latch = MetaLatch | PageLatch(page: PageId)

  /**
    What a writer is after: to put in one entry, to merge a sorted run into the leaf its
    first entry belongs to, or to rewrite entries of the leaves from its key on.
   */
  datatype Task = PutOne | PutRun(run: seq<Entry>) | Rework

  datatype Job = Job(key: Key, rid: RowId, payload: seq<byte>, task: Task)

  /** A latched node on the way down: its snapshot and the child index taken from it. */
  datatype Frame = Frame(pid: PageId, node: Node, route: nat)

  /** A separator on its way up, with the new right page it introduces. */
  datatype Sep = Sep(key: Key, child: PageId)

  /**
    Where a thread is. `meta` says whether the meta latch is still held, `frames` is
    the retained stack (its last element is the deepest node).
   */
  datatype Pc =
    | Idle
    | WaitMeta(job: Job)
    | ReadMeta(job: Job)
    | WaitRoot(job: Job, root: PageId)
    | ReadRoot(job: Job, root: PageId)
    | Descend(job: Job, meta: bool, frames: seq<Frame>)
    | WaitChild(job: Job, meta: bool, frames: seq<Frame>, child: PageId)
    | ReadChild(job: Job, meta: bool, frames: seq<Frame>, child: PageId)
    | Apply(job: Job, meta: bool, frames: seq<Frame>, pending: Option<Sep>)
    | WriteRight(job: Job, meta: bool, frames: seq<Frame>, pending: Option<Sep>, full: Node, right: PageId)
    | WriteLeft(job: Job, meta: bool, frames: seq<Frame>, pending: Option<Sep>, full: Node, right: PageId)
    | NewRoot(job: Job, root: PageId, sep: Sep)
    | WriteTop(job: Job, root: PageId, sep: Sep, top: PageId)
    | Repoint(job: Job, root: PageId, sep: Sep, top: PageId)
    | SeekRoot(job: Job)
    | Seek(job: Job, pid: PageId)
    | WaitLeaf(job: Job, pid: PageId)
    | Latched(job: Job, pid: PageId)

  /** `drop` holds the latches whose guards are being dropped, in any order. */
  datatype Thread = Thread(pc: Pc, drop: set<Latch>)

  type Tid = nat

  datatype Config = Config(cap: nat, kind: Kind)

  /** `applied` records the pairs whose leaf write has happened, `gone` those a rewrite took away. */
  datatype State = State(
    pages: Pages,
    root: PageId,
    next: nat,
    latches: map<Latch, Tid>,
    threads: map<Tid, Thread>,
    applied: set<Entry>,
    gone: set<Entry>)

  /**
    What a thread may do next: begin a job, take its next step, insert at a position
    a binary search can end at, find an exact duplicate, merge its run into its leaf,
    rewrite its leaf, move on to the next leaf, leave it, or drop one latch.
   */
  datatype Action =
    | Begin(job: Job)
    | Go
    | InsertAtPos(pos: nat)
    | Duplicate(at: nat)
    | MergeRun
    | Rewrite(edits: seq<Edit>)
    | StepRight
    | Leave
    | Release(latch: Latch)

  // ── latches a thread holds ─────────────────────────────────────────────────

  function FrameLatches(frames: seq<Frame>): set<Latch> {
    set f | f in frames :: PageLatch(f.pid)
  }

  function MetaPart(meta: bool): set<Latch> {
    if meta then {MetaLatch} else {}
  }

  function PcHeld(pc: Pc): set<Latch> {
    match pc
    case Idle => {}
    case WaitMeta(_) => {}
    case ReadMeta(_) => {MetaLatch}
    case WaitRoot(_, _) => {MetaLatch}
    case ReadRoot(_, root) => {MetaLatch, PageLatch(root)}
    case Descend(_, meta, frames) => MetaPart(meta) + FrameLatches(frames)
    case WaitChild(_, meta, frames, _) => MetaPart(meta) + FrameLatches(frames)
    case ReadChild(_, meta, frames, child) => MetaPart(meta) + FrameLatches(frames) + {PageLatch(child)}
    case Apply(_, meta, frames, _) => MetaPart(meta) + FrameLatches(frames)
    case WriteRight(_, meta, frames, _, _, _) => MetaPart(meta) + FrameLatches(frames)
    case WriteLeft(_, meta, frames, _, _, _) => MetaPart(meta) + FrameLatches(frames)
    case NewRoot(_, _, _) => {MetaLatch}
    case WriteTop(_, _, _, _) => {MetaLatch}
    case Repoint(_, _, _, _) => {MetaLatch}
    case SeekRoot(_) => {}
    case Seek(_, _) => {}
    case WaitLeaf(_, _) => {}
    case Latched(_, pid) => {PageLatch(pid)}
  }

  function Held(th: Thread): set<Latch> {
    PcHeld(th.pc) + th.drop
  }

  // ── the steps ──────────────────────────────────────────────────────────────

  function LeftHalf(full: Node, right: PageId): Node {
    if full.Leaf? then LeafLeft(full, right) else InternalLeft(full)
  }

  function RightHalf(full: Node): Node {
    if full.Leaf? then LeafRight(full) else InternalRight(full)
  }

  function SepOf(full: Node): Key {
    if full.Leaf? then LeafSep(full) else InternalSep(full)
  }

  function Move(s: State, t: Tid, pc: Pc): State {
    s.(threads := s.threads[t := Thread(pc, {})])
  }

  /** Take a free latch, or stay blocked. */
  function Lock(s: State, t: Tid, l: Latch, pc: Pc): Option<State> {
    if l in s.latches then None
    else Some(State(s.pages, s.root, s.next, s.latches[l := t], s.threads[t := Thread(pc, {})], s.applied, s.gone))
  }

  /** The operation returns: every guard it still holds is dropped. */
  function Finish(s: State, t: Tid, pc: Pc): State {
    s.(threads := s.threads[t := Thread(Idle, PcHeld(pc))])
  }

  function Write(s: State, p: PageId, n: Node): State {
    s.(pages := s.pages[p := n])
  }

  function Alloc(s: State): Option<PageId> {
    if s.next < NO_PAGE then Some(s.next as PageId) else None
  }

  function EntryOf(job: Job): Entry {
    Entry(job.key, job.rid)
  }

  /** `KeysSorted`, in terms of the comparison of keys. */
  predicate InKeyOrder(run: seq<Entry>) {
    forall i, j :: 0 <= i < j < |run| ==> !Less(run[j].key, run[i].key)
  }

  /** A job the tree can take: keys of its kind, and a run that is sorted and starts with the job's entry. */
  predicate JobOk(c: Config, job: Job) {
    && KindOf(job.key) == c.kind
    && (job.task.PutRun? ==>
          && job.task.run != [] && job.task.run[0] == EntryOf(job) && job.payload == [] && InKeyOrder(job.task.run)
          && forall e :: e in job.task.run ==> KindOf(e.key) == c.kind)
  }

  /** How many leading entries of the run lie between the keys of the leaf. */
  function RunFor(n: Node, run: seq<Entry>): (count: nat)
    ensures count <= |run|
  {
    if n.Leaf? && n.entries != [] then RunCount(run, n.entries[0].key, n.entries[|n.entries| - 1].key) else 0
  }

  /** The pairs a job's leaf write brings into leaf `n`. */
  function Taken(job: Job, n: Node): set<Entry> {
    if job.task.PutRun? then AsSet(job.task.run[..RunFor(n, job.task.run)]) else {EntryOf(job)}
  }

  /** A node that must split first allocates its right page. */
  function StartSplit(s: State, t: Tid, pc: Pc, full: Node): Option<State>
    requires pc.Apply?
  {
    match Alloc(s)
    case None => None
    case Some(right) =>
      Some(Move(s, t, WriteRight(pc.job, pc.meta, pc.frames, pc.pending, full, right)).(next := s.next + 1))
  }

  function GoDescend(s: State, t: Tid, pc: Pc): Option<State>
    requires pc.Descend? && pc.frames != []
  {
    var last := |pc.frames| - 1;
    var top := pc.frames[last];
    match top.node
    case Leaf(_, _, _) => Some(Move(s, t, Apply(pc.job, pc.meta, pc.frames, None)))
    case Internal(keys, children) =>
      var idx := RouteInsert(keys, pc.job.key);
      if idx < |children| then
        Some(Move(s, t, WaitChild(pc.job, pc.meta, pc.frames[last := top.(route := idx)], children[idx])))
      else None
  }

  function GoReadChild(c: Config, s: State, t: Tid, pc: Pc): Option<State>
    requires pc.ReadChild? && pc.child in s.pages
  {
    var node := s.pages[pc.child];
    var frame := Frame(pc.child, node, 0);
    if pc.job.task.PutOne? && InsertSafe(node, pc.job.key, |pc.job.payload|, c.cap) then
      Some(s.(threads := s.threads[t :=
        Thread(Descend(pc.job, false, [frame]), MetaPart(pc.meta) + FrameLatches(pc.frames))]))
    else Some(Move(s, t, Descend(pc.job, pc.meta, pc.frames + [frame])))
  }

  /** An internal node absorbs the separator, or splits. */
  function GoAbsorb(c: Config, s: State, t: Tid, pc: Pc): Option<State>
    requires pc.Apply? && pc.frames != [] && pc.pending.Some?
  {
    var top := pc.frames[|pc.frames| - 1];
    var full := InternalInsert(top.node, top.route, pc.pending.value.key, pc.pending.value.child);
    if BodyLen(full) <= c.cap then Some(Finish(Write(s, top.pid, full), t, pc))
    else StartSplit(s, t, pc, full)
  }

  /** The left half overwrites the node; its latch is dropped before the parent is touched. */
  function GoWriteLeft(s: State, t: Tid, pc: Pc): State
    requires pc.WriteLeft? && pc.frames != []
  {
    var last := |pc.frames| - 1;
    var top := pc.frames[last];
    var sep := Sep(SepOf(pc.full), pc.right);
    var pc' := if last == 0 then NewRoot(pc.job, s.root, sep)
               else Apply(pc.job, pc.meta, pc.frames[..last], Some(sep));
    var s' := Write(s, top.pid, LeftHalf(pc.full, pc.right));
    s'.(threads := s'.threads[t := Thread(pc', {PageLatch(top.pid)})],
        applied := if pc.full.Leaf? then s.applied + Taken(pc.job, top.node) else s.applied)
  }

  function GoStep(c: Config, s: State, t: Tid, pc: Pc): Option<State> {
    match pc
    case Idle => None
    case WaitMeta(job) => Lock(s, t, MetaLatch, ReadMeta(job))
    case ReadMeta(job) => Some(Move(s, t, WaitRoot(job, s.root)))
    case WaitRoot(job, root) => Lock(s, t, PageLatch(root), ReadRoot(job, root))
    case ReadRoot(job, root) =>
      if root in s.pages then Some(Move(s, t, Descend(job, true, [Frame(root, s.pages[root], 0)]))) else None
    case Descend(_, _, frames) => if frames == [] then None else GoDescend(s, t, pc)
    case WaitChild(job, meta, frames, child) => Lock(s, t, PageLatch(child), ReadChild(job, meta, frames, child))
    case ReadChild(_, _, _, child) => if child in s.pages then GoReadChild(c, s, t, pc) else None
    case Apply(_, _, frames, pending) => if frames == [] || pending.None? then None else GoAbsorb(c, s, t, pc)
    case WriteRight(job, meta, frames, pending, full, right) =>
      Some(Move(Write(s, right, RightHalf(full)), t, WriteLeft(job, meta, frames, pending, full, right)))
    case WriteLeft(_, _, frames, _, _, _) => if frames == [] then None else Some(GoWriteLeft(s, t, pc))
    case NewRoot(job, root, sep) =>
      (match Alloc(s)
       case None => None
       case Some(top) => Some(Move(s, t, WriteTop(job, root, sep, top)).(next := s.next + 1)))
    case WriteTop(job, root, sep, top) =>
      Some(Move(Write(s, top, Internal([sep.key], [root, sep.child])), t, Repoint(job, root, sep, top)))
    case Repoint(_, _, _, top) => Some(Finish(s.(root := top), t, pc))
    case SeekRoot(job) => Some(Move(s, t, Seek(job, s.root)))
    case Seek(_, pid) => if pid in s.pages then GoSeek(s, t, pc) else None
    case WaitLeaf(job, pid) => Lock(s, t, PageLatch(pid), Latched(job, pid))
    case Latched(_, _) => None
  }

  /** One unlatched read on the way to a leaf. */
  function GoSeek(s: State, t: Tid, pc: Pc): Option<State>
    requires pc.Seek? && pc.pid in s.pages
  {
    match s.pages[pc.pid]
    case Leaf(_, _, _) => Some(Move(s, t, WaitLeaf(pc.job, pc.pid)))
    case Internal(keys, children) =>
      var idx := RouteRead(Eq, keys, pc.job.key);
      if idx < |children| then Some(Move(s, t, Seek(pc.job, children[idx]))) else None
  }

  /** Inserting into the latched leaf: in place if it fits, else by a split. */
  function LeafStep(c: Config, s: State, t: Tid, pc: Pc, pos: nat): Option<State>
    requires pc.Apply? && pc.frames != []
  {
    var top := pc.frames[|pc.frames| - 1];
    if pc.job.task.PutOne? && top.node.Leaf? && pc.pending.None?
       && IsInsertPos(top.node.entries, EntryOf(pc.job), pos) then
      var full := LeafInsert(top.node, pos, EntryOf(pc.job), pc.job.payload);
      if BodyLen(full) <= c.cap then
        Some(Finish(Write(s, top.pid, full), t, pc).(applied := s.applied + {EntryOf(pc.job)}))
      else StartSplit(s, t, pc, full)
    else None
  }

  /**
    Merging the part of the run the latched leaf owns: in place if the merged leaf fits,
    by a split if it fits two pages. Otherwise, or if nothing of the run belongs here, the
    job returns without having written anything.
   */
  function MergeStep(c: Config, s: State, t: Tid, pc: Pc): Option<State>
    requires pc.Apply? && pc.frames != []
  {
    var top := pc.frames[|pc.frames| - 1];
    if pc.job.task.PutRun? && top.node.Leaf? && pc.pending.None? then
      var count := RunFor(top.node, pc.job.task.run);
      if count == 0 || top.node.payloads != [] then Some(Finish(s, t, pc))
      else
        var full := Leaf(Merged(top.node.entries, pc.job.task.run[..count]), [], top.node.next);
        if BodyLen(full) <= c.cap then
          Some(Finish(Write(s, top.pid, full), t, pc).(applied := s.applied + Taken(pc.job, top.node)))
        else if BodyLen(full) <= 2 * c.cap then StartSplit(s, t, pc, full)
        else Some(Finish(s, t, pc))
    else None
  }

  /** One page write rewrites the latched leaf, and the job returns. */
  function RewriteStep(c: Config, s: State, t: Tid, pc: Pc, edits: seq<Edit>): Option<State>
    requires pc.Latched?
  {
    if pc.pid in s.pages && s.pages[pc.pid].Leaf? then
      var n := s.pages[pc.pid];
      match EditAll(c.kind, n, n, edits)
      case None => None
      case Some(n') =>
        if BodyLen(n') <= c.cap || BodyLen(n') <= BodyLen(n) then
          Some(Finish(Write(s, pc.pid, n'), t, pc).(applied := s.applied + NewPairs(edits),
                                                    gone := s.gone + OldPairs(n, edits)))
        else None
    else None
  }

  /** Let go of the leaf and wait for the one to its right. */
  function RightStep(s: State, t: Tid, pc: Pc): Option<State>
    requires pc.Latched?
  {
    if pc.pid in s.pages && s.pages[pc.pid].Leaf? && s.pages[pc.pid].next != NO_PAGE then
      Some(s.(threads := s.threads[t := Thread(WaitLeaf(pc.job, s.pages[pc.pid].next), PcHeld(pc))]))
    else None
  }

  /** The pairs a step takes away. */
  function Lost(s: State, t: Tid, a: Action): set<Entry> {
    if a.Rewrite? && t in s.threads && s.threads[t].pc.Latched? && s.threads[t].pc.pid in s.pages then
      OldPairs(s.pages[s.threads[t].pc.pid], a.edits)
    else {}
  }

  function Next(c: Config, s: State, t: Tid, a: Action): Option<State> {
    if t !in s.threads then None
    else
      var th := s.threads[t];
      match a
      case Release(l) =>
        if l in th.drop then
          Some(s.(latches := s.latches - {l}, threads := s.threads[t := Thread(th.pc, th.drop - {l})]))
        else None
      case Begin(job) =>
        if th.pc.Idle? && th.drop == {} && JobOk(c, job) then
          Some(Move(s, t, if job.task.Rework? then SeekRoot(job) else WaitMeta(job)))
        else None
      case Go => if th.drop == {} then GoStep(c, s, t, th.pc) else None
      case InsertAtPos(pos) =>
        if th.drop == {} && th.pc.Apply? && th.pc.frames != [] then LeafStep(c, s, t, th.pc, pos) else None
      case Duplicate(at) =>
        if th.drop == {} && th.pc.Apply? && th.pc.frames != [] && th.pc.pending.None? && th.pc.job.task.PutOne? then
          var top := th.pc.frames[|th.pc.frames| - 1];
          if top.node.Leaf? && at < |top.node.entries| && top.node.entries[at] == EntryOf(th.pc.job) then
            Some(Finish(s, t, th.pc).(applied := s.applied + {EntryOf(th.pc.job)}))
          else None
        else None
      case MergeRun => if th.drop == {} && th.pc.Apply? && th.pc.frames != [] then MergeStep(c, s, t, th.pc) else None
      case Rewrite(edits) => if th.drop == {} && th.pc.Latched? then RewriteStep(c, s, t, th.pc, edits) else None
      case StepRight => if th.drop == {} && th.pc.Latched? then RightStep(s, t, th.pc) else None
      case Leave => if th.drop == {} && th.pc.Latched? then Some(Finish(s, t, th.pc)) else None
  }

  // ── the invariant ──────────────────────────────────────────────────────────

  /** A frame's snapshot is what its page holds. */
  ghost predicate FrameOk(pages: Pages, g: Shape, f: Frame) {
    f.pid in g.spans && f.pid in pages && pages[f.pid] == f.node
  }

  ghost predicate Linked(f: Frame, f': Frame) {
    f.node.Internal? && f.route < |f.node.children| && f.node.children[f.route] == f'.pid
  }

  /**
    The retained stack: true snapshots linked from parent to child, starting at the
    root with the meta latch held, or else, for a single entry, at a node that is safe for it.
   */
  ghost predicate FramesOk(c: Config, pages: Pages, root: PageId, g: Shape, job: Job, meta: bool, frames: seq<Frame>) {
    && frames != [] && JobOk(c, job) && !job.task.Rework?
    && (forall i :: 0 <= i < |frames| ==> FrameOk(pages, g, frames[i]))
    && (forall i :: 0 <= i < |frames| - 1 ==> Linked(frames[i], frames[i + 1]))
    && (forall i, j :: 0 <= i < j < |frames| ==> frames[i].pid != frames[j].pid)
    && (if meta then frames[0].pid == root
        else job.task.PutOne? && InsertSafe(frames[0].node, job.key, |job.payload|, c.cap))
  }

  function Top(frames: seq<Frame>): Frame
    requires frames != []
  {
    frames[|frames| - 1]
  }

  ghost predicate Routed(job: Job, f: Frame, child: PageId) {
    && f.node.Internal? && f.route == RouteInsert(f.node.keys, job.key)
    && f.route < |f.node.children| && f.node.children[f.route] == child
  }

  /** `full` holds the rows of `n` and brings in exactly the pairs in `new'`. */
  ghost predicate Adds(n: Node, full: Node, new': set<Entry>) {
    RowSet(n) <= RowSet(full) && Pairs(RowSet(full)) == Pairs(RowSet(n)) + new'
  }

  /** The entries a job's leaf write adds to leaf `n`, each as often as it does. */
  function Gain(job: Job, n: Node): multiset<Entry> {
    if !job.task.PutRun? then multiset{EntryOf(job)}
    else if n.Leaf? then multiset(Fresh(n.entries, job.task.run[..RunFor(n, job.task.run)]))
    else multiset{}
  }

  ghost predicate Gains(n: Node, full: Node, job: Job) {
    n.Leaf? && full.Leaf? && multiset(full.entries) == multiset(n.entries) + Gain(job, n)
  }

  /** The oversize node a thread is about to write as two halves. */
  ghost predicate FullOk(c: Config, g: Shape, pend: set<PageId>, job: Job, meta: bool, frames: seq<Frame>,
                         pending: Option<Sep>, full: Node)
  {
    && frames != [] && (|frames| == 1 ==> meta)
    && match pending
       case None =>
         && Top(frames).node.Leaf? && full.Leaf? && full.entries != []
         && LeafOk(full, Top(frames).pid, g) && NodeKind(full, c.kind)
         && Adds(Top(frames).node, full, Taken(job, Top(frames).node)) && Gains(Top(frames).node, full, job)
       case Some(sep) =>
         && Top(frames).node.Internal? && Branching(full)
         && full == InternalInsert(Top(frames).node, Top(frames).route, sep.key, sep.child)
         && Waiting(g, pend, c.kind, Top(frames).pid, Top(frames).node, Top(frames).route, sep.key, sep.child)
  }

  /** A root split whose new root is not in place yet. */
  ghost predicate RootWaiting(c: Config, root: PageId, root': PageId, g: Shape, pend: set<PageId>, sep: Sep) {
    && root' == root && root in g.spans && sep.child in pend && sep.child in g.spans && KindOf(sep.key) == c.kind
    && g.spans[sep.child] == Span(g.spans[root].level, g.spans[root].b, 1.0)
    && g.spans[sep.child].a in g.fence && g.fence[g.spans[sep.child].a] == Rank(sep.key)
  }

  ghost predicate PcOk(c: Config, pages: Pages, root: PageId, g: Shape, pend: set<PageId>, pc: Pc) {
    match pc
    case Idle => true
    case WaitMeta(job) => JobOk(c, job) && !job.task.Rework?
    case ReadMeta(job) => JobOk(c, job) && !job.task.Rework?
    case WaitRoot(job, r) => JobOk(c, job) && !job.task.Rework? && r == root
    case ReadRoot(job, r) => JobOk(c, job) && !job.task.Rework? && r == root
    case Descend(job, meta, frames) =>
      FramesOk(c, pages, root, g, job, meta, frames) && InRange(g, Top(frames).pid, job.key)
    case WaitChild(job, meta, frames, child) =>
      && FramesOk(c, pages, root, g, job, meta, frames) && InRange(g, Top(frames).pid, job.key)
      && Routed(job, Top(frames), child)
    case ReadChild(job, meta, frames, child) =>
      && FramesOk(c, pages, root, g, job, meta, frames) && InRange(g, Top(frames).pid, job.key)
      && Routed(job, Top(frames), child) && PageLatch(child) !in FrameLatches(frames)
    case Apply(job, meta, frames, pending) =>
      && FramesOk(c, pages, root, g, job, meta, frames)
      && (match pending
          case None => Top(frames).node.Leaf? && InRange(g, Top(frames).pid, job.key)
          case Some(sep) =>
            && Top(frames).node.Internal?
            && Waiting(g, pend, c.kind, Top(frames).pid, Top(frames).node, Top(frames).route, sep.key, sep.child))
    case WriteRight(job, meta, frames, pending, full, right) =>
      FramesOk(c, pages, root, g, job, meta, frames) && FullOk(c, g, pend, job, meta, frames, pending, full)
    case WriteLeft(job, meta, frames, pending, full, right) =>
      && FramesOk(c, pages, root, g, job, meta, frames) && FullOk(c, g, pend, job, meta, frames, pending, full)
      && right in pages && pages[right] == RightHalf(full)
    case NewRoot(job, r, sep) => RootWaiting(c, root, r, g, pend, sep)
    case WriteTop(job, r, sep, top) => RootWaiting(c, root, r, g, pend, sep)
    case Repoint(job, r, sep, top) =>
      && RootWaiting(c, root, r, g, pend, sep)
      && top in pages && pages[top] == Internal([sep.key], [r, sep.child])
    case SeekRoot(job) => job.task.Rework?
    case Seek(job, pid) => job.task.Rework? && pid in g.spans
    case WaitLeaf(job, pid) => job.task.Rework? && pid in g.spans && g.spans[pid].level == 0
    case Latched(job, pid) => job.task.Rework? && pid in g.spans && g.spans[pid].level == 0
  }

  /** The pending page a thread is responsible for. */
  function PendOf(pc: Pc): Option<PageId> {
    match pc
    case Apply(_, _, _, Some(sep)) => Some(sep.child)
    case WriteRight(_, _, _, Some(sep), _, _) => Some(sep.child)
    case WriteLeft(_, _, _, Some(sep), _, _) => Some(sep.child)
    case NewRoot(_, _, sep) => Some(sep.child)
    case WriteTop(_, _, sep, _) => Some(sep.child)
    case Repoint(_, _, sep, _) => Some(sep.child)
    case _ => None
  }

  /** The allocated page, not part of the tree yet, that only this thread writes. */
  function OwnedBy(pc: Pc): Option<PageId> {
    match pc
    case WriteRight(_, _, _, _, _, right) => Some(right)
    case WriteLeft(_, _, _, _, _, right) => Some(right)
    case WriteTop(_, _, _, top) => Some(top)
    case Repoint(_, _, _, top) => Some(top)
    case _ => None
  }

  ghost predicate ThreadOk(c: Config, s: State, g: Shape, pend: set<PageId>, t: Tid) {
    && t in s.threads
    && PcOk(c, s.pages, s.root, g, pend, s.threads[t].pc)
    && PcHeld(s.threads[t].pc) !! s.threads[t].drop
  }

  predicate Holds(s: State, t: Tid, l: Latch) {
    t in s.threads && l in Held(s.threads[t])
  }

  /** The latch table records exactly what the threads hold. */
  ghost predicate LatchesOk(s: State) {
    && (forall l :: l in s.latches ==> Holds(s, s.latches[l], l))
    && (forall t, l :: Holds(s, t, l) ==> l in s.latches && s.latches[l] == t)
  }

  ghost predicate PendsOk(s: State, pend: set<PageId>) {
    && (forall q :: q in pend ==> exists t :: t in s.threads && PendOf(s.threads[t].pc) == Some(q))
    && (forall t :: t in s.threads && PendOf(s.threads[t].pc).Some? ==> PendOf(s.threads[t].pc).value in pend)
    && (forall t, u :: t in s.threads && u in s.threads && t != u && PendOf(s.threads[t].pc).Some? ==>
          PendOf(s.threads[t].pc) != PendOf(s.threads[u].pc))
  }

  ghost predicate OwnedOk(s: State, g: Shape) {
    && (forall p :: p in s.pages ==> p < s.next)
    && (forall t :: t in s.threads && OwnedBy(s.threads[t].pc).Some? ==>
          var p := OwnedBy(s.threads[t].pc).value; p < s.next && p != NO_PAGE && p !in g.spans)
    && (forall t, u :: t in s.threads && u in s.threads && t != u && OwnedBy(s.threads[t].pc).Some? ==>
          OwnedBy(s.threads[t].pc) != OwnedBy(s.threads[u].pc))
  }

  /** The tree holds every pair of `have` that is not gone, and no other pair. */
  ghost predicate Counted(pages: Pages, g: Shape, have: set<Entry>, gone: set<Entry>) {
    have - gone <= Pairs(Rows(pages, g)) <= have
  }

  /** `base` is the set of pairs stored before any of these jobs. */
  ghost predicate Inv(c: Config, s: State, g: Shape, pend: set<PageId>, base: set<Entry>) {
    && TreeInv(s.pages, s.root, g, pend, c.kind)
    && LatchesOk(s) && PendsOk(s, pend) && OwnedOk(s, g)
    && (forall t {:trigger ThreadOk(c, s, g, pend, t)} :: t in s.threads ==> ThreadOk(c, s, g, pend, t))
    && Counted(s.pages, g, base + s.applied, s.gone)
  }
}
