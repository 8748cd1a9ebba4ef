/**
  A writer that patches a leaf without its latch: it reads the leaf, and later writes back
  what it read with one row id replaced, whatever the threads of the tree did in between.
 */
module Unlatched {
  import opened Keys
  import opened Nodes
  import opened Shapes
  import opened Steps
  import opened Searches
  import opened Trees
  import opened Edits
  import opened Rewrites
  import opened Crabbing
  import opened CrabbingFrames
  import opened CrabbingSafety
  import opened CrabbingSteps
  import opened CrabbingLeaves
  import opened CrabbingRuns
  import opened Ledger

  /** What the unlatched writer has read and not written back yet. */
  datatype Hand = Empty | Has(pid: PageId, node: Node)

  datatype World = World(s: State, hand: Hand)

  /** A step of a thread of the tree, or the unlatched read or write-back. */
  datatype Event = Step(t: Tid, a: Action) | Peek(pid: PageId) | PutBack(at: nat, rid: RowId)

  /** The leaf is written as it was read, with another row id at `at`. */
  function Stamped(s: State, pid: PageId, n: Node, at: nat, rid: RowId): State {
    if n.Leaf? && at < |n.entries| then
      s.(pages := s.pages[pid := SetRid(n, at, rid)], applied := s.applied + {Entry(n.entries[at].key, rid)},
         gone := s.gone + {n.entries[at]})
    else s
  }

  function After(c: Config, w: World, ev: Event): Option<World> {
    match ev
    case Step(t, a) =>
      (match Next(c, w.s, t, a) case None => None case Some(s') => Some(World(s', w.hand)))
    case Peek(pid) =>
      if pid in w.s.pages && w.s.pages[pid].Leaf? then Some(w.(hand := Has(pid, w.s.pages[pid]))) else None
    case PutBack(at, rid) =>
      if w.hand.Has? && w.hand.node.Leaf? && at < |w.hand.node.entries| then
        Some(World(Stamped(w.s, w.hand.pid, w.hand.node, at, rid), Empty))
      else None
  }

  function Story(c: Config, w: World, events: seq<Event>): Option<World>
    decreases |events|
  {
    if events == [] then Some(w)
    else
      match After(c, w, events[0])
      case None => None
      case Some(w') => Story(c, w', events[1..])
  }

  // ── what the write-back does to the stored pairs ───────────────────────────

  lemma BagSwap(x: multiset<Entry>, h: multiset<Entry>, cur: multiset<Entry>, new': multiset<Entry>, n: multiset<Entry>,
                o: multiset<Entry>, r: multiset<Entry>)
    requires x + cur == h + new' && new' + o == n + r
    ensures x + cur + o == h + n + r
    ensures x + o == h + r <==> cur == n
  {
    forall e ensures (x + cur + o)[e] == (h + n + r)[e] {
      assert (x + cur)[e] == (h + new')[e] && (new' + o)[e] == (n + r)[e];
    }
    if x + o == h + r {
      forall e ensures cur[e] == n[e] {
        assert (x + cur + o)[e] == (h + n + r)[e] && (x + o)[e] == (h + r)[e];
      }
    }
    if cur == n {
      forall e ensures (x + o)[e] == (h + r)[e] {
        assert (x + cur + o)[e] == (h + n + r)[e];
      }
    }
  }

  /**
    Writing back exchanges what the leaf holds now for what it held when it was read. So it
    replaces one pair and changes nothing else, if and only if the leaf holds the same pairs,
    each as often, as when it was read.
   */
  lemma PutBackIff(s: State, leaves: set<PageId>, pid: PageId, n: Node, at: nat, rid: RowId)
    requires pid in leaves && pid in s.pages && n.Leaf? && at < |n.entries|
    ensures var s', old', now := Stamped(s, pid, n, at, rid), n.entries[at], Entry(n.entries[at].key, rid);
            && Stored(s'.pages, leaves) + Bag(s.pages[pid]) + multiset{old'}
               == Stored(s.pages, leaves) + Bag(n) + multiset{now}
            && (Stored(s'.pages, leaves) + multiset{old'} == Stored(s.pages, leaves) + multiset{now}
                <==> Bag(s.pages[pid]) == Bag(n))
  {
    var s' := Stamped(s, pid, n, at, rid);
    hide Stored;
    hide Bag;
    PatchBag(n, at, rid);
    BagIs(s.pages, pid);
    StoredWrite(s.pages, leaves, pid, SetRid(n, at, rid));
    BagSwap(Stored(s'.pages, leaves), Stored(s.pages, leaves), Bag(s.pages[pid]), Bag(SetRid(n, at, rid)), Bag(n),
            multiset{n.entries[at]}, multiset{Entry(n.entries[at].key, rid)});
  }

  /** The step writes the page. */
  predicate Touches(c: Config, s: State, t: Tid, a: Action, pid: PageId) {
    match Next(c, s, t, a)
    case None => false
    case Some(s') => !(pid in s.pages && pid in s'.pages && s'.pages[pid] == s.pages[pid])
  }

  predicate Untouched(c: Config, s: State, steps: Schedule, pid: PageId)
    decreases |steps|
  {
    steps == [] ||
    (!Touches(c, s, steps[0].0, steps[0].1, pid)
     && match Next(c, s, steps[0].0, steps[0].1)
        case None => true
        case Some(s') => Untouched(c, s', steps[1..], pid))
  }

  /** If no step between the read and the write-back changes the page, it is as it was read. */
  lemma {:induction false} UntouchedSame(c: Config, s: State, s': State, steps: Schedule, pid: PageId)
    requires pid in s.pages && Run(c, s, steps) == Some(s') && Untouched(c, s, steps, pid)
    ensures pid in s'.pages && s'.pages[pid] == s.pages[pid]
    decreases |steps|
  {
    hide Next;
    if steps != [] { UntouchedSame(c, Next(c, s, steps[0].0, steps[0].1).value, s', steps[1..], pid); }
  }

  /**
    Whatever the threads do between the read in state `s` and the write-back in state `s'`,
    the write-back replaces one pair and changes nothing else, if and only if the leaf holds
    in `s'` the pairs it held in `s`; which it does if no step in between writes it.
   */
  lemma WriteBackIff(c: Config, s: State, s': State, steps: Schedule, g: Shape, pend: set<PageId>, base: set<Entry>,
                     pid: PageId, at: nat, rid: RowId)
    returns (g': Ghosts)
    requires Inv(c, s, g, pend, base) && Run(c, s, steps) == Some(s') && pid in LeafPages(g)
    requires pid in s.pages && s.pages[pid].Leaf? && at < |s.pages[pid].entries|
    ensures Inv(c, s', g'.g, g'.pend, base) && pid in LeafPages(g'.g) && pid in s'.pages
    ensures var n := s.pages[pid];
            Balanced(s', Stamped(s', pid, n, at, rid), g'.g, g'.g, multiset{Entry(n.entries[at].key, rid)},
                     multiset{n.entries[at]})
            <==> Bag(s'.pages[pid]) == Bag(n)
    ensures Untouched(c, s, steps, pid) ==> s'.pages[pid] == s.pages[pid]
  {
    hide *;
    g' := RunConserves(c, s, s', steps, g, pend, base);
    assert pid in LeafPages(g'.g);
    TreeCovers(c, s', g'.g, g'.pend, base);
    LeafIn'(g'.g, pid);
    PutBackIff(s', LeafPages(g'.g), pid, s.pages[pid], at, rid);
    BalancedIs(s', Stamped(s', pid, s.pages[pid], at, rid), g'.g, g'.g,
               multiset{Entry(s.pages[pid].entries[at].key, rid)}, multiset{s.pages[pid].entries[at]});
    if Untouched(c, s, steps, pid) { UntouchedSame(c, s, s', steps, pid); }
  }

  lemma BalancedIs(s: State, s': State, g: Shape, g': Shape, brought: multiset<Entry>, took: multiset<Entry>)
    ensures Balanced(s, s', g, g', brought, took) <==>
              Stored(s'.pages, LeafPages(g')) + took == Stored(s.pages, LeafPages(g)) + brought
  {
    hide Stored;
    hide LeafPages;
  }

  /** An insert into the leaf after it was read is undone: the pair is stored once less. */
  lemma InsertBetweenIsLost(c: Config, s: State, m: State, t: Tid, a: Action, g: Shape, pend: set<PageId>,
                            base: set<Entry>,
                            at: nat, rid: RowId)
    requires Inv(c, s, g, pend, base) && Next(c, s, t, a) == Some(m) && a.InsertAtPos?
    requires t in s.threads && InPlace(c, s.threads[t].pc, a)
    requires var f := Top(s.threads[t].pc.frames); f.node.Leaf? && at < |f.node.entries|
    ensures var f := Top(s.threads[t].pc.frames);
            var e, old', now := EntryOf(s.threads[t].pc.job), f.node.entries[at], Entry(f.node.entries[at].key, rid);
            && f.pid in s.pages && s.pages[f.pid] == f.node
            && Stored(Stamped(m, f.pid, f.node, at, rid).pages, LeafPages(g)) + multiset{e} + multiset{old'}
               == Stored(m.pages, LeafPages(g)) + multiset{now}
  {
    hide *;
    PutEffect(c, s, m, t, a);
    var pc := s.threads[t].pc;
    var f := Top(pc.frames);
    AtLeaf(c, s, g, pend, base, t);
    PutGains(pc, a);
    GainOne(pc.job, f.node);
    LeafIn(g, f.pid);
    PutBackIff(m, LeafPages(g), f.pid, f.node, at, rid);
    LostSum(Stored(Stamped(m, f.pid, f.node, at, rid).pages, LeafPages(g)), Stored(m.pages, LeafPages(g)), Bag(f.node),
            multiset{EntryOf(pc.job)}, multiset{f.node.entries[at]}, multiset{Entry(f.node.entries[at].key, rid)});
  }

  lemma GainOne(job: Job, n: Node)
    requires job.task.PutOne?
    ensures Gain(job, n) == multiset{EntryOf(job)}
  {
  }

  lemma LostSum(x: multiset<Entry>, h: multiset<Entry>, n: multiset<Entry>, e: multiset<Entry>, o: multiset<Entry>,
                r: multiset<Entry>)
    requires x + (n + e) + o == h + n + r
    ensures x + e + o == h + r
  {
    forall k ensures (x + e + o)[k] == (h + r)[k] {
      assert (x + (n + e) + o)[k] == (h + n + r)[k];
    }
  }

  // ── what it does to the tree ───────────────────────────────────────────────

  lemma SetBack(n: Node, at: nat, rid: RowId)
    requires n.Leaf? && at < |n.entries|
    ensures SetRid(n, at, rid).Leaf? && |SetRid(n, at, rid).entries| == |n.entries|
    ensures SetRid(SetRid(n, at, rid), at, n.entries[at].rid) == n
  {
    assert n.entries[at := Entry(n.entries[at].key, rid)][at := n.entries[at]] == n.entries;
  }

  /** The pages still form the tree of this shape if and only if what was read is a leaf that fits there. */
  lemma PutBackTreeIff(c: Config, s: State, g: Shape, pend: set<PageId>, pid: PageId, n: Node, at: nat, rid: RowId)
    requires TreeInv(s.pages, s.root, g, pend, c.kind) && pid in LeafPages(g) && n.Leaf? && at < |n.entries|
    ensures TreeInv(Stamped(s, pid, n, at, rid).pages, s.root, g, pend, c.kind) <==>
              LeafOk(n, pid, g) && NodeKind(n, c.kind)
  {
    hide *;
    LeafIn'(g, pid);
    var n' := SetRid(n, at, rid);
    SetBack(n, at, rid);
    StampedPages(s, pid, n, at, rid);
    if LeafOk(n, pid, g) && NodeKind(n, c.kind) {
      SetOk(n, pid, g, c.kind, at, rid);
      RewriteLeaf(s.pages, s.root, g, pend, c.kind, pid, n');
    }
    if TreeInv(s.pages[pid := n'], s.root, g, pend, c.kind) {
      TreePage(s.pages[pid := n'], s.root, g, pend, c.kind, pid);
      SetOk(n', pid, g, c.kind, at, n.entries[at].rid);
    }
  }

  lemma LeafIn'(g: Shape, p: PageId)
    requires p in LeafPages(g)
    ensures p in g.spans && g.spans[p].level == 0
  {
  }

  lemma StampedPages(s: State, pid: PageId, n: Node, at: nat, rid: RowId)
    requires n.Leaf? && at < |n.entries|
    ensures var s' := Stamped(s, pid, n, at, rid);
            && s'.pages == s.pages[pid := SetRid(n, at, rid)] && s'.root == s.root && s'.threads == s.threads
            && s'.latches == s.latches && s'.next == s.next
            && s'.applied == s.applied + {Entry(n.entries[at].key, rid)} && s'.gone == s.gone + {n.entries[at]}
  {
    hide SetRid;
  }

  lemma NextUnique(g: Shape, p: PageId, n: Node, m: Node)
    requires ShapeOk(g) && LeafOk(n, p, g) && LeafOk(m, p, g)
    ensures n.next == m.next
  {
    hide PayloadsAligned;
    hide KeysSorted;
    hide EntriesWithin;
    assert SpanOk(g, p);
    if n.next != NO_PAGE { assert SpanOk(g, n.next); }
    if m.next != NO_PAGE { assert SpanOk(g, m.next); }
  }

  /** So if the leaf was split since it was read, the write-back breaks the tree. */
  lemma PutBackUndoesSplit(c: Config, s: State, g: Shape, pend: set<PageId>, pid: PageId, n: Node, at: nat, rid: RowId)
    requires TreeInv(s.pages, s.root, g, pend, c.kind) && pid in LeafPages(g) && n.Leaf? && at < |n.entries|
    requires pid in s.pages && s.pages[pid].Leaf? && n.next != s.pages[pid].next
    ensures !TreeInv(Stamped(s, pid, n, at, rid).pages, s.root, g, pend, c.kind)
  {
    hide *;
    LeafIn'(g, pid);
    PutBackTreeIff(c, s, g, pend, pid, n, at, rid);
    TreePage(s.pages, s.root, g, pend, c.kind, pid);
    ShapeParts(s.pages, s.root, g, pend, c.kind);
    if LeafOk(n, pid, g) { NextUnique(g, pid, n, s.pages[pid]); }
  }

  // ── threads that have latched the leaf ─────────────────────────────────────

  /** The thread has read the page under its latch and will write what it makes of that. */
  predicate Snapshot(pc: Pc, pid: PageId) {
    exists i :: 0 <= i < |FramesOf(pc)| && FramesOf(pc)[i].pid == pid
  }

  lemma FramesOther(c: Config, pages: Pages, root: PageId, g: Shape, job: Job, meta: bool, frames: seq<Frame>,
                    pid: PageId,
                    n: Node)
    requires FramesOk(c, pages, root, g, job, meta, frames) && forall i :: 0 <= i < |frames| ==> frames[i].pid != pid
    ensures FramesOk(c, pages[pid := n], root, g, job, meta, frames)
  {
    hide JobOk;
    hide InsertSafe;
    hide Linked;
  }

  lemma PcOther(c: Config, pages: Pages, root: PageId, g: Shape, pend: set<PageId>, pc: Pc, pid: PageId, n: Node)
    requires PcOk(c, pages, root, g, pend, pc) && !Snapshot(pc, pid) && OwnedBy(pc) != Some(pid)
    ensures PcOk(c, pages[pid := n], root, g, pend, pc)
  {
    hide FramesOk;
    hide InRange;
    hide FullOk;
    hide Waiting;
    hide Routed;
    hide RightHalf;
    hide RootWaiting;
    hide JobOk;
    hide FrameLatches;
    if FramesOf(pc) != [] {
      assert forall i :: 0 <= i < |FramesOf(pc)| ==> FramesOf(pc)[i].pid != pid;
      FramesOther(c, pages, root, g, pc.job, MetaOf(pc), FramesOf(pc), pid, n);
    } else {
      FramesSome(c, pages, root, g, pend, pc);
    }
  }

  lemma FramesSome(c: Config, pages: Pages, root: PageId, g: Shape, pend: set<PageId>, pc: Pc)
    requires PcOk(c, pages, root, g, pend, pc) && FramesOf(pc) == []
    ensures !(pc.Descend? || pc.WaitChild? || pc.ReadChild? || pc.Apply? || pc.WriteRight? || pc.WriteLeft?)
  {
    hide InRange;
    hide FullOk;
    hide Waiting;
    hide Routed;
    hide RightHalf;
    hide RootWaiting;
    hide JobOk;
  }

  /** The write-back of a page unchanged since it was read, if no thread has a snapshot of it. */
  lemma PutBackKeeps(c: Config, s: State, g: Shape, pend: set<PageId>, base: set<Entry>, pid: PageId, at: nat,
                     rid: RowId)
    requires Inv(c, s, g, pend, base) && pid in LeafPages(g) && pid in s.pages && s.pages[pid].Leaf?
    requires at < |s.pages[pid].entries| && forall t :: t in s.threads ==> !Snapshot(s.threads[t].pc, pid)
    ensures Inv(c, Stamped(s, pid, s.pages[pid], at, rid), g, pend, base)
  {
    hide *;
    var n := s.pages[pid];
    var s' := Stamped(s, pid, n, at, rid);
    var old', now := n.entries[at], Entry(n.entries[at].key, rid);
    StampedPages(s, pid, n, at, rid);
    LeafIn'(g, pid);
    TreeCovers(c, s, g, pend, base);
    TreePage(s.pages, s.root, g, pend, c.kind, pid);
    SetOk(n, pid, g, c.kind, at, rid);
    PatchKeeps(n, at, now);
    RewriteWrite(s.pages, s.root, g, pend, c.kind, pid, SetRid(n, at, rid), {old'}, {now});
    CountedRewrite(s.pages, g, s'.pages, base + s.applied, s.gone, {old'}, {now});
    assert base + s'.applied == base + s.applied + {now};
    TablesSame(c, s, s', g, pend, base, pid);
    forall t | t in s'.threads ensures ThreadOk(c, s', g, pend, t) {
      InvParts(c, s, g, pend, base, t);
      ThreadParts(c, s, g, pend, t);
      OwnedOutside(s, g, t, pid);
      PcOther(c, s.pages, s.root, g, pend, s.threads[t].pc, pid, SetRid(n, at, rid));
      ThreadIntro(c, s', g, pend, t);
    }
    InvIntro(c, s', g, pend, base);
  }

  lemma TablesSame(c: Config, s: State, s': State, g: Shape, pend: set<PageId>, base: set<Entry>, pid: PageId)
    requires Inv(c, s, g, pend, base) && s'.threads == s.threads && s'.latches == s.latches && s'.next == s.next
    requires s'.pages.Keys == s.pages.Keys
    ensures LatchesOk(s') && PendsOk(s', pend) && OwnedOk(s', g)
  {
    hide TreeInv;
    hide ThreadOk;
    hide Counted;
    hide PcHeld;
    hide PendOf;
    hide OwnedBy;
    assert LatchesOk(s) && PendsOk(s, pend) && OwnedOk(s, g);
    assert forall t, l :: Holds(s', t, l) <==> Holds(s, t, l);
  }

  lemma OwnedOutside(s: State, g: Shape, t: Tid, p: PageId)
    requires OwnedOk(s, g) && t in s.threads && p in g.spans
    ensures OwnedBy(s.threads[t].pc) != Some(p)
  {
    hide OwnedBy;
  }

  /**
    Written back unchanged since it was read, with one row id replaced, the page keeps the
    invariant of the tree's threads if and only if none of them has a snapshot of it.
   */
  lemma PutBackSafeIff(c: Config, s: State, g: Shape, pend: set<PageId>, base: set<Entry>, pid: PageId, at: nat,
                       rid: RowId)
    requires Inv(c, s, g, pend, base) && pid in LeafPages(g) && pid in s.pages && s.pages[pid].Leaf?
    requires at < |s.pages[pid].entries| && s.pages[pid].entries[at].rid != rid
    ensures Inv(c, Stamped(s, pid, s.pages[pid], at, rid), g, pend, base)
            <==> forall t :: t in s.threads ==> !Snapshot(s.threads[t].pc, pid)
  {
    hide Inv;
    hide LeafPages;
    var s' := Stamped(s, pid, s.pages[pid], at, rid);
    if forall t :: t in s.threads ==> !Snapshot(s.threads[t].pc, pid) {
      PutBackKeeps(c, s, g, pend, base, pid, at, rid);
    } else if Inv(c, s', g, pend, base) {
      var t :| t in s.threads && Snapshot(s.threads[t].pc, pid);
      SnapshotTrue(c, s, g, pend, base, t, pid);
      SnapshotTrue(c, s', g, pend, base, t, pid);
    }
  }

  lemma SnapshotTrue(c: Config, s: State, g: Shape, pend: set<PageId>, base: set<Entry>, t: Tid, pid: PageId)
    requires Inv(c, s, g, pend, base) && t in s.threads && Snapshot(s.threads[t].pc, pid)
    ensures pid in s.pages
    ensures forall i :: 0 <= i < |FramesOf(s.threads[t].pc)| && FramesOf(s.threads[t].pc)[i].pid == pid ==>
              FramesOf(s.threads[t].pc)[i].node == s.pages[pid]
  {
    InvParts(c, s, g, pend, base, t);
    hide Inv;
    hide TreeInv;
    hide LatchesOk;
    hide PendsOk;
    hide OwnedOk;
    hide Counted;
    StackOf(c, s, g, pend, t);
    hide ThreadOk;
  }
}
