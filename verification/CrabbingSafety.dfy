/**
  What every interleaving of concurrent writers keeps.
 */
module CrabbingSafety {
  import opened Keys
  import opened Nodes
  import opened Shapes
  import opened Steps
  import opened Crabbing
  import opened CrabbingFrames

  // ── the retained stack of a thread, whatever its program counter ───────────

  function FramesOf(pc: Pc): seq<Frame> {
    match pc
    case Descend(_, _, frames) => frames
    case WaitChild(_, _, frames, _) => frames
    case ReadChild(_, _, frames, _) => frames
    case Apply(_, _, frames, _) => frames
    case WriteRight(_, _, frames, _, _, _) => frames
    case WriteLeft(_, _, frames, _, _, _) => frames
    case _ => []
  }

  function MetaOf(pc: Pc): bool {
    match pc
    case Descend(_, meta, _) => meta
    case WaitChild(_, meta, _, _) => meta
    case ReadChild(_, meta, _, _) => meta
    case Apply(_, meta, _, _) => meta
    case WriteRight(_, meta, _, _, _, _) => meta
    case WriteLeft(_, meta, _, _, _, _) => meta
    case _ => false
  }

  lemma StackOf(c: Config, s: State, g: Shape, pend: set<PageId>, t: Tid)
    requires ThreadOk(c, s, g, pend, t) && FramesOf(s.threads[t].pc) != []
    ensures var pc := s.threads[t].pc;
            && !pc.Idle? && FramesOk(c, s.pages, s.root, g, pc.job, MetaOf(pc), FramesOf(pc))
            && FrameLatches(FramesOf(pc)) <= PcHeld(pc) && (MetaOf(pc) ==> MetaLatch in PcHeld(pc))
  {
    hide FramesOk;
    hide InRange;
    hide FullOk;
    hide Waiting;
    hide Routed;
  }

  lemma InvParts(c: Config, s: State, g: Shape, pend: set<PageId>, base: set<Entry>, t: Tid)
    requires Inv(c, s, g, pend, base) && t in s.threads
    ensures ThreadOk(c, s, g, pend, t) && TreeInv(s.pages, s.root, g, pend, c.kind)
    ensures LatchesOk(s) && PendsOk(s, pend) && OwnedOk(s, g)
    ensures Counted(s.pages, g, base + s.applied, s.gone)
  {
    hide ThreadOk;
    hide TreeInv;
    hide LatchesOk;
    hide PendsOk;
    hide OwnedOk;
    hide Counted;
  }

  /** Two threads never hold the same latch. */
  lemma Exclusive(s: State, t: Tid, u: Tid, l: Latch)
    requires LatchesOk(s) && t in s.threads && u in s.threads
    requires l in PcHeld(s.threads[t].pc) && l in PcHeld(s.threads[u].pc)
    ensures t == u
  {
    assert Holds(s, t, l) && Holds(s, u, l);
  }

  /** A latch of a program counter with a stack is in the stack, or on the child being read. */
  lemma HeldCases(c: Config, s: State, g: Shape, pend: set<PageId>, t: Tid, p: PageId)
    requires ThreadOk(c, s, g, pend, t) && PageLatch(p) in PcHeld(s.threads[t].pc)
    ensures var pc := s.threads[t].pc;
            || PageLatch(p) in FrameLatches(FramesOf(pc))
            || (pc.ReadRoot? && p == s.root)
            || (pc.Latched? && p in g.spans)
            || (pc.ReadChild? && p == pc.child && pc.frames != [] && Routed(pc.job, Top(pc.frames), p)
                && FramesOk(c, s.pages, s.root, g, pc.job, pc.meta, pc.frames))
  {
    hide FramesOk;
    hide InRange;
    hide FullOk;
    hide Waiting;
    hide FrameLatches;
    hide RootWaiting;
    hide RightHalf;
    if s.threads[t].pc.ReadChild? {
      var pc := s.threads[t].pc;
      FramesNonEmpty(c, s.pages, s.root, g, pc.job, pc.meta, pc.frames);
    }
  }

  /** Every latched node page belongs to the tree. */
  lemma HeldInTree(c: Config, s: State, g: Shape, pend: set<PageId>, base: set<Entry>, t: Tid, p: PageId)
    requires Inv(c, s, g, pend, base) && t in s.threads && PageLatch(p) in PcHeld(s.threads[t].pc)
    ensures p in g.spans
  {
    hide *;
    InvParts(c, s, g, pend, base, t);
    ShapeParts(s.pages, s.root, g, pend, c.kind);
    HeldCases(c, s, g, pend, t, p);
    RootInTree(g, s.root, pend);
    var pc := s.threads[t].pc;
    if PageLatch(p) in FrameLatches(FramesOf(pc)) {
      var k := FrameIndex(FramesOf(pc), p);
      FrameIsSound(c, s, g, pend, base, t, k);
    } else if pc.ReadChild? {
      TopIsSound(c, s.pages, s.root, g, pend, pc.job, pc.meta, pc.frames);
      RoutedInTree(g, pc.job, Top(pc.frames), p);
    }
  }

  lemma FrameIndex(frames: seq<Frame>, p: PageId) returns (k: nat)
    requires PageLatch(p) in FrameLatches(frames)
    ensures k < |frames| && frames[k].pid == p
  {
    var f :| f in frames && PageLatch(f.pid) == PageLatch(p);
    k :| k < |frames| && frames[k] == f;
  }

  lemma RootInTree(g: Shape, root: PageId, pend: set<PageId>)
    requires RootOk(g, root, pend)
    ensures root in g.spans && root !in pend && (forall p :: p in g.spans ==> g.spans[p].level <= g.spans[root].level)
  {
  }

  lemma RoutedInTree(g: Shape, job: Job, f: Frame, child: PageId)
    requires Routed(job, f, child) && (f.node.Internal? ==> ChildrenOk(f.node, f.pid, g))
    ensures child in g.spans
  {
  }

  // ── who owns a gap ─────────────────────────────────────────────────────────

  /** A pending page that fills a gap below a latched node belongs to the thread latching it. */
  lemma GapOwner(c: Config, s: State, g: Shape, pend: set<PageId>, base: set<Entry>, t: Tid, k: nat, i: nat, q: PageId)
    requires Inv(c, s, g, pend, base) && t in s.threads && k < |FramesOf(s.threads[t].pc)|
    requires q in pend && Fills(g, FramesOf(s.threads[t].pc)[k].pid, FramesOf(s.threads[t].pc)[k].node, i, q)
    ensures PendOf(s.threads[t].pc) == Some(q)
    ensures k == |FramesOf(s.threads[t].pc)| - 1 && i == FramesOf(s.threads[t].pc)[k].route
  {
    hide *;
    InvParts(c, s, g, pend, base, t);
    var u := OwnerOf(s, pend, q);
    InvParts(c, s, g, pend, base, u);
    OwnerTop(c, s, g, pend, base, t, k, i, q, u);
    var m := |FramesOf(s.threads[u].pc)| - 1;
    SameFrame(c, s, g, pend, base, t, k, m);
  }

  lemma OwnerOf(s: State, pend: set<PageId>, q: PageId) returns (u: Tid)
    requires PendsOk(s, pend) && q in pend
    ensures u in s.threads && PendOf(s.threads[u].pc) == Some(q)
  {
    u :| u in s.threads && PendOf(s.threads[u].pc) == Some(q);
  }

  lemma OwnerTop(c: Config, s: State, g: Shape, pend: set<PageId>, base: set<Entry>, t: Tid, k: nat, i: nat, q: PageId,
                 u: Tid)
    requires Inv(c, s, g, pend, base) && t in s.threads && u in s.threads && k < |FramesOf(s.threads[t].pc)|
    requires q in pend && Fills(g, FramesOf(s.threads[t].pc)[k].pid, FramesOf(s.threads[t].pc)[k].node, i, q)
    requires PendOf(s.threads[u].pc) == Some(q)
    ensures u == t && FramesOf(s.threads[t].pc) != []
    ensures var top := FramesOf(s.threads[t].pc)[|FramesOf(s.threads[t].pc)| - 1];
            top.pid == FramesOf(s.threads[t].pc)[k].pid && i == top.route
  {
    hide *;
    var f := FramesOf(s.threads[t].pc)[k];
    InvParts(c, s, g, pend, base, t);
    InvParts(c, s, g, pend, base, u);
    FrameIsSound(c, s, g, pend, base, t, k);
    ShapeParts(s.pages, s.root, g, pend, c.kind);
    OwnerWaits(c, s, g, pend, u, q);
    FillsParts(g, f.pid, f.node, i, q);
    FillsBelowRoot(g, s.root, pend, f.pid, f.node, i, q);
    assert FramesOf(s.threads[u].pc) != [];
    var m := |FramesOf(s.threads[u].pc)| - 1;
    var top := FramesOf(s.threads[u].pc)[m];
    FrameIsSound(c, s, g, pend, base, u, m);
    FillsUnique(g, f.pid, f.node, i, top.pid, top.node, top.route, q);
    Exclusive(s, t, u, PageLatch(f.pid));
  }

  lemma FrameIsSound(c: Config, s: State, g: Shape, pend: set<PageId>, base: set<Entry>, t: Tid, k: nat)
    requires Inv(c, s, g, pend, base) && t in s.threads && k < |FramesOf(s.threads[t].pc)|
    ensures var f := FramesOf(s.threads[t].pc)[k];
            && f.pid in g.spans && f.pid in s.pages && s.pages[f.pid] == f.node
            && PageLatch(f.pid) in PcHeld(s.threads[t].pc) && NodeKind(f.node, c.kind)
            && (g.spans[f.pid].level > 0 ==> InnerOk(f.node, f.pid, g, pend) && ChildrenOk(f.node, f.pid, g))
            && (f.node.Internal? <==> g.spans[f.pid].level > 0)
  {
    hide Inv;
    InvParts(c, s, g, pend, base, t);
    StackOf(c, s, g, pend, t);
    var f := FramesOf(s.threads[t].pc)[k];
    assert FrameOk(s.pages, g, f);
    assert PageLatch(f.pid) in FrameLatches(FramesOf(s.threads[t].pc));
    hide TreeInv;
    TreePage(s.pages, s.root, g, pend, c.kind, f.pid);
  }

  /** The owner of a pending page waits for its parent, or for a new root. */
  lemma OwnerWaits(c: Config, s: State, g: Shape, pend: set<PageId>, u: Tid, q: PageId)
    requires ThreadOk(c, s, g, pend, u) && PendOf(s.threads[u].pc) == Some(q)
    ensures var pc := s.threads[u].pc;
            if FramesOf(pc) == [] then
              && MetaLatch in PcHeld(pc) && s.root in g.spans && q in g.spans
              && g.spans[q] == Span(g.spans[s.root].level, g.spans[s.root].b, 1.0)
            else
              var top := FramesOf(pc)[|FramesOf(pc)| - 1];
              top.node.Internal? && Fills(g, top.pid, top.node, top.route, q)
  {
    hide FramesOk;
    hide RightHalf;
    hide InRange;
    hide Routed;
    hide LeafOk;
    hide RowSet;
    hide Fills;
    hide NodeKind;
    hide InternalInsert;
    match s.threads[u].pc
    case Apply(job, meta, frames, _) => FramesNonEmpty(c, s.pages, s.root, g, job, meta, frames);
    case WriteRight(job, meta, frames, _, _, _) => FramesNonEmpty(c, s.pages, s.root, g, job, meta, frames);
    case WriteLeft(job, meta, frames, _, _, _) => FramesNonEmpty(c, s.pages, s.root, g, job, meta, frames);
    case _ =>
  }

  /** A page that fills a gap lies below the root level. */
  lemma FillsBelowRoot(g: Shape, root: PageId, pend: set<PageId>, p: PageId, n: Node, i: nat, q: PageId)
    requires RootOk(g, root, pend) && p in g.spans && Fills(g, p, n, i, q) && q in g.spans
    requires n.Internal? && ChildrenOk(n, p, g)
    ensures root in g.spans && g.spans[q].level < g.spans[root].level
  {
  }

  /** Two frames of one stack on the same page are the same frame. */
  lemma SameFrame(c: Config, s: State, g: Shape, pend: set<PageId>, base: set<Entry>, t: Tid, k: nat, m: nat)
    requires Inv(c, s, g, pend, base) && t in s.threads
    requires k < |FramesOf(s.threads[t].pc)| && m < |FramesOf(s.threads[t].pc)|
    requires FramesOf(s.threads[t].pc)[k].pid == FramesOf(s.threads[t].pc)[m].pid
    ensures k == m
  {
    hide Inv;
    InvParts(c, s, g, pend, base, t);
    StackOf(c, s, g, pend, t);
  }

  /** Below a latched node only the owner's own pending page can leave a gap. */
  lemma NoGapBelow(c: Config, s: State, g: Shape, pend: set<PageId>, base: set<Entry>, t: Tid, k: nat, i: nat)
    requires Inv(c, s, g, pend, base) && t in s.threads && k < |FramesOf(s.threads[t].pc)|
    requires var f := FramesOf(s.threads[t].pc)[k];
             && f.node.Internal? && i < |f.node.children|
             && (PendOf(s.threads[t].pc).None? || k < |FramesOf(s.threads[t].pc)| - 1 || i != f.route)
    ensures var f := FramesOf(s.threads[t].pc)[k];
            && f.node.children[i] in g.spans && f.node.children[i] !in pend
            && g.spans[f.node.children[i]].b == ChildEnd(f.node, f.pid, g, i)
  {
    hide *;
    var f := FramesOf(s.threads[t].pc)[k];
    FrameIsSound(c, s, g, pend, base, t, k);
    var q := GapWitness(g, pend, f.pid, f.node, i);
    if q.Some? {
      GapOwner(c, s, g, pend, base, t, k, i, q.value);
    }
  }

  lemma GapWitness(g: Shape, pend: set<PageId>, p: PageId, n: Node, i: nat) returns (q: Option<PageId>)
    requires InnerOk(n, p, g, pend) && n.Internal? && i < |n.children|
    ensures n.children[i] in g.spans && n.children[i] !in pend
    ensures q.None? ==> g.spans[n.children[i]].b == ChildEnd(n, p, g, i)
    ensures q.Some? ==> q.value in pend && Fills(g, p, n, i, q.value)
  {
    assert Tiled(n, p, g, pend, i);
    var child := g.spans[n.children[i]];
    if child.b == ChildEnd(n, p, g, i) {
      q := None;
    } else {
      var x :| x in pend && x in g.spans && g.spans[x] == Span(child.level, child.b, ChildEnd(n, p, g, i));
      q := Some(x);
    }
  }

  /** While a thread holds the meta latch and carries no separator, the root spans everything. */
  lemma RootComplete(c: Config, s: State, g: Shape, pend: set<PageId>, base: set<Entry>, t: Tid)
    requires Inv(c, s, g, pend, base) && t in s.threads && MetaLatch in PcHeld(s.threads[t].pc)
    requires PendOf(s.threads[t].pc).None?
    ensures s.root in g.spans && g.spans[s.root].a == 0.0 && g.spans[s.root].b == 1.0
  {
    hide *;
    InvParts(c, s, g, pend, base, t);
    ShapeParts(s.pages, s.root, g, pend, c.kind);
    var q := RootGapWitness(g, s.root, pend);
    if q.Some? {
      var u := OwnerOf(s, pend, q.value);
      RootGapOwner(c, s, g, pend, base, u, q.value);
      Exclusive(s, t, u, MetaLatch);
    }
  }

  lemma RootGapWitness(g: Shape, root: PageId, pend: set<PageId>) returns (q: Option<PageId>)
    requires RootOk(g, root, pend)
    ensures root in g.spans && g.spans[root].a == 0.0
    ensures q.None? ==> g.spans[root].b == 1.0
    ensures q.Some? ==> q.value in pend && q.value in g.spans && g.spans[q.value].level == g.spans[root].level
  {
    if g.spans[root].b == 1.0 {
      q := None;
    } else {
      var x :| x in pend && x in g.spans && g.spans[x] == Span(g.spans[root].level, g.spans[root].b, 1.0);
      q := Some(x);
    }
  }

  /** A pending page on the root level belongs to the thread that holds the meta latch. */
  lemma RootGapOwner(c: Config, s: State, g: Shape, pend: set<PageId>, base: set<Entry>, u: Tid, q: PageId)
    requires Inv(c, s, g, pend, base) && u in s.threads && PendOf(s.threads[u].pc) == Some(q)
    requires s.root in g.spans && q in g.spans && g.spans[q].level == g.spans[s.root].level
    ensures FramesOf(s.threads[u].pc) == [] && MetaLatch in PcHeld(s.threads[u].pc)
    ensures g.spans[q] == Span(g.spans[s.root].level, g.spans[s.root].b, 1.0)
  {
    hide *;
    InvParts(c, s, g, pend, base, u);
    OwnerWaits(c, s, g, pend, u, q);
    if FramesOf(s.threads[u].pc) != [] {
      var m := |FramesOf(s.threads[u].pc)| - 1;
      var top := FramesOf(s.threads[u].pc)[m];
      FrameIsSound(c, s, g, pend, base, u, m);
      ShapeParts(s.pages, s.root, g, pend, c.kind);
      FillsBelowRoot(g, s.root, pend, top.pid, top.node, top.route, q);
    }
  }

  /** A node about to be split is no pending page, and no pending page follows it. */
  lemma SplitIsClear(c: Config, s: State, g: Shape, pend: set<PageId>, base: set<Entry>, t: Tid)
    requires Inv(c, s, g, pend, base) && t in s.threads
    requires var pc := s.threads[t].pc; pc.WriteLeft? && FramesOf(pc) != []
    ensures var p := Top(FramesOf(s.threads[t].pc)).pid; p !in pend && NoGapAfter(g, pend, p)
  {
    hide *;
    var pc := s.threads[t].pc;
    var frames := FramesOf(pc);
    var last := |frames| - 1;
    var p := Top(frames).pid;
    InvParts(c, s, g, pend, base, t);
    ShapeParts(s.pages, s.root, g, pend, c.kind);
    RootInTree(g, s.root, pend);
    SplitContext(c, s, g, pend, t);
    FrameIsSound(c, s, g, pend, base, t, last);
    if last > 0 {
      FrameIsSound(c, s, g, pend, base, t, last - 1);
      NoGapBelow(c, s, g, pend, base, t, last - 1, frames[last - 1].route);
    }
    var x := AfterWitness(g, pend, p);
    if x.Some? {
      var u := OwnerOf(s, pend, x.value);
      FollowerOwner(c, s, g, pend, base, t, u, x.value);
    }
  }

  /** The stack of a splitting thread: linked, and rooted if it has one frame only. */
  lemma SplitContext(c: Config, s: State, g: Shape, pend: set<PageId>, t: Tid)
    requires ThreadOk(c, s, g, pend, t) && s.threads[t].pc.WriteLeft?
    ensures var pc := s.threads[t].pc;
            && FramesOf(pc) == pc.frames != [] && Top(pc.frames) == pc.frames[|pc.frames| - 1]
            && (|pc.frames| == 1 ==> pc.frames[0].pid == s.root && MetaLatch in PcHeld(pc))
            && (|pc.frames| > 1 ==>
                  var f := pc.frames[|pc.frames| - 2];
                  && Linked(f, Top(pc.frames)) && f.node.Internal? && f.route < |f.node.children|
                  && f.node.children[f.route] == Top(pc.frames).pid)
  {
    hide Waiting;
    hide LeafOk;
    hide RowSet;
    hide RightHalf;
    hide InsertSafe;
  }

  lemma AfterWitness(g: Shape, pend: set<PageId>, p: PageId) returns (x: Option<PageId>)
    requires p in g.spans
    ensures x.None? ==> NoGapAfter(g, pend, p)
    ensures x.Some? ==> x.value in pend && x.value in g.spans
                        && g.spans[x.value].level == g.spans[p].level && g.spans[x.value].a == g.spans[p].b
  {
    if NoGapAfter(g, pend, p) {
      x := None;
    } else {
      var y :| y in pend && y in g.spans && p in g.spans && g.spans[y].level == g.spans[p].level
               && g.spans[y].a == g.spans[p].b;
      x := Some(y);
    }
  }

  /** Nobody owns a pending page right after a node that thread `t` is splitting. */
  lemma FollowerOwner(c: Config, s: State, g: Shape, pend: set<PageId>, base: set<Entry>, t: Tid, u: Tid, x: PageId)
    requires Inv(c, s, g, pend, base) && t in s.threads && u in s.threads
    requires s.threads[t].pc.WriteLeft? && FramesOf(s.threads[t].pc) != []
    requires PendOf(s.threads[u].pc) == Some(x) && x in g.spans && Top(FramesOf(s.threads[t].pc)).pid in g.spans
    requires g.spans[x].level == g.spans[Top(FramesOf(s.threads[t].pc)).pid].level
    ensures g.spans[x].a != g.spans[Top(FramesOf(s.threads[t].pc)).pid].b
  {
    hide *;
    var frames := FramesOf(s.threads[t].pc);
    var last := |frames| - 1;
    var p := Top(frames).pid;
    if g.spans[x].a == g.spans[p].b {
      InvParts(c, s, g, pend, base, t);
      InvParts(c, s, g, pend, base, u);
      ShapeParts(s.pages, s.root, g, pend, c.kind);
      SplitContext(c, s, g, pend, t);
      OwnerWaits(c, s, g, pend, u, x);
      RootInTree(g, s.root, pend);
      if FramesOf(s.threads[u].pc) == [] {
        EndUnique(g, p, s.root);
        if last == 0 {
          Exclusive(s, t, u, MetaLatch);
        } else {
          FrameIsSound(c, s, g, pend, base, t, last - 1);
          ChildLevel(g, frames[last - 1].pid, frames[last - 1].node, frames[last - 1].route);
        }
      } else {
        var m := |FramesOf(s.threads[u].pc)| - 1;
        var top := FramesOf(s.threads[u].pc)[m];
        FrameIsSound(c, s, g, pend, base, u, m);
        FillsShape(g, top.pid, top.node, top.route, x);
        EndUnique(g, p, top.node.children[top.route]);
        ChildLevel(g, top.pid, top.node, top.route);
        if last > 0 {
          FrameIsSound(c, s, g, pend, base, t, last - 1);
          var f := frames[last - 1];
          ChildrenCount(f.node, f.pid, g);
          ChildrenCount(top.node, top.pid, g);
          ParentUnique(g, f.pid, f.node, f.route, top.pid, top.node, top.route);
          Exclusive(s, t, u, PageLatch(f.pid));
          SameFrame(c, s, g, pend, base, t, last - 1, m);
        }
      }
    }
  }

  lemma ChildLevel(g: Shape, p: PageId, n: Node, i: nat)
    requires n.Internal? && ChildrenOk(n, p, g) && i < |n.children|
    ensures p in g.spans && n.children[i] in g.spans && g.spans[n.children[i]].level + 1 == g.spans[p].level
  {
  }

  lemma FillsShape(g: Shape, p: PageId, n: Node, at: nat, q: PageId)
    requires Fills(g, p, n, at, q)
    ensures n.Internal? && at < |n.children| && n.children[at] in g.spans && q in g.spans
    ensures g.spans[q].level == g.spans[n.children[at]].level && g.spans[q].a == g.spans[n.children[at]].b
  {
  }
}
