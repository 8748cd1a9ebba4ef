/**
  The steps of an inserter on its way down and at its leaf keep the invariant.
 */
module CrabbingSteps {
  import opened Keys
  import opened Nodes
  import opened Shapes
  import opened Steps
  import opened Crabbing
  import opened CrabbingFrames
  import opened CrabbingSafety

  // ── bookkeeping shared by all steps ────────────────────────────────────────

  ghost predicate OnlyThread(s: State, s': State, t: Tid) {
    && t in s.threads && s'.threads.Keys == s.threads.Keys
    && (forall u :: u in s.threads && u != t ==> s'.threads[u] == s.threads[u])
  }

  lemma LatchesSame(s: State, s': State, t: Tid)
    requires LatchesOk(s) && OnlyThread(s, s', t) && s'.latches == s.latches
    requires Held(s'.threads[t]) == Held(s.threads[t])
    ensures LatchesOk(s')
  {
    hide Held;
    forall u, l | Holds(s', u, l) ensures l in s'.latches && s'.latches[l] == u {
      assert Holds(s, u, l);
    }
    forall l | l in s'.latches ensures Holds(s', s'.latches[l], l) {
      assert Holds(s, s.latches[l], l);
    }
  }

  lemma LatchTaken(s: State, s': State, t: Tid, l: Latch)
    requires LatchesOk(s) && OnlyThread(s, s', t) && l !in s.latches && s'.latches == s.latches[l := t]
    requires Held(s'.threads[t]) == Held(s.threads[t]) + {l}
    ensures LatchesOk(s')
  {
    hide Held;
    forall u, k | Holds(s', u, k) ensures k in s'.latches && s'.latches[k] == u {
      if k != l || u != t { assert Holds(s, u, k); }
    }
    forall k | k in s'.latches ensures Holds(s', s'.latches[k], k) {
      if k != l { assert Holds(s, s.latches[k], k); }
    }
  }

  lemma LatchDropped(s: State, s': State, t: Tid, l: Latch)
    requires LatchesOk(s) && OnlyThread(s, s', t) && l in Held(s.threads[t]) && s'.latches == s.latches - {l}
    requires Held(s'.threads[t]) == Held(s.threads[t]) - {l}
    ensures LatchesOk(s')
  {
    hide Held;
    assert Holds(s, t, l);
    forall u, k | Holds(s', u, k) ensures k in s'.latches && s'.latches[k] == u {
      assert Holds(s, u, k);
    }
    forall k | k in s'.latches ensures Holds(s', s'.latches[k], k) {
      assert Holds(s, s.latches[k], k);
    }
  }

  function PendSet(q: Option<PageId>): set<PageId> {
    if q.Some? then {q.value} else {}
  }

  lemma PendsMoved(s: State, s': State, t: Tid, pend: set<PageId>, pend': set<PageId>)
    requires PendsOk(s, pend) && OnlyThread(s, s', t)
    requires pend' == pend - PendSet(PendOf(s.threads[t].pc)) + PendSet(PendOf(s'.threads[t].pc))
    requires PendOf(s'.threads[t].pc).Some? && PendOf(s'.threads[t].pc) != PendOf(s.threads[t].pc) ==>
               PendOf(s'.threads[t].pc).value !in pend
    ensures PendsOk(s', pend')
  {
    hide PendOf;
    forall q | q in pend' ensures exists u :: u in s'.threads && PendOf(s'.threads[u].pc) == Some(q) {
      if PendOf(s'.threads[t].pc) != Some(q) {
        var u :| u in s.threads && PendOf(s.threads[u].pc) == Some(q);
        assert u in s'.threads && PendOf(s'.threads[u].pc) == Some(q);
      }
    }
  }

  lemma OwnedMoved(s: State, s': State, t: Tid, g: Shape, g': Shape)
    requires OwnedOk(s, g) && OnlyThread(s, s', t) && s.next <= s'.next && g.spans.Keys <= s.pages.Keys
    requires forall p :: p in s'.pages ==> p in s.pages || OwnedBy(s.threads[t].pc) == Some(p)
    requires g'.spans.Keys <= g.spans.Keys + PendSet(OwnedBy(s.threads[t].pc))
    requires var o := OwnedBy(s'.threads[t].pc);
             o.Some? ==>
               && (o == OwnedBy(s.threads[t].pc)
                   || (o.value as int == s.next && s.next < s'.next && o.value != NO_PAGE))
                         && o.value !in g'.spans
    ensures OwnedOk(s', g')
  {
    hide OwnedBy;
  }

  /** What the other threads know is untouched by a step of thread `t`. */
  lemma OthersKept(c: Config, s: State, s': State, t: Tid, g: Shape, g': Shape, pend: set<PageId>, pend': set<PageId>,
                   base: set<Entry>, x: Option<PageId>, u: Tid)
    requires Inv(c, s, g, pend, base) && OnlyThread(s, s', t) && u in s.threads && u != t
    requires PendsOk(s', pend') && ShapeStep(g, g', pend, x)
    requires x.Some? ==> PageLatch(x.value) in PcHeld(s.threads[t].pc)
    requires WritesOwn(s, s', t)
    ensures ThreadOk(c, s', g', pend', u)
  {
    hide *;
    OnlyThreadParts(s, s', t, u);
    InvParts(c, s, g, pend, base, t);
    InvParts(c, s, g, pend, base, u);
    var pc := s.threads[u].pc;
    forall p | p in s.pages && (PageLatch(p) in PcHeld(pc) || OwnedBy(pc) == Some(p))
      ensures p in s'.pages && s'.pages[p] == s.pages[p]
    {
      WritesOwnParts(s, s', t, p);
      if PageLatch(p) in PcHeld(s.threads[t].pc) {
        HeldInTree(c, s, g, pend, base, t, p);
        if PageLatch(p) in PcHeld(pc) { Exclusive(s, t, u, PageLatch(p)); }
        else { OwnedParts(s, g, u, t); }
      } else if OwnedBy(s.threads[t].pc) == Some(p) {
        OwnedParts(s, g, t, u);
        if PageLatch(p) in PcHeld(pc) { HeldInTree(c, s, g, pend, base, u, p); }
      }
    }
    PagesKeptIntro(pc, s.pages, s'.pages);
    if MetaLatch in PcHeld(pc) && s'.root != s.root {
      WritesOwnRoot(s, s', t);
      Exclusive(s, t, u, MetaLatch);
    }
    if x.Some? && PageLatch(x.value) in PcHeld(pc) { Exclusive(s, t, u, PageLatch(x.value)); }
    PendParts(s', pend', u);
    ThreadParts(c, s, g, pend, u);
    PcKept(c, s.pages, s'.pages, s.root, s'.root, g, g', pend, pend', x, pc);
    ThreadIntro(c, s', g', pend', u);
  }

  /** Thread `t` wrote only pages it has latched or owns, and the meta page only under its latch. */
  ghost predicate WritesOwn(s: State, s': State, t: Tid) {
    && t in s.threads
    && (forall p :: p in s.pages ==>
          p in s'.pages
          && (s'.pages[p] == s.pages[p] || PageLatch(p) in PcHeld(s.threads[t].pc)
              || OwnedBy(s.threads[t].pc) == Some(p)))
    && (s'.root != s.root ==> MetaLatch in PcHeld(s.threads[t].pc))
  }

  lemma WritesOwnParts(s: State, s': State, t: Tid, p: PageId)
    requires WritesOwn(s, s', t) && p in s.pages
    ensures t in s.threads && p in s'.pages
    ensures s'.pages[p] == s.pages[p] || PageLatch(p) in PcHeld(s.threads[t].pc) || OwnedBy(s.threads[t].pc) == Some(p)
  {
    hide PcHeld;
    hide OwnedBy;
  }

  lemma WritesOwnRoot(s: State, s': State, t: Tid)
    requires WritesOwn(s, s', t) && s'.root != s.root
    ensures t in s.threads && MetaLatch in PcHeld(s.threads[t].pc)
  {
    hide PcHeld;
    hide OwnedBy;
  }

  lemma OwnedParts(s: State, g: Shape, t: Tid, u: Tid)
    requires OwnedOk(s, g) && t in s.threads && u in s.threads && t != u && OwnedBy(s.threads[t].pc).Some?
    ensures OwnedBy(s.threads[t].pc).value !in g.spans && OwnedBy(s.threads[t].pc) != OwnedBy(s.threads[u].pc)
  {
    hide OwnedBy;
  }

  lemma PagesKeptIntro(pc: Pc, pages: Pages, pages': Pages)
    requires forall p :: p in pages && (PageLatch(p) in PcHeld(pc) || OwnedBy(pc) == Some(p)) ==>
               p in pages' && pages'[p] == pages[p]
    ensures PagesKept(pc, pages, pages')
  {
    hide PcHeld;
    hide OwnedBy;
  }

  lemma PendParts(s: State, pend: set<PageId>, u: Tid)
    requires PendsOk(s, pend) && u in s.threads
    ensures PendOf(s.threads[u].pc).Some? ==> PendOf(s.threads[u].pc).value in pend
  {
    hide PendOf;
  }

  lemma ThreadParts(c: Config, s: State, g: Shape, pend: set<PageId>, u: Tid)
    requires ThreadOk(c, s, g, pend, u)
    ensures u in s.threads && PcOk(c, s.pages, s.root, g, pend, s.threads[u].pc)
    ensures PcHeld(s.threads[u].pc) !! s.threads[u].drop
  {
    hide PcOk;
    hide PcHeld;
  }

  lemma ThreadIntro(c: Config, s: State, g: Shape, pend: set<PageId>, u: Tid)
    requires u in s.threads && PcOk(c, s.pages, s.root, g, pend, s.threads[u].pc)
    requires PcHeld(s.threads[u].pc) !! s.threads[u].drop
    ensures ThreadOk(c, s, g, pend, u)
  {
    hide PcOk;
    hide PcHeld;
  }

  lemma OnlyThreadParts(s: State, s': State, t: Tid, u: Tid)
    requires OnlyThread(s, s', t) && u in s.threads && u != t
    ensures t in s.threads && u in s'.threads && s'.threads[u] == s.threads[u]
  {
  }

  /** A step that keeps each part of the invariant keeps the invariant. */
  lemma Assemble(c: Config, s: State, s': State, t: Tid, g: Shape, g': Shape, pend: set<PageId>, pend': set<PageId>,
                 base: set<Entry>, x: Option<PageId>)
    requires Inv(c, s, g, pend, base) && OnlyThread(s, s', t)
    requires TreeInv(s'.pages, s'.root, g', pend', c.kind)
    requires LatchesOk(s') && PendsOk(s', pend') && OwnedOk(s', g')
    requires ThreadOk(c, s', g', pend', t)
    requires ShapeStep(g, g', pend, x) && (x.Some? ==> PageLatch(x.value) in PcHeld(s.threads[t].pc))
    requires WritesOwn(s, s', t)
    requires Counted(s'.pages, g', base + s'.applied, s'.gone)
    ensures Inv(c, s', g', pend', base)
  {
    hide *;
    forall u | u in s'.threads ensures ThreadOk(c, s', g', pend', u) {
      if u != t {
        OnlyThreadBack(s, s', t, u);
        OthersKept(c, s, s', t, g, g', pend, pend', base, x, u);
      }
    }
    InvIntro(c, s', g', pend', base);
  }

  lemma OnlyThreadBack(s: State, s': State, t: Tid, u: Tid)
    requires OnlyThread(s, s', t) && u in s'.threads
    ensures u in s.threads
  {
  }

  lemma InvIntro(c: Config, s: State, g: Shape, pend: set<PageId>, base: set<Entry>)
    requires TreeInv(s.pages, s.root, g, pend, c.kind) && LatchesOk(s) && PendsOk(s, pend) && OwnedOk(s, g)
    requires forall t :: t in s.threads ==> ThreadOk(c, s, g, pend, t)
    requires Counted(s.pages, g, base + s.applied, s.gone)
    ensures Inv(c, s, g, pend, base)
  {
    hide ThreadOk;
    hide TreeInv;
    hide LatchesOk;
    hide PendsOk;
    hide OwnedOk;
    hide Counted;
  }

  // ── steps that change no page ──────────────────────────────────────────────

  lemma ShapeSame(g: Shape, pend: set<PageId>)
    ensures ShapeStep(g, g, pend, None)
  {
  }

  /** Steps that only move the thread, allocate, or take or drop latches. */
  lemma QuietStep(c: Config, s: State, s': State, t: Tid, g: Shape, pend: set<PageId>, base: set<Entry>)
    requires Inv(c, s, g, pend, base) && OnlyThread(s, s', t) && LatchesOk(s') && ThreadOk(c, s', g, pend, t)
    requires s'.pages == s.pages && s'.root == s.root && s.next <= s'.next
    requires PendOf(s'.threads[t].pc) == PendOf(s.threads[t].pc)
    requires var o := OwnedBy(s'.threads[t].pc);
             o.Some? ==>
               || o == OwnedBy(s.threads[t].pc)
               || (o.value as int == s.next && s.next < s'.next && o.value != NO_PAGE)
    requires Counted(s'.pages, g, base + s'.applied, s'.gone)
    ensures Inv(c, s', g, pend, base)
  {
    hide *;
    OnlyThreadSelf(s, s', t);
    InvParts(c, s, g, pend, base, t);
    ShapeParts(s.pages, s.root, g, pend, c.kind);
    PendParts(s, pend, t);
    PendSetBack(pend, PendOf(s.threads[t].pc));
    PendsMoved(s, s', t, pend, pend);
    NewPageOutside(s, g, t);
    OwnedMoved(s, s', t, g, g);
    ShapeSame(g, pend);
    WritesNothing(s, s', t);
    Assemble(c, s, s', t, g, g, pend, pend, base, None);
  }

  lemma OnlyThreadSelf(s: State, s': State, t: Tid)
    requires OnlyThread(s, s', t)
    ensures t in s.threads && t in s'.threads
  {
  }

  lemma PendSetBack(pend: set<PageId>, q: Option<PageId>)
    requires q.Some? ==> q.value in pend
    ensures pend == pend - PendSet(q) + PendSet(q)
  {
  }

  lemma NewPageOutside(s: State, g: Shape, t: Tid)
    requires OwnedOk(s, g) && t in s.threads && g.spans.Keys <= s.pages.Keys
    ensures forall p: PageId :: p as int == s.next ==> p !in g.spans
    ensures OwnedBy(s.threads[t].pc).Some? ==> OwnedBy(s.threads[t].pc).value !in g.spans
    ensures forall u :: u in s.threads && OwnedBy(s.threads[u].pc).Some? ==>
              OwnedBy(s.threads[u].pc).value as int < s.next
  {
    hide OwnedBy;
  }

  lemma WritesNothing(s: State, s': State, t: Tid)
    requires t in s.threads && s'.pages == s.pages && s'.root == s.root
    ensures WritesOwn(s, s', t)
  {
    hide PcHeld;
    hide OwnedBy;
  }

  lemma ReleaseStep(c: Config, s: State, s': State, t: Tid, l: Latch, g: Shape, pend: set<PageId>, base: set<Entry>)
    requires Inv(c, s, g, pend, base) && t in s.threads && l in s.threads[t].drop
    requires s' == s.(latches := s.latches - {l},
                      threads := s.threads[t := Thread(s.threads[t].pc, s.threads[t].drop - {l})])
    ensures Inv(c, s', g, pend, base)
  {
    hide *;
    InvParts(c, s, g, pend, base, t);
    ThreadParts(c, s, g, pend, t);
    OnlyThreadIntro(s, s', t);
    HeldWithout(s.threads[t], l);
    LatchDropped(s, s', t, l);
    ThreadIntro(c, s', g, pend, t);
    QuietStep(c, s, s', t, g, pend, base);
  }

  lemma HeldWithout(th: Thread, l: Latch)
    requires l in th.drop && PcHeld(th.pc) !! th.drop
    ensures l in Held(th) && Held(Thread(th.pc, th.drop - {l})) == Held(th) - {l}
  {
    hide PcHeld;
  }

  lemma OnlyThreadIntro(s: State, s': State, t: Tid)
    requires t in s.threads && t in s'.threads && s'.threads == s.threads[t := s'.threads[t]]
    ensures OnlyThread(s, s', t)
  {
  }

  /** The thread moves on, holding the same latches; it may have allocated a page. */
  lemma MoveStep(c: Config, s: State, s': State, t: Tid, pc': Pc, drop': set<Latch>, g: Shape, pend: set<PageId>,
                 base: set<Entry>)
    requires Inv(c, s, g, pend, base) && t in s.threads && s.threads[t].drop == {}
    requires s'.threads == s.threads[t := Thread(pc', drop')] && s'.latches == s.latches
    requires s'.pages == s.pages && s'.root == s.root && s.next <= s'.next
    requires PcHeld(pc') + drop' == PcHeld(s.threads[t].pc) && PcHeld(pc') !! drop'
    requires PendOf(pc') == PendOf(s.threads[t].pc)
    requires var o := OwnedBy(pc');
             o.Some? ==>
               || o == OwnedBy(s.threads[t].pc)
               || (o.value as int == s.next && s.next < s'.next && o.value != NO_PAGE)
    requires PcOk(c, s.pages, s.root, g, pend, pc')
    requires Counted(s.pages, g, base + s'.applied, s'.gone)
    ensures Inv(c, s', g, pend, base)
  {
    hide *;
    InvParts(c, s, g, pend, base, t);
    OnlyThreadIntro(s, s', t);
    HeldIs(s.threads[t]);
    HeldIs(s'.threads[t]);
    LatchesSame(s, s', t);
    ThreadIntro(c, s', g, pend, t);
    QuietStep(c, s, s', t, g, pend, base);
  }

  lemma HeldIs(th: Thread)
    ensures Held(th) == PcHeld(th.pc) + th.drop
  {
    hide PcHeld;
  }

  /** The thread takes a free latch. */
  lemma LockStep(c: Config, s: State, s': State, t: Tid, l: Latch, pc': Pc, g: Shape, pend: set<PageId>,
                 base: set<Entry>)
    requires Inv(c, s, g, pend, base) && t in s.threads && s.threads[t].drop == {} && l !in s.latches
    requires s' == s.(latches := s.latches[l := t], threads := s.threads[t := Thread(pc', {})])
    requires PcHeld(pc') == PcHeld(s.threads[t].pc) + {l}
    requires PendOf(pc') == PendOf(s.threads[t].pc) && OwnedBy(pc').None?
    requires PcOk(c, s.pages, s.root, g, pend, pc')
    ensures Inv(c, s', g, pend, base)
  {
    hide *;
    InvParts(c, s, g, pend, base, t);
    OnlyThreadIntro(s, s', t);
    HeldIs(s.threads[t]);
    HeldIs(s'.threads[t]);
    LatchTaken(s, s', t, l);
    ThreadIntro(c, s', g, pend, t);
    QuietStep(c, s, s', t, g, pend, base);
  }

  // ── descending ─────────────────────────────────────────────────────────────

  lemma ReadRootStep(c: Config, s: State, s': State, t: Tid, g: Shape, pend: set<PageId>, base: set<Entry>)
    requires Inv(c, s, g, pend, base) && t in s.threads && s.threads[t].drop == {} && s.threads[t].pc.ReadRoot?
    requires s.threads[t].pc.root in s.pages
    requires s' == Move(s, t, Descend(s.threads[t].pc.job, true,
                                      [Frame(s.threads[t].pc.root, s.pages[s.threads[t].pc.root], 0)]))
    ensures Inv(c, s', g, pend, base)
  {
    hide *;
    var pc := s.threads[t].pc;
    var pc' := Descend(pc.job, true, [Frame(pc.root, s.pages[pc.root], 0)]);
    InvParts(c, s, g, pend, base, t);
    ThreadParts(c, s, g, pend, t);
    ReadRootParts(c, s.pages, s.root, g, pend, pc);
    RootComplete(c, s, g, pend, base, t);
    ShapeParts(s.pages, s.root, g, pend, c.kind);
    RootFrame(c, s.pages, s.root, g, pend, pc.job);
    MoveIs(s, t, pc');
    HeldSame(pc, pc');
    MoveStep(c, s, s', t, pc', {}, g, pend, base);
  }

  lemma ReadRootParts(c: Config, pages: Pages, root: PageId, g: Shape, pend: set<PageId>, pc: Pc)
    requires pc.ReadRoot? && PcOk(c, pages, root, g, pend, pc)
    ensures pc.root == root && JobOk(c, pc.job) && !pc.job.task.Rework? && MetaLatch in PcHeld(pc) && PendOf(pc).None?
    ensures OwnedBy(pc).None?
  {
  }

  lemma RootFrame(c: Config, pages: Pages, root: PageId, g: Shape, pend: set<PageId>, job: Job)
    requires ShapeOk(g) && root in g.spans && root in pages && g.spans[root].a == 0.0 && g.spans[root].b == 1.0
    requires JobOk(c, job) && !job.task.Rework?
    ensures PcOk(c, pages, root, g, pend, Descend(job, true, [Frame(root, pages[root], 0)]))
    ensures PendOf(Descend(job, true, [Frame(root, pages[root], 0)])).None?
    ensures OwnedBy(Descend(job, true, [Frame(root, pages[root], 0)])).None?
  {
  }

  lemma MoveIs(s: State, t: Tid, pc: Pc)
    ensures Move(s, t, pc) == s.(threads := s.threads[t := Thread(pc, {})])
  {
  }

  lemma HeldSame(pc: Pc, pc': Pc)
    requires pc.ReadRoot? && pc'.Descend? && pc'.meta && |pc'.frames| == 1 && pc'.frames[0].pid == pc.root
    ensures PcHeld(pc') + {} == PcHeld(pc)
  {
    assert pc'.frames == [pc'.frames[0]];
    forall l ensures l in FrameLatches(pc'.frames) <==> l == PageLatch(pc.root) {
      if l == PageLatch(pc.root) { assert pc'.frames[0] in pc'.frames; }
    }
  }

  lemma LatchesOfAppend(frames: seq<Frame>, f: Frame)
    ensures FrameLatches(frames + [f]) == FrameLatches(frames) + {PageLatch(f.pid)}
  {
    forall l ensures l in FrameLatches(frames + [f]) <==> l in FrameLatches(frames) + {PageLatch(f.pid)} {
      if l in FrameLatches(frames) {
        var x :| x in frames && l == PageLatch(x.pid);
        assert x in frames + [f];
      }
      if l == PageLatch(f.pid) { assert f in frames + [f]; }
    }
  }

  lemma LatchesOfOne(f: Frame)
    ensures FrameLatches([f]) == {PageLatch(f.pid)}
  {
    assert [f] == [] + [f];
    LatchesOfAppend([], f);
  }

  /** Recording the route of the top frame changes nothing else about the stack. */
  lemma Rerouted(c: Config, pages: Pages, root: PageId, g: Shape, job: Job, meta: bool, frames: seq<Frame>, idx: nat)
    requires FramesOk(c, pages, root, g, job, meta, frames)
    ensures frames != []
    ensures var frames' := frames[|frames| - 1 := Top(frames).(route := idx)];
            && FramesOk(c, pages, root, g, job, meta, frames')
            && FrameLatches(frames') == FrameLatches(frames)
            && Top(frames') == Top(frames).(route := idx)
  {
    hide InsertSafe;
    var last := |frames| - 1;
    var frames' := frames[last := frames[last].(route := idx)];
    assert frames == frames[..last] + [frames[last]];
    assert frames' == frames[..last] + [frames'[last]];
    LatchesOfAppend(frames[..last], frames[last]);
    LatchesOfAppend(frames[..last], frames'[last]);
    forall i | 0 <= i < |frames'| ensures FrameOk(pages, g, frames'[i]) {
      assert FrameOk(pages, g, frames[i]);
    }
    forall i | 0 <= i < |frames'| - 1 ensures Linked(frames'[i], frames'[i + 1]) {
      assert Linked(frames[i], frames[i + 1]);
    }
  }

  /** Reaching a leaf, or choosing the child to latch next. */
  lemma DescendStep(c: Config, s: State, s': State, t: Tid, g: Shape, pend: set<PageId>, base: set<Entry>)
    requires Inv(c, s, g, pend, base) && t in s.threads && s.threads[t].drop == {}
    requires s.threads[t].pc.Descend? && s.threads[t].pc.frames != []
    requires GoDescend(s, t, s.threads[t].pc) == Some(s')
    ensures Inv(c, s', g, pend, base)
  {
    hide *;
    var pc := s.threads[t].pc;
    InvParts(c, s, g, pend, base, t);
    ThreadParts(c, s, g, pend, t);
    var pc' := DescendEffect(c, s, s', t, g, pend);
    MoveIs(s, t, pc');
    MoveStep(c, s, s', t, pc', {}, g, pend, base);
  }

  lemma DescendEffect(c: Config, s: State, s': State, t: Tid, g: Shape, pend: set<PageId>) returns (pc': Pc)
    requires t in s.threads && s.threads[t].pc.Descend? && s.threads[t].pc.frames != []
    requires PcOk(c, s.pages, s.root, g, pend, s.threads[t].pc)
    requires GoDescend(s, t, s.threads[t].pc) == Some(s')
    ensures s' == Move(s, t, pc') && PcOk(c, s.pages, s.root, g, pend, pc')
    ensures PcHeld(pc') + {} == PcHeld(s.threads[t].pc) && PendOf(pc') == PendOf(s.threads[t].pc) && OwnedBy(pc').None?
  {
    hide FramesOk;
    hide InRange;
    hide FrameLatches;
    var pc := s.threads[t].pc;
    var top := Top(pc.frames);
    if top.node.Leaf? {
      pc' := Apply(pc.job, pc.meta, pc.frames, None);
    } else {
      var idx := RouteInsert(top.node.keys, pc.job.key);
      Rerouted(c, s.pages, s.root, g, pc.job, pc.meta, pc.frames, idx);
      pc' := WaitChild(pc.job, pc.meta, pc.frames[|pc.frames| - 1 := top.(route := idx)], top.node.children[idx]);
    }
  }

  lemma LockChildStep(c: Config, s: State, s': State, t: Tid, g: Shape, pend: set<PageId>, base: set<Entry>)
    requires Inv(c, s, g, pend, base) && t in s.threads && s.threads[t].drop == {} && s.threads[t].pc.WaitChild?
    requires var pc := s.threads[t].pc;
             Lock(s, t, PageLatch(pc.child), ReadChild(pc.job, pc.meta, pc.frames, pc.child)) == Some(s')
    ensures Inv(c, s', g, pend, base)
  {
    hide *;
    var pc := s.threads[t].pc;
    var pc' := ReadChild(pc.job, pc.meta, pc.frames, pc.child);
    InvParts(c, s, g, pend, base, t);
    ThreadParts(c, s, g, pend, t);
    LockEffect(s, s', t, PageLatch(pc.child), pc');
    LockChildOk(c, s, g, pend, t);
    LockStep(c, s, s', t, PageLatch(pc.child), pc', g, pend, base);
  }

  lemma LockEffect(s: State, s': State, t: Tid, l: Latch, pc': Pc)
    requires Lock(s, t, l, pc') == Some(s')
    ensures l !in s.latches && s' == s.(latches := s.latches[l := t], threads := s.threads[t := Thread(pc', {})])
  {
  }

  lemma LockChildOk(c: Config, s: State, g: Shape, pend: set<PageId>, t: Tid)
    requires LatchesOk(s) && t in s.threads && s.threads[t].pc.WaitChild?
    requires PcOk(c, s.pages, s.root, g, pend, s.threads[t].pc)
    requires PageLatch(s.threads[t].pc.child) !in s.latches
    ensures var pc := s.threads[t].pc;
            var pc' := ReadChild(pc.job, pc.meta, pc.frames, pc.child);
            && PcOk(c, s.pages, s.root, g, pend, pc') && PcHeld(pc') == PcHeld(pc) + {PageLatch(pc.child)}
            && PendOf(pc') == PendOf(pc) && OwnedBy(pc').None?
  {
    hide FramesOk;
    hide InRange;
    hide FrameLatches;
    hide Routed;
    var pc := s.threads[t].pc;
    assert PageLatch(pc.child) in FrameLatches(pc.frames) ==> Holds(s, t, PageLatch(pc.child));
  }

  /** The child just read may hold the job's key. */
  lemma ChildInRange(c: Config, s: State, g: Shape, pend: set<PageId>, base: set<Entry>, t: Tid)
    requires Inv(c, s, g, pend, base) && t in s.threads && s.threads[t].pc.ReadChild?
    ensures InRange(g, s.threads[t].pc.child, s.threads[t].pc.job.key)
  {
    hide *;
    var pc := s.threads[t].pc;
    InvParts(c, s, g, pend, base, t);
    ThreadParts(c, s, g, pend, t);
    ReadChildParts(c, s.pages, s.root, g, pend, pc);
    ShapeParts(s.pages, s.root, g, pend, c.kind);
    var top := Top(pc.frames);
    TopIsSound(c, s.pages, s.root, g, pend, pc.job, pc.meta, pc.frames);
    NoGapBelow(c, s, g, pend, base, t, |pc.frames| - 1, top.route);
    RouteStaysInRange(g, top.pid, top.node, pc.job.key);
  }

  lemma ReadChildParts(c: Config, pages: Pages, root: PageId, g: Shape, pend: set<PageId>, pc: Pc)
    requires pc.ReadChild? && PcOk(c, pages, root, g, pend, pc)
    ensures FramesOf(pc) == pc.frames != [] && FramesOk(c, pages, root, g, pc.job, pc.meta, pc.frames)
    ensures Top(pc.frames) == pc.frames[|pc.frames| - 1]
    ensures InRange(g, Top(pc.frames).pid, pc.job.key) && PageLatch(pc.child) !in FrameLatches(pc.frames)
    ensures var top := Top(pc.frames);
            && top.node.Internal? && top.route == RouteInsert(top.node.keys, pc.job.key)
            && top.route < |top.node.children| && top.node.children[top.route] == pc.child
    ensures PendOf(pc).None? && OwnedBy(pc).None?
  {
    hide FramesOk;
    hide InRange;
    hide FrameLatches;
    hide RouteInsert;
    FramesNonEmpty(c, pages, root, g, pc.job, pc.meta, pc.frames);
  }

  lemma PushedFrame(c: Config, pages: Pages, root: PageId, g: Shape, job: Job, meta: bool, frames: seq<Frame>, f: Frame)
    requires FramesOk(c, pages, root, g, job, meta, frames) && FrameOk(pages, g, f)
    requires Linked(Top(frames), f) && PageLatch(f.pid) !in FrameLatches(frames)
    ensures FramesOk(c, pages, root, g, job, meta, frames + [f])
  {
    hide InsertSafe;
    var frames' := frames + [f];
    forall i | 0 <= i < |frames'| ensures FrameOk(pages, g, frames'[i]) {
      if i < |frames| { assert FrameOk(pages, g, frames[i]); }
    }
    forall i | 0 <= i < |frames'| - 1 ensures Linked(frames'[i], frames'[i + 1]) {
      if i < |frames| - 1 { assert Linked(frames[i], frames[i + 1]); }
    }
    forall i, j | 0 <= i < j < |frames'| ensures frames'[i].pid != frames'[j].pid {
      if j == |frames| {
        assert frames[i] in frames && PageLatch(frames[i].pid) in FrameLatches(frames);
      }
    }
  }

  lemma ReadChildEffect(c: Config, s: State, s': State, t: Tid, g: Shape, pend: set<PageId>)
    returns (pc': Pc, drop': set<Latch>)
    requires t in s.threads && s.threads[t].pc.ReadChild? && s.threads[t].pc.child in s.pages
    requires PcOk(c, s.pages, s.root, g, pend, s.threads[t].pc) && s.threads[t].pc.child in g.spans
    requires InRange(g, s.threads[t].pc.child, s.threads[t].pc.job.key)
    requires GoReadChild(c, s, t, s.threads[t].pc) == Some(s')
    ensures s' == s.(threads := s.threads[t := Thread(pc', drop')]) && PcOk(c, s.pages, s.root, g, pend, pc')
    ensures PcHeld(pc') + drop' == PcHeld(s.threads[t].pc) && PcHeld(pc') !! drop'
    ensures PendOf(pc') == PendOf(s.threads[t].pc) && OwnedBy(pc').None?
  {
    hide InRange;
    hide FrameLatches;
    hide RouteInsert;
    hide InsertSafe;
    var pc := s.threads[t].pc;
    ReadChildParts(c, s.pages, s.root, g, pend, pc);
    var f := Frame(pc.child, s.pages[pc.child], 0);
    LatchesOfOne(f);
    LatchesOfAppend(pc.frames, f);
    if pc.job.task.PutOne? && InsertSafe(f.node, pc.job.key, |pc.job.payload|, c.cap) {
      pc', drop' := Descend(pc.job, false, [f]), MetaPart(pc.meta) + FrameLatches(pc.frames);
      FramesNonEmpty(c, s.pages, s.root, g, pc.job, pc.meta, pc.frames);
      assert FramesOk(c, s.pages, s.root, g, pc.job, false, [f]);
    } else {
      pc', drop' := Descend(pc.job, pc.meta, pc.frames + [f]), {};
      PushedFrame(c, s.pages, s.root, g, pc.job, pc.meta, pc.frames, f);
      hide FramesOk;
    }
  }

  /** Reading the latched child, and dropping every latch above it if it is safe. */
  lemma ReadChildStep(c: Config, s: State, s': State, t: Tid, g: Shape, pend: set<PageId>, base: set<Entry>)
    requires Inv(c, s, g, pend, base) && t in s.threads && s.threads[t].drop == {}
    requires s.threads[t].pc.ReadChild? && s.threads[t].pc.child in s.pages
    requires GoReadChild(c, s, t, s.threads[t].pc) == Some(s')
    ensures Inv(c, s', g, pend, base)
  {
    hide *;
    InvParts(c, s, g, pend, base, t);
    ThreadParts(c, s, g, pend, t);
    ChildInRange(c, s, g, pend, base, t);
    InRangeInTree(g, s.threads[t].pc.child, s.threads[t].pc.job.key);
    var pc', drop' := ReadChildEffect(c, s, s', t, g, pend);
    MoveStep(c, s, s', t, pc', drop', g, pend, base);
  }

  lemma InRangeInTree(g: Shape, p: PageId, v: Key)
    requires InRange(g, p, v)
    ensures p in g.spans
  {
  }

  // ── steps that write a page ────────────────────────────────────────────────

  /** A page write of thread `t`, with everything it must establish. */
  lemma TreeStep(c: Config, s: State, s': State, t: Tid, pc': Pc, drop': set<Latch>, g: Shape, g': Shape,
                 pend: set<PageId>, pend': set<PageId>, base: set<Entry>, x: Option<PageId>)
    requires Inv(c, s, g, pend, base) && t in s.threads && s.threads[t].drop == {}
    requires s'.threads == s.threads[t := Thread(pc', drop')] && s'.latches == s.latches && s'.next == s.next
    requires PcHeld(pc') + drop' == PcHeld(s.threads[t].pc) && PcHeld(pc') !! drop'
    requires TreeInv(s'.pages, s'.root, g', pend', c.kind) && PcOk(c, s'.pages, s'.root, g', pend', pc')
    requires pend' == pend - PendSet(PendOf(s.threads[t].pc)) + PendSet(PendOf(pc'))
    requires PendOf(pc').Some? && PendOf(pc') != PendOf(s.threads[t].pc) ==> PendOf(pc').value !in pend
    requires OwnedBy(pc').Some? ==> OwnedBy(pc') == OwnedBy(s.threads[t].pc) && OwnedBy(pc').value !in g'.spans
    requires g'.spans.Keys <= g.spans.Keys + PendSet(OwnedBy(s.threads[t].pc))
    requires forall p :: p in s'.pages ==> p in s.pages || OwnedBy(s.threads[t].pc) == Some(p)
    requires ShapeStep(g, g', pend, x) && (x.Some? ==> PageLatch(x.value) in PcHeld(s.threads[t].pc))
    requires WritesOwn(s, s', t)
    requires Counted(s'.pages, g', base + s'.applied, s'.gone)
    ensures Inv(c, s', g', pend', base)
  {
    hide *;
    InvParts(c, s, g, pend, base, t);
    ShapeParts(s.pages, s.root, g, pend, c.kind);
    OnlyThreadIntro(s, s', t);
    HeldIs(s.threads[t]);
    HeldIs(s'.threads[t]);
    LatchesSame(s, s', t);
    ThreadIntro(c, s', g', pend', t);
    PendsMoved(s, s', t, pend, pend');
    OwnedMoved(s, s', t, g, g');
    Assemble(c, s, s', t, g, g', pend, pend', base, x);
  }

  lemma WritesOne(s: State, s': State, t: Tid, p: PageId, n: Node)
    requires t in s.threads && s'.pages == s.pages[p := n] && s'.root == s.root
    requires PageLatch(p) in PcHeld(s.threads[t].pc) || OwnedBy(s.threads[t].pc) == Some(p)
    ensures WritesOwn(s, s', t)
  {
    hide PcHeld;
    hide OwnedBy;
  }

  // ── at the leaf ────────────────────────────────────────────────────────────

  /** What a thread standing at its leaf knows. */
  lemma AtLeaf(c: Config, s: State, g: Shape, pend: set<PageId>, base: set<Entry>, t: Tid)
    requires Inv(c, s, g, pend, base) && t in s.threads
    requires var pc := s.threads[t].pc; pc.Apply? && pc.pending.None?
    ensures var pc := s.threads[t].pc;
            && pc.frames != [] && FramesOk(c, s.pages, s.root, g, pc.job, pc.meta, pc.frames)
            && KindOf(pc.job.key) == c.kind && JobOk(c, pc.job) && InRange(g, Top(pc.frames).pid, pc.job.key)
            && !pc.job.task.Rework? && (!pc.meta ==> pc.job.task.PutOne?) && Top(pc.frames).node.Leaf?
            && PendOf(pc).None? && OwnedBy(pc).None?
            && Top(pc.frames).pid in g.spans && g.spans[Top(pc.frames).pid].level == 0
            && Top(pc.frames).pid in s.pages && s.pages[Top(pc.frames).pid] == Top(pc.frames).node
            && LeafOk(Top(pc.frames).node, Top(pc.frames).pid, g) && NodeKind(Top(pc.frames).node, c.kind)
            && PageLatch(Top(pc.frames).pid) in PcHeld(pc)
  {
    hide *;
    InvParts(c, s, g, pend, base, t);
    ThreadParts(c, s, g, pend, t);
    LeafPcParts(c, s.pages, s.root, g, pend, s.threads[t].pc);
    var pc := s.threads[t].pc;
    TopIsSound(c, s.pages, s.root, g, pend, pc.job, pc.meta, pc.frames);
  }

  lemma LeafPcParts(c: Config, pages: Pages, root: PageId, g: Shape, pend: set<PageId>, pc: Pc)
    requires pc.Apply? && pc.pending.None? && PcOk(c, pages, root, g, pend, pc)
    ensures pc.frames != [] && FramesOk(c, pages, root, g, pc.job, pc.meta, pc.frames)
    ensures KindOf(pc.job.key) == c.kind && JobOk(c, pc.job) && InRange(g, Top(pc.frames).pid, pc.job.key)
    ensures !pc.job.task.Rework? && (!pc.meta ==> pc.job.task.PutOne?)
    ensures Top(pc.frames).node.Leaf? && PendOf(pc).None? && OwnedBy(pc).None?
    ensures FrameLatches(pc.frames) <= PcHeld(pc)
  {
    hide FramesOk;
    hide InRange;
    hide FrameLatches;
    FramesNonEmpty(c, pages, root, g, pc.job, pc.meta, pc.frames);
  }

  lemma IdleParts(c: Config, pages: Pages, root: PageId, g: Shape, pend: set<PageId>, held: set<Latch>)
    ensures PcOk(c, pages, root, g, pend, Idle) && PcHeld(Idle) + held == held && PcHeld(Idle) !! held
    ensures PendOf(Idle).None? && OwnedBy(Idle).None?
  {
  }

  /** An exact duplicate ends the insert; its pair was there already. */
  lemma DuplicateStep(c: Config, s: State, s': State, t: Tid, at: nat, g: Shape, pend: set<PageId>, base: set<Entry>)
    requires Inv(c, s, g, pend, base) && t in s.threads && s.threads[t].drop == {}
    requires var pc := s.threads[t].pc;
             && pc.Apply? && pc.pending.None? && pc.frames != [] && Top(pc.frames).node.Leaf?
             && at < |Top(pc.frames).node.entries| && Top(pc.frames).node.entries[at] == EntryOf(pc.job)
             && s' == s.(threads := s.threads[t := Thread(Idle, PcHeld(pc))], applied := s.applied + {EntryOf(pc.job)})
    ensures Inv(c, s', g, pend, base)
  {
    hide *;
    var pc := s.threads[t].pc;
    InvParts(c, s, g, pend, base, t);
    AtLeaf(c, s, g, pend, base, t);
    PairIn(s.pages, g, Top(pc.frames).pid, at);
    IdleParts(c, s.pages, s.root, g, pend, PcHeld(pc));
    assert base + s'.applied == base + s.applied + {EntryOf(pc.job)};
    CountedStored(s.pages, g, base + s.applied, s.gone, EntryOf(pc.job));
    MoveStep(c, s, s', t, Idle, PcHeld(pc), g, pend, base);
  }

  lemma PairIn(pages: Pages, g: Shape, p: PageId, at: nat)
    requires p in g.spans && p in pages && pages[p].Leaf? && at < |pages[p].entries|
    ensures pages[p].entries[at] in Pairs(Rows(pages, g))
  {
    var rows := RowsOf(pages[p].entries, pages[p].payloads);
    assert rows[at] in rows;
    assert rows[at] in RowSet(pages[p]);
    assert rows[at] in Rows(pages, g);
  }

  lemma CountedStored(pages: Pages, g: Shape, have: set<Entry>, gone: set<Entry>, e: Entry)
    requires Counted(pages, g, have, gone) && e in Pairs(Rows(pages, g))
    ensures Counted(pages, g, have + {e}, gone)
  {
    hide Pairs;
    hide Rows;
  }

  lemma CountedGrow(pages: Pages, g: Shape, pages': Pages, g': Shape, have: set<Entry>, gone: set<Entry>,
                    new': set<Entry>)
    requires Counted(pages, g, have, gone) && Pairs(Rows(pages', g')) == Pairs(Rows(pages, g)) + new'
    ensures Counted(pages', g', have + new', gone)
  {
    hide Pairs;
    hide Rows;
  }

  lemma CountedSame(pages: Pages, g: Shape, pages': Pages, g': Shape, have: set<Entry>, gone: set<Entry>)
    requires Counted(pages, g, have, gone) && Rows(pages', g') == Rows(pages, g)
    ensures Counted(pages', g', have, gone)
  {
    hide Pairs;
    hide Rows;
  }

  /** Adding the rows of the enlarged leaf adds exactly the new pairs. */
  lemma PairsGrow(pages: Pages, g: Shape, p: PageId, full: Node, new': set<Entry>)
    requires p in g.spans && p in pages && Adds(pages[p], full, new')
    ensures Pairs(Rows(pages, g) + RowSet(full)) == Pairs(Rows(pages, g)) + new'
  {
    hide RowSet;
    forall r | r in RowSet(pages[p]) ensures r in Rows(pages, g) {
    }
    forall e | e in Pairs(Rows(pages, g) + RowSet(full)) ensures e in Pairs(Rows(pages, g)) + new' {
      var r :| r in Rows(pages, g) + RowSet(full) && e == Entry(r.key, r.rid);
      if r in RowSet(full) { PairFrom(pages, g, p, full, new', r); }
    }
    forall e | e in Pairs(Rows(pages, g)) + new' ensures e in Pairs(Rows(pages, g) + RowSet(full)) {
      if e in new' {
        assert e in Pairs(RowSet(full));
        var r :| r in RowSet(full) && e == Entry(r.key, r.rid);
        assert r in Rows(pages, g) + RowSet(full);
      } else {
        var r :| r in Rows(pages, g) && e == Entry(r.key, r.rid);
        assert r in Rows(pages, g) + RowSet(full);
      }
    }
  }

  lemma PairFrom(pages: Pages, g: Shape, p: PageId, full: Node, new': set<Entry>, r: Row)
    requires p in g.spans && p in pages && Adds(pages[p], full, new') && r in RowSet(full)
    ensures Entry(r.key, r.rid) in Pairs(Rows(pages, g)) + new'
  {
    hide RowSet;
    assert Entry(r.key, r.rid) in Pairs(RowSet(full));
    if Entry(r.key, r.rid) !in new' {
      var x :| x in RowSet(pages[p]) && Entry(r.key, r.rid) == Entry(x.key, x.rid);
      assert x in Rows(pages, g);
    }
  }

  lemma AddsOne(n: Node, full: Node, row: Row)
    requires RowSet(full) == RowSet(n) + {row}
    ensures Adds(n, full, {Entry(row.key, row.rid)})
  {
    hide RowSet;
    assert row in RowSet(full);
    forall e | e in Pairs(RowSet(n)) ensures e in Pairs(RowSet(full)) {
      var r :| r in RowSet(n) && e == Entry(r.key, r.rid);
      assert r in RowSet(full);
    }
  }

  lemma AddsParts(n: Node, full: Node, new': set<Entry>)
    requires Adds(n, full, new')
    ensures RowSet(n) <= RowSet(full)
  {
    hide RowSet;
  }

  /** The entry fits: one page write, and the insert is done. */
  lemma LeafFitStep(c: Config, s: State, s': State, t: Tid, pos: nat, full: Node, g: Shape, pend: set<PageId>,
                    base: set<Entry>)
    requires Inv(c, s, g, pend, base) && t in s.threads && s.threads[t].drop == {}
    requires var pc := s.threads[t].pc;
             && pc.Apply? && pc.pending.None? && pc.frames != [] && Top(pc.frames).node.Leaf?
             && IsInsertPos(Top(pc.frames).node.entries, EntryOf(pc.job), pos)
             && full == LeafInsert(Top(pc.frames).node, pos, EntryOf(pc.job), pc.job.payload)
             && s' == State(s.pages[Top(pc.frames).pid := full], s.root, s.next, s.latches,
                            s.threads[t := Thread(Idle, PcHeld(pc))], s.applied + {EntryOf(pc.job)}, s.gone)
    ensures Inv(c, s', g, pend, base) && Evolves(s.pages, g, s'.pages, g)
  {
    hide *;
    var pc := s.threads[t].pc;
    var p := Top(pc.frames).pid;
    var e := EntryOf(pc.job);
    InvParts(c, s, g, pend, base, t);
    AtLeaf(c, s, g, pend, base, t);
    EntryParts(pc.job);
    InsertedLeaf(g, p, Top(pc.frames).node, pos, e, pc.job.payload, c.kind);
    AddsOne(Top(pc.frames).node, full, Row(e.key, e.rid, pc.job.payload));
    LeafWritten(c, s, s', t, full, {e}, g, pend, base);
  }

  /** A latched leaf is overwritten by one that adds pairs, and the job returns. */
  lemma LeafWritten(c: Config, s: State, s': State, t: Tid, full: Node, new': set<Entry>, g: Shape, pend: set<PageId>,
                    base: set<Entry>)
    requires Inv(c, s, g, pend, base) && t in s.threads && s.threads[t].drop == {}
    requires var pc := s.threads[t].pc;
             && pc.Apply? && pc.pending.None? && pc.frames != []
             && LeafOk(full, Top(pc.frames).pid, g) && NodeKind(full, c.kind) && Adds(Top(pc.frames).node, full, new')
             && s' == State(s.pages[Top(pc.frames).pid := full], s.root, s.next, s.latches,
                            s.threads[t := Thread(Idle, PcHeld(pc))], s.applied + new', s.gone)
    ensures Inv(c, s', g, pend, base) && Evolves(s.pages, g, s'.pages, g)
  {
    hide *;
    var pc := s.threads[t].pc;
    var p := Top(pc.frames).pid;
    InvParts(c, s, g, pend, base, t);
    AtLeaf(c, s, g, pend, base, t);
    AddsParts(Top(pc.frames).node, full, new');
    WriteLeaf(s.pages, s.root, g, pend, c.kind, p, full);
    PairsGrow(s.pages, g, p, full, new');
    assert base + s'.applied == base + s.applied + new';
    CountedGrow(s.pages, g, s'.pages, g, base + s.applied, s.gone, new');
    IdleParts(c, s'.pages, s.root, g, pend, PcHeld(pc));
    PendSetNone();
    ShapeSame(g, pend);
    WritesOne(s, s', t, p, full);
    TreeStep(c, s, s', t, Idle, PcHeld(pc), g, g, pend, pend, base, None);
  }

  lemma EntryParts(job: Job)
    ensures EntryOf(job) == Entry(job.key, job.rid)
  {
  }

  lemma PendSetNone()
    ensures PendSet(None) == {}
  {
  }

  /** The entry does not fit: the thread allocates the right page of a split. */
  lemma LeafSplitStartStep(c: Config, s: State, s': State, t: Tid, pos: nat, full: Node, right: PageId,
                           g: Shape, pend: set<PageId>, base: set<Entry>)
    requires Inv(c, s, g, pend, base) && t in s.threads && s.threads[t].drop == {}
    requires var pc := s.threads[t].pc;
             && pc.Apply? && pc.pending.None? && pc.frames != [] && Top(pc.frames).node.Leaf? && pc.job.task.PutOne?
             && IsInsertPos(Top(pc.frames).node.entries, EntryOf(pc.job), pos)
             && full == LeafInsert(Top(pc.frames).node, pos, EntryOf(pc.job), pc.job.payload) && BodyLen(full) > c.cap
             && right as int == s.next && right != NO_PAGE
             && s' == s.(threads := s.threads[t := Thread(WriteRight(pc.job, pc.meta, pc.frames, None, full,
                                                                     right), {})],
                         next := s.next + 1)
    ensures Inv(c, s', g, pend, base)
  {
    hide *;
    var pc := s.threads[t].pc;
    var pc' := WriteRight(pc.job, pc.meta, pc.frames, None, full, right);
    var e := EntryOf(pc.job);
    InvParts(c, s, g, pend, base, t);
    AtLeaf(c, s, g, pend, base, t);
    EntryParts(pc.job);
    InsertedLeaf(g, Top(pc.frames).pid, Top(pc.frames).node, pos, e, pc.job.payload, c.kind);
    AddsOne(Top(pc.frames).node, full, Row(e.key, e.rid, pc.job.payload));
    TakenOne(pc.job, Top(pc.frames).node);
    GainsOne(Top(pc.frames).node, pos, pc.job, full);
    LeafOverflowRooted(c, s.pages, s.root, g, pc.job, pc.meta, pc.frames, pos, full);
    LeafSplitPc(c, s.pages, s.root, g, pend, pc, full, right);
    MoveStep(c, s, s', t, pc', {}, g, pend, base);
  }

  /** A leaf can overflow at the bottom of the stack only if the meta latch is still held. */
  lemma LeafOverflowRooted(c: Config, pages: Pages, root: PageId, g: Shape, job: Job, meta: bool, frames: seq<Frame>,
                           pos: nat, full: Node)
    requires FramesOk(c, pages, root, g, job, meta, frames) && LeafOk(Top(frames).node, Top(frames).pid, g)
    requires IsInsertPos(Top(frames).node.entries, EntryOf(job), pos)
    requires full == LeafInsert(Top(frames).node, pos, EntryOf(job), job.payload) && BodyLen(full) > c.cap
    ensures (|frames| == 1 ==> meta) && full.Leaf? && full.entries != []
  {
    hide BodyLen;
    hide InsertSafe;
    hide EntryLess;
    if |frames| == 1 && !meta {
      SafeLeafFits(frames[0].node, pos, EntryOf(job), job.payload, c.cap);
    }
  }

  lemma LeafSplitPc(c: Config, pages: Pages, root: PageId, g: Shape, pend: set<PageId>, pc: Pc, full: Node,
                    right: PageId)
    requires pc.Apply? && pc.pending.None? && pc.frames != [] && FramesOk(c, pages, root, g, pc.job, pc.meta, pc.frames)
    requires Top(pc.frames).node.Leaf? && full.Leaf? && full.entries != [] && (|pc.frames| == 1 ==> pc.meta)
    requires LeafOk(full, Top(pc.frames).pid, g) && NodeKind(full, c.kind)
    requires Adds(Top(pc.frames).node, full, Taken(pc.job, Top(pc.frames).node))
    requires Gains(Top(pc.frames).node, full, pc.job)
    ensures var pc' := WriteRight(pc.job, pc.meta, pc.frames, None, full, right);
            && PcOk(c, pages, root, g, pend, pc') && PcHeld(pc') + {} == PcHeld(pc) && PcHeld(pc') !! {}
            && PendOf(pc') == PendOf(pc) && OwnedBy(pc') == Some(right)
  {
    hide FramesOk;
    hide LeafOk;
    hide Adds;
    hide Gains;
    hide Taken;
    hide NodeKind;
    hide FrameLatches;
  }

  lemma GainsOne(n: Node, pos: nat, job: Job, full: Node)
    requires n.Leaf? && job.task.PutOne? && IsInsertPos(n.entries, EntryOf(job), pos)
    requires full == LeafInsert(n, pos, EntryOf(job), job.payload)
    ensures Gains(n, full, job)
  {
    hide EntryLess;
    hide InsertPayload;
    var e := EntryOf(job);
    assert n.entries == n.entries[..pos] + n.entries[pos..];
    assert full.entries == n.entries[..pos] + [e] + n.entries[pos..];
  }

  lemma TakenOne(job: Job, n: Node)
    requires job.task.PutOne?
    ensures Taken(job, n) == {EntryOf(job)}
  {
  }
}
