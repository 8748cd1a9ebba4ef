/**
  A lookup among any writers makes a bounded number of reads, however many steps the writers
  take between them.
 */
module ReaderEnds {
  import opened Keys
  import opened Nodes
  import opened Shapes
  import opened Steps
  import opened Searches
  import opened Trees
  import opened Crabbing
  import opened CrabbingRuns
  import opened CrabbingEnds
  import opened Readers

  /** How many of the events are reads of the lookup. */
  function Reads(events: seq<Event>): nat {
    if events == [] then 0 else (if events[0].Read? then 1 else 0) + Reads(events[1..])
  }

  /** The lookup stands at a page of the tree. */
  ghost predicate Placed(g: Shape, rd: Reader) {
    match rd
    case Starting(_, _) => true
    case Descending(_, _, pid) => pid in g.spans
    case Scanning(_, _, pid, _) => pid in g.spans && g.spans[pid].level == 0
    case Done(_, _, _) => true
  }

  /** A bound on the reads it can still make. */
  ghost function Left(g: Shape, rd: Reader): nat {
    match rd
    case Starting(_, _) => 2 * IDS + 3
    case Descending(_, _, pid) => LevelOf(g, pid) + IDS + 2
    case Scanning(_, _, pid, _) => Walk(g, pid) / 4 + 1
    case Done(_, _, _) => 0
  }

  // ── no tree is higher than there are page ids ──────────────────────────────

  lemma {:induction false} OnePerLevel(pages: Pages, root: PageId, g: Shape, pend: set<PageId>, kind: Kind, p: PageId)
    returns (ids: set<PageId>)
    requires TreeInv(pages, root, g, pend, kind) && p in g.spans
    ensures |ids| == g.spans[p].level + 1
    ensures forall q :: q in ids ==> q in g.spans && g.spans[q].level <= g.spans[p].level
    decreases g.spans[p].level
  {
    hide TreeInv;
    if g.spans[p].level == 0 {
      ids := {p};
    } else {
      var child := FirstChild(pages, root, g, pend, kind, p);
      var below := OnePerLevel(pages, root, g, pend, kind, child);
      assert p !in below;
      ids := below + {p};
    }
  }

  lemma FirstChild(pages: Pages, root: PageId, g: Shape, pend: set<PageId>, kind: Kind, p: PageId)
    returns (child: PageId)
    requires TreeInv(pages, root, g, pend, kind) && p in g.spans && g.spans[p].level > 0
    ensures child in g.spans && g.spans[child].level + 1 == g.spans[p].level
  {
    hide TreeInv;
    hide NodeKind;
    TreePage(pages, root, g, pend, kind, p);
    assert 0 < |pages[p].children|;
    child := pages[p].children[0];
  }

  lemma LevelBound(pages: Pages, root: PageId, g: Shape, pend: set<PageId>, kind: Kind, p: PageId)
    requires TreeInv(pages, root, g, pend, kind) && p in g.spans
    ensures LevelOf(g, p) < IDS
  {
    hide TreeInv;
    var ids := OnePerLevel(pages, root, g, pend, kind, p);
    IdsBound(ids, IDS);
  }

  // ── every step ─────────────────────────────────────────────────────────────

  /** Writers leave the lookup where it is, and never lengthen its way. */
  lemma WriterKeepsLeft(g: Shape, g': Shape, rd: Reader)
    requires Extends(g, g') && Placed(g, rd)
    ensures Placed(g', rd) && Left(g', rd) <= Left(g, rd)
  {
    if rd.Scanning? { WalkKept(g, g', rd.pid); }
    hide Walk;
  }

  /** A read brings it nearer to its end. */
  lemma ReadShortens(pages: Pages, root: PageId, g: Shape, pend: set<PageId>, kind: Kind, rd: Reader)
    requires TreeInv(pages, root, g, pend, kind) && Placed(g, rd) && !rd.Done?
    ensures ReadStep(pages, root, rd).Some? && Placed(g, ReadStep(pages, root, rd).value)
    ensures Left(g, ReadStep(pages, root, rd).value) < Left(g, rd)
  {
    hide TreeInv;
    hide Walk;
    hide RouteRead;
    hide Hits;
    hide PastIn;
    ShapeParts(pages, root, g, pend, kind);
    match rd
    case Starting(_, _) => LevelBound(pages, root, g, pend, kind, root);
    case Descending(_, _, _) => DescendShortens(pages, root, g, pend, kind, rd);
    case Scanning(_, _, _, _) => ScanShortens(pages, root, g, pend, kind, rd);
  }

  lemma DescendShortens(pages: Pages, root: PageId, g: Shape, pend: set<PageId>, kind: Kind, rd: Reader)
    requires TreeInv(pages, root, g, pend, kind) && Placed(g, rd) && rd.Descending?
    ensures ReadStep(pages, root, rd).Some? && Placed(g, ReadStep(pages, root, rd).value)
    ensures Left(g, ReadStep(pages, root, rd).value) < Left(g, rd)
  {
    hide TreeInv;
    hide Walk;
    hide RouteRead;
    WalkMost(g, rd.pid);
    if g.spans[rd.pid].level > 0 {
      ReadTarget(rd.op, pages, root, g, pend, kind, rd.pid, rd.v);
    } else {
      LeafLink(pages, root, g, pend, kind, rd.pid);
    }
  }

  lemma ScanShortens(pages: Pages, root: PageId, g: Shape, pend: set<PageId>, kind: Kind, rd: Reader)
    requires TreeInv(pages, root, g, pend, kind) && Placed(g, rd) && rd.Scanning?
    ensures ReadStep(pages, root, rd).Some? && Placed(g, ReadStep(pages, root, rd).value)
    ensures Left(g, ReadStep(pages, root, rd).value) < Left(g, rd)
  {
    hide TreeInv;
    hide Walk;
    hide Hits;
    hide PastIn;
    ShapeParts(pages, root, g, pend, kind);
    LeafLink(pages, root, g, pend, kind, rd.pid);
    if pages[rd.pid].next != NO_PAGE {
      assert SpanOk(g, rd.pid);
      WalkRight(g, rd.pid, pages[rd.pid].next);
    }
  }

  lemma {:induction false} HistoryShortens(c: Config, y: System, y': System, events: seq<Event>, g: Shape,
                                           pend: set<PageId>,
                                           base: set<Entry>)
    returns (g': Shape)
    requires Inv(c, y.s, g, pend, base) && Placed(g, y.rd) && History(c, y, events) == Some(y')
    ensures Placed(g', y'.rd) && Reads(events) + Left(g', y'.rd) <= Left(g, y.rd)
    decreases |events|
  {
    hide Inv;
    hide Next;
    hide ReadStep;
    hide Placed;
    hide Left;
    if events == [] {
      g' := g;
    } else {
      var mid := Happens(c, y, events[0]).value;
      match events[0] {
        case Writer(t, a) =>
          var gg := StepKeeps(c, y.s, mid.s, t, a, g, pend, base);
          KeptPlaces(c, y.s, mid.s, g, gg, base, Lost(y.s, t, a));
          WriterKeepsLeft(g, gg.g, y.rd);
          g' := HistoryShortens(c, mid, y', events[1..], gg.g, gg.pend, base);
        case Read =>
          TreeCovers(c, y.s, g, pend, base);
          ReadStepSame(y.s.pages, y.s.root, y.rd);
          ReadShortens(y.s.pages, y.s.root, g, pend, c.kind, y.rd);
          g' := HistoryShortens(c, mid, y', events[1..], g, pend, base);
      }
    }
  }

  lemma KeptPlaces(c: Config, s: State, s': State, g: Shape, g': Ghosts, base: set<Entry>, lost: set<Entry>)
    requires Keeps(c, s, s', g, g', base, lost)
    ensures Inv(c, s', g'.g, g'.pend, base) && Extends(g, g'.g)
  {
    hide Inv;
  }

  /**
    In any history of a lookup among writers, from any reachable state, the lookup makes at
    most twice as many reads as there are page ids, and three more.
   */
  lemma EveryLookupEnds(c: Config, s: State, y': System, events: seq<Event>, op: Op, v: Key, g: Shape,
                        pend: set<PageId>,
                   base: set<Entry>)
    requires Inv(c, s, g, pend, base) && History(c, System(s, Starting(op, v)), events) == Some(y')
    ensures Reads(events) <= 2 * IDS + 3
  {
    hide Inv;
    hide History;
    var g' := HistoryShortens(c, System(s, Starting(op, v)), y', events, g, pend, base);
  }
}
