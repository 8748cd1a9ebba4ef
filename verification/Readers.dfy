/**
  A lookup that takes no latch, interleaved page read by page read with any number of
  concurrent writers.
 */
module Readers {
  import opened Keys
  import opened Nodes
  import opened Shapes
  import opened Steps
  import opened Searches
  import opened Crabbing
  import opened CrabbingRuns

  datatype Reader =
    | Starting(op: Op, v: Key)
    | Descending(op: Op, v: Key, pid: PageId)
    | Scanning(op: Op, v: Key, pid: PageId, got: seq<Row>)
    | Done(op: Op, v: Key, got: seq<Row>)

  /** One read of the lookup: the root pointer, an internal node, or a leaf. */
  function ReadStep(pages: Pages, root: PageId, rd: Reader): Option<Reader> {
    match rd
    case Starting(op, v) => Some(Descending(op, v, root))
    case Descending(op, v, pid) =>
      if pid !in pages then None
      else (match pages[pid]
            case Leaf(_, _, _) => Some(Scanning(op, v, pid, []))
            case Internal(keys, children) =>
              var idx := RouteRead(op, keys, v);
              if idx < |children| then Some(Descending(op, v, children[idx])) else None)
    case Scanning(op, v, pid, got) =>
      if pid !in pages then None
      else (match pages[pid]
            case Leaf(_, _, next) =>
              var got' := got + Hits(op, pages[pid], v);
              if PastIn(op, pages[pid], v) || next == NO_PAGE then Some(Done(op, v, got'))
              else Some(Scanning(op, v, next, got'))
            case Internal(_, _) => Some(Done(op, v, got)))
    case Done(_, _, _) => None
  }

  datatype Event = Writer(t: Tid, a: Action) | Read

  datatype System = System(s: State, rd: Reader)

  function Happens(c: Config, y: System, e: Event): Option<System> {
    match e
    case Writer(t, a) =>
      (match Next(c, y.s, t, a)
       case None => None
       case Some(s') => Some(System(s', y.rd)))
    case Read =>
      (match ReadStep(y.s.pages, y.s.root, y.rd)
       case None => None
       case Some(rd') => Some(System(y.s, rd')))
  }

  function History(c: Config, y: System, events: seq<Event>): Option<System>
    decreases |events|
  {
    if events == [] then Some(y)
    else
      match Happens(c, y, events[0])
      case None => None
      case Some(y') => History(c, y', events[1..])
  }

  /** The pairs the writers take away during a history. */
  function LostDuring(c: Config, y: System, events: seq<Event>): set<Entry>
    decreases |events|
  {
    if events == [] then {}
    else
      var lost := if events[0].Writer? then Lost(y.s, events[0].t, events[0].a) else {};
      match Happens(c, y, events[0])
      case None => lost
      case Some(y') => lost + LostDuring(c, y', events[1..])
  }

  /** Row `r` has been collected, or lies in a leaf at or right of page `p`. */
  ghost predicate Ahead(pages: Pages, g: Shape, p: PageId, got: seq<Row>, r: Row) {
    p in g.spans && (r in got || FoundFrom(pages, g, r, g.spans[p].a))
  }

  predicate Within(lost: set<Entry>, r: Row) {
    Entry(r.key, r.rid) in lost
  }

  /** What the reader collected is admitted, and stored unless it was taken away meanwhile. */
  ghost predicate Sound(pages: Pages, g: Shape, rd: Reader, got: seq<Row>, lost: set<Entry>) {
    forall r :: r in got ==> (r in Rows(pages, g) || Within(lost, r)) && Admits(rd.op, r.key, rd.v)
  }

  /** Every wanted row is still ahead of the reader or collected. */
  ghost predicate ReaderOk(pages: Pages, g: Shape, rd: Reader, want: set<Row>, lost: set<Entry>) {
    && (forall r :: r in want ==> Admits(rd.op, r.key, rd.v))
    && match rd
       case Starting(_, _) => forall r :: r in want ==> FoundFrom(pages, g, r, 0.0)
       case Descending(_, _, pid) => pid in g.spans && forall r :: r in want ==> Ahead(pages, g, pid, [], r)
       case Scanning(_, _, pid, got) =>
         && pid in g.spans && g.spans[pid].level == 0 && Sound(pages, g, rd, got, lost)
         && (forall r :: r in want ==> Ahead(pages, g, pid, got, r))
       case Done(_, _, got) => Sound(pages, g, rd, got, lost) && forall r :: r in want ==> r in got
  }

  /** The writers moved rows right only, but for those they took away, so the reader has lost no other. */
  lemma ReaderKept(pages: Pages, g: Shape, pages': Pages, g': Shape, rd: Reader, want: set<Row>, lost: set<Entry>,
                   more: set<Entry>)
    requires ReaderOk(pages, g, rd, want, lost) && EvolvesBut(pages, g, pages', g', more)
    requires forall r :: r in want ==> !Within(more, r)
    ensures ReaderOk(pages', g', rd, want, lost + more)
  {
    hide RowSet;
    hide Admits;
    if rd.Scanning? || rd.Done? {
      forall r | r in rd.got ensures r in Rows(pages', g') || Within(lost + more, r) {
        if r in Rows(pages, g) && !Within(more, r) { RowKept(pages, g, pages', g', r, more); }
      }
    }
    forall r, x | FoundFrom(pages, g, r, x) && !Within(more, r) ensures FoundFrom(pages', g', r, x) {
      FoundKept(pages, g, pages', g', r, x, more);
    }
    hide FoundFrom;
    hide Within;
    hide Rows;
    if rd.Scanning? {
      assert forall r :: r in want ==> Ahead(pages, g, rd.pid, rd.got, r);
      assert forall r :: r in want ==> Ahead(pages', g', rd.pid, rd.got, r);
    } else if rd.Descending? {
      assert forall r :: r in want ==> Ahead(pages, g, rd.pid, [], r);
      assert forall r :: r in want ==> Ahead(pages', g', rd.pid, [], r);
    }
  }

  lemma FoundKept(pages: Pages, g: Shape, pages': Pages, g': Shape, r: Row, x: real, lost: set<Entry>)
    requires FoundFrom(pages, g, r, x) && EvolvesBut(pages, g, pages', g', lost) && !Within(lost, r)
    ensures FoundFrom(pages', g', r, x)
  {
    hide RowSet;
    var p :| p in g.spans && p in pages && x <= g.spans[p].a && r in RowSet(pages[p]);
    assert FoundFrom(pages', g', r, g.spans[p].a);
  }

  lemma RowKept(pages: Pages, g: Shape, pages': Pages, g': Shape, r: Row, lost: set<Entry>)
    requires r in Rows(pages, g) && EvolvesBut(pages, g, pages', g', lost) && !Within(lost, r)
    ensures r in Rows(pages', g')
  {
    hide RowSet;
    var p :| p in g.spans && p in pages && r in RowSet(pages[p]);
    assert FoundFrom(pages', g', r, g.spans[p].a);
  }

  lemma HitStored(op: Op, pages: Pages, g: Shape, p: PageId, v: Key, r: Row)
    requires p in g.spans && p in pages && r in Hits(op, pages[p], v)
    ensures r in Rows(pages, g) && Admits(op, r.key, v)
  {
    var rows := LeafRows(pages[p])[..StopOf(op, pages[p], v)];
    AdmittedIn(op, rows, v, r);
    assert r in LeafRows(pages[p]);
    assert r in RowSet(pages[p]);
  }

  /** A read never fails and keeps every wanted row ahead or collected. */
  lemma ReadKeeps(pages: Pages, root: PageId, g: Shape, pend: set<PageId>, kind: Kind, rd: Reader, want: set<Row>,
                  lost: set<Entry>)
    requires TreeInv(pages, root, g, pend, kind) && ReaderOk(pages, g, rd, want, lost) && !rd.Done?
    ensures ReadStep(pages, root, rd).Some? && ReaderOk(pages, g, ReadStep(pages, root, rd).value, want, lost)
  {
    match rd
    case Starting(_, _) =>
      ShapeParts(pages, root, g, pend, kind);
      hide TreeInv;
      assert g.spans[root].a == 0.0;
      assert forall r :: r in want ==> Ahead(pages, g, root, [], r);
    case Descending(_, _, _) => DescendReads(pages, root, g, pend, kind, rd, want, lost);
    case Scanning(_, _, _, _) => ScanReads(pages, root, g, pend, kind, rd, want, lost);
  }

  lemma DescendReads(pages: Pages, root: PageId, g: Shape, pend: set<PageId>, kind: Kind, rd: Reader, want: set<Row>,
                     lost: set<Entry>)
    requires TreeInv(pages, root, g, pend, kind) && ReaderOk(pages, g, rd, want, lost) && rd.Descending?
    ensures ReadStep(pages, root, rd).Some? && ReaderOk(pages, g, ReadStep(pages, root, rd).value, want, lost)
  {
    hide TreeInv;
    hide FoundFrom;
    hide Admits;
    hide RouteRead;
    TreePage(pages, root, g, pend, kind, rd.pid);
    if g.spans[rd.pid].level == 0 {
      assert forall r :: r in want ==> Ahead(pages, g, rd.pid, [], r);
    } else {
      ReadTarget(rd.op, pages, root, g, pend, kind, rd.pid, rd.v);
      var child := pages[rd.pid].children[RouteRead(rd.op, pages[rd.pid].keys, rd.v)];
      forall r | r in want ensures Ahead(pages, g, child, [], r) {
        assert Ahead(pages, g, rd.pid, [], r);
        DescendKeepsAhead(rd.op, pages, root, g, pend, kind, rd.pid, rd.v, r);
      }
    }
  }

  lemma ScanReads(pages: Pages, root: PageId, g: Shape, pend: set<PageId>, kind: Kind, rd: Reader, want: set<Row>,
                  lost: set<Entry>)
    requires TreeInv(pages, root, g, pend, kind) && ReaderOk(pages, g, rd, want, lost) && rd.Scanning?
    ensures ReadStep(pages, root, rd).Some? && ReaderOk(pages, g, ReadStep(pages, root, rd).value, want, lost)
  {
    hide TreeInv;
    hide FoundFrom;
    hide Admits;
    hide Hits;
    hide PastIn;
    hide Rows;
    TreePage(pages, root, g, pend, kind, rd.pid);
    var n := pages[rd.pid];
    var got' := rd.got + Hits(rd.op, n, rd.v);
    var rd' := ReadStep(pages, root, rd).value;
    forall r | r in got' ensures (r in Rows(pages, g) || Within(lost, r)) && Admits(rd.op, r.key, rd.v) {
      if r in Hits(rd.op, n, rd.v) { HitStored(rd.op, pages, g, rd.pid, rd.v, r); }
    }
    assert Sound(pages, g, rd', got', lost);
    forall r | r in want ensures r in got' || (rd'.Scanning? && Ahead(pages, g, rd'.pid, got', r)) {
      assert Ahead(pages, g, rd.pid, rd.got, r);
      if r !in rd.got { LeafKeepsAhead(rd.op, pages, root, g, pend, kind, rd.pid, rd.v, r); }
    }
  }

  /** The whole history of one lookup among any writers. */
  lemma {:induction false} HistoryKeeps(c: Config, y: System, y': System, events: seq<Event>, g: Shape,
                                        pend: set<PageId>,
                                        base: set<Entry>, want: set<Row>, lost: set<Entry>)
    returns (g': Shape, pend': set<PageId>)
    requires Inv(c, y.s, g, pend, base) && ReaderOk(y.s.pages, g, y.rd, want, lost)
    requires History(c, y, events) == Some(y') && (forall r :: r in want ==> !Within(LostDuring(c, y, events), r))
    ensures Inv(c, y'.s, g', pend', base) && ReaderOk(y'.s.pages, g', y'.rd, want, lost + LostDuring(c, y, events))
    ensures y'.rd.op == y.rd.op && y'.rd.v == y.rd.v
    decreases |events|
  {
    hide Inv;
    hide Next;
    hide ReadStep;
    hide ReaderOk;
    hide EvolvesBut;
    hide Lost;
    if events == [] {
      g', pend' := g, pend;
      assert lost + LostDuring(c, y, events) == lost;
    } else {
      var mid := Happens(c, y, events[0]).value;
      var gm, pm, more: set<Entry> := g, pend, {};
      match events[0] {
        case Writer(t, a) =>
          var gg := StepKeeps(c, y.s, mid.s, t, a, g, pend, base);
          gm, pm, more := gg.g, gg.pend, Lost(y.s, t, a);
          assert forall r :: r in want ==> !Within(more, r);
          ReaderKept(y.s.pages, g, mid.s.pages, gm, y.rd, want, lost, more);
        case Read =>
          TreeCovers(c, y.s, g, pend, base);
          ReadStepSame(y.s.pages, y.s.root, y.rd);
          ReadKeeps(y.s.pages, y.s.root, g, pend, c.kind, y.rd, want, lost);
          assert lost + more == lost;
      }
      assert forall r :: r in want ==> !Within(LostDuring(c, mid, events[1..]), r);
      g', pend' := HistoryKeeps(c, mid, y', events[1..], gm, pm, base, want, lost + more);
      assert lost + more + LostDuring(c, mid, events[1..]) == lost + LostDuring(c, y, events);
    }
  }

  lemma ReadStepSame(pages: Pages, root: PageId, rd: Reader)
    requires ReadStep(pages, root, rd).Some?
    ensures !rd.Done?
    ensures ReadStep(pages, root, rd).value.op == rd.op && ReadStep(pages, root, rd).value.v == rd.v
  {
  }

  /**
    A lookup that starts in any reachable state returns every admitted row stored at its
    start that is not taken away meanwhile, and only rows that are stored when it ends or
    were taken away meanwhile.
   */
  lemma ReaderMissesNothing(c: Config, s: State, y': System, events: seq<Event>, op: Op, v: Key,
                            g: Shape, pend: set<PageId>, base: set<Entry>)
    returns (g': Shape, pend': set<PageId>)
    requires Inv(c, s, g, pend, base) && History(c, System(s, Starting(op, v)), events) == Some(y') && y'.rd.Done?
    ensures Inv(c, y'.s, g', pend', base)
    ensures forall r :: r in Rows(s.pages, g) && Admits(op, r.key, v) ==>
              r in y'.rd.got || Within(LostDuring(c, System(s, Starting(op, v)), events), r)
    ensures forall r :: r in y'.rd.got ==>
              (r in Rows(y'.s.pages, g') || Within(LostDuring(c, System(s, Starting(op, v)), events), r))
              && Admits(op, r.key, v)
  {
    hide Inv;
    hide History;
    hide Admits;
    hide LostDuring;
    hide Within;
    TreeCovers(c, s, g, pend, base);
    var lost := LostDuring(c, System(s, Starting(op, v)), events);
    var want := set r | r in Rows(s.pages, g) && Admits(op, r.key, v) && !Within(lost, r);
    forall r | r in want ensures FoundFrom(s.pages, g, r, 0.0) {
      FoundSomewhere(s.pages, s.root, g, pend, c.kind, r);
    }
    g', pend' := HistoryKeeps(c, System(s, Starting(op, v)), y', events, g, pend, base, want, {});
    assert {} + lost == lost;
  }

  lemma FoundSomewhere(pages: Pages, root: PageId, g: Shape, pend: set<PageId>, kind: Kind, r: Row)
    requires TreeInv(pages, root, g, pend, kind) && r in Rows(pages, g)
    ensures FoundFrom(pages, g, r, 0.0)
  {
    var p :| p in g.spans && p in pages && r in RowSet(pages[p]);
    ShapeParts(pages, root, g, pend, kind);
    hide TreeInv;
    hide RowSet;
    assert SpanOk(g, p);
  }

  /** At no point of any history can the lookup get stuck. */
  lemma ReaderNeverStuck(c: Config, y: System, g: Shape, pend: set<PageId>, base: set<Entry>, want: set<Row>,
                         lost: set<Entry>)
    requires Inv(c, y.s, g, pend, base) && ReaderOk(y.s.pages, g, y.rd, want, lost) && !y.rd.Done?
    ensures Happens(c, y, Read).Some?
  {
    hide Inv;
    hide ReaderOk;
    hide ReadStep;
    TreeCovers(c, y.s, g, pend, base);
    ReadKeeps(y.s.pages, y.s.root, g, pend, c.kind, y.rd, want, lost);
  }
}
