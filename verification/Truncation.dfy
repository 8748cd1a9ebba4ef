/**
  What becomes of the log behind a checkpoint: which records each truncation discards, that
  it keeps back what recovery and replication slots still read, and how it is carried out on
  the segment files of the log.
 */
module Truncation {
  import opened Keys
  import opened Durability

  // ── the truncation point ───────────────────────────────────────────────────

  /** The record may be gone from the log. */
  predicate Discarded(s: State, n: Lsn) {
    n < s.floor
  }

  /** A truncation discards what lies before the checkpoint record and before what is to be retained. */
  lemma StepDiscards(s: State, s': State, a: Action, n: Lsn)
    requires Next(s, a) == Some(s')
    ensures Discarded(s', n) <==> Discarded(s, n) || (a.Truncate? && n < s.ckpt && n < a.retain)
  {
  }

  /** Step `k` of the run truncates the log behind record `n`. */
  ghost predicate Cuts(s: State, steps: seq<Action>, k: nat, n: Lsn) {
    && k < |steps| && steps[k].Truncate? && n < steps[k].retain
    && Run(s, steps[..k]).Some? && n < Run(s, steps[..k]).value.ckpt
  }

  lemma CutsLater(s: State, mid: State, steps: seq<Action>, k: nat, n: Lsn)
    requires steps != [] && Next(s, steps[0]) == Some(mid)
    ensures Cuts(mid, steps[1..], k, n) <==> Cuts(s, steps, k + 1, n)
  {
    hide Next;
    if k < |steps[1..]| {
      assert steps[..k + 1][0] == steps[0] && steps[..k + 1][1..] == steps[1..][..k];
    }
  }

  /** Over a whole run a record is discarded exactly if some truncation was behind it. */
  lemma {:induction false} RunDiscards(s: State, s': State, steps: seq<Action>, n: Lsn)
    requires Run(s, steps) == Some(s')
    ensures Discarded(s', n) <==> Discarded(s, n) || exists k: nat :: Cuts(s, steps, k, n)
    decreases |steps|
  {
    if steps != [] {
      var mid := Next(s, steps[0]).value;
      StepDiscards(s, mid, steps[0], n);
      RunDiscards(mid, s', steps[1..], n);
      hide Next;
      assert steps[..0] == [];
      assert Cuts(s, steps, 0, n) <==> steps[0].Truncate? && n < s.ckpt && n < steps[0].retain;
      if k: nat :| Cuts(mid, steps[1..], k, n) {
        CutsLater(s, mid, steps, k, n);
      }
      if k: nat :| Cuts(s, steps, k, n) {
        if k > 0 { CutsLater(s, mid, steps, k - 1, n); }
      }
    }
  }

  /**
    From an empty system: no record at or after every retained position is ever discarded, and
    none that recovery looks at.
   */
  lemma NothingNeededGoes(s: State, steps: seq<Action>, n: Lsn)
    requires Run(START, steps) == Some(s) && Sighted(START, steps)
    requires (forall k :: 0 <= k < |steps| && steps[k].Truncate? ==> steps[k].retain <= n) || n > From(s.ckpt)
    ensures !Discarded(s, n)
  {
    hide Next;
    RunDiscards(START, s, steps, n);
    StartOk();
    RunKeeps(START, s, steps);
  }

  // ── replication slots ──────────────────────────────────────────────────────

  /** The least position of a slot, unless the log would grow beyond `most`; without slots, anything may go. */
  function Retained(slots: seq<Lsn>, current: Lsn, most: nat): Option<Lsn> {
    if slots == [] then None
    else
      var low := Least(slots);
      Some(if current > most && low < current - most then current - most else low)
  }

  function Least(slots: seq<Lsn>): (low: Lsn)
    requires slots != []
    ensures low in slots && forall x :: x in slots ==> low <= x
  {
    if |slots| == 1 then slots[0]
    else
      var low := Least(slots[1..]);
      assert slots == [slots[0]] + slots[1..];
      if slots[0] <= low then slots[0] else low
  }

  /** Where a checkpoint whose record has LSN `ckpt` truncates the log. */
  function CutAt(slots: seq<Lsn>, current: Lsn, most: nat, ckpt: Lsn): Lsn {
    match Retained(slots, current, most)
    case None => ckpt
    case Some(low) => if low < ckpt then low else ckpt
  }

  /**
    No slot loses a record it has yet to stream exactly if the one furthest behind is behind
    the end of the log by no more than the cap, or not behind the checkpoint at all.
   */
  lemma SlotsKeepIff(slots: seq<Lsn>, current: Lsn, most: nat, ckpt: Lsn)
    requires slots != []
    ensures (forall x :: x in slots ==> CutAt(slots, current, most, ckpt) <= x) <==>
              current <= Least(slots) + most || ckpt <= Least(slots)
  {
    var low := Least(slots);
    assert low in slots;
  }

  // ── segment files ──────────────────────────────────────────────────────────

  /**
    A segment file: its index, the LSN of its first record, and whether its header can be
    read. It holds the records up to the first one of the next segment.
   */
  datatype Segment = Segment(idx: nat, first: Lsn, readable: bool)

  /** The base LSN as it is read back; a short or garbled header reads as 0. */
  function Base(g: Segment): Lsn {
    if g.readable then g.first else 0
  }

  /** Segments in the order of their indices and of their records; the last one is appended to. */
  ghost predicate InSequence(segs: seq<Segment>) {
    && segs != []
    && (forall i, j :: 0 <= i < j < |segs| ==> segs[i].idx < segs[j].idx && segs[i].first <= segs[j].first)
  }

  /** Segment `i` holds record `n`, where `end` is the LSN of the next record to be written. */
  predicate Holds(segs: seq<Segment>, end: Lsn, i: nat, n: Lsn) {
    i < |segs| && segs[i].first <= n < if i + 1 < |segs| then segs[i + 1].first else end
  }

  predicate Removed(segs: seq<Segment>, keep: Lsn, i: nat) {
    i + 1 < |segs| && Base(segs[i + 1]) <= keep
  }

  function Kept(segs: seq<Segment>, keep: Lsn, i: nat): seq<Segment>
    requires i <= |segs|
  {
    if i == 0 then []
    else Kept(segs, keep, i - 1) + if Removed(segs, keep, i - 1) then [] else [segs[i - 1]]
  }

  /** `truncate_before`: remove every sealed segment whose successor starts at or before `keep`. */
  method TruncateBefore(segs: seq<Segment>, active: nat, keep: Lsn) returns (kept: seq<Segment>)
    requires InSequence(segs) && segs[|segs| - 1].idx == active
    ensures kept == Kept(segs, keep, |segs|) && kept != [] && kept[|kept| - 1] == segs[|segs| - 1]
    ensures forall i :: 0 <= i < |segs| ==> (segs[i] in kept <==> !Removed(segs, keep, i))
  {
    kept := [];
    for i := 0 to |segs|
      invariant kept == Kept(segs, keep, i) && (i == |segs| ==> kept != [] && kept[|kept| - 1] == segs[i - 1])
    {
      if segs[i].idx != active && Base(segs[i + 1]) <= keep {
        assert Removed(segs, keep, i);
      } else {
        kept := kept + [segs[i]];
      }
    }
    forall i | 0 <= i < |segs| ensures segs[i] in kept <==> !Removed(segs, keep, i) {
      KeptIff(segs, keep, |segs|, i);
    }
  }

  lemma {:induction false} KeptIff(segs: seq<Segment>, keep: Lsn, k: nat, i: nat)
    requires InSequence(segs) && k <= |segs| && i < |segs|
    ensures segs[i] in Kept(segs, keep, k) <==> i < k && !Removed(segs, keep, i)
  {
    if k > 0 {
      KeptIff(segs, keep, k - 1, i);
      if i != k - 1 { assert segs[i].idx != segs[k - 1].idx; }
    }
  }

  /** Every record from `keep` on is in a segment that stays. */
  ghost predicate Spares(segs: seq<Segment>, end: Lsn, keep: Lsn) {
    forall i: nat, n: Lsn :: keep <= n && Holds(segs, end, i, n) ==> segs[i] in Kept(segs, keep, |segs|)
  }

  /** The header after segment `i` cannot be read, and the segment has records, up to one at or after `keep`. */
  predicate Misread(segs: seq<Segment>, keep: Lsn, i: nat) {
    i + 1 < |segs| && !segs[i + 1].readable && segs[i].first < segs[i + 1].first && keep < segs[i + 1].first
  }

  /**
    Truncation spares every record from `keep` on exactly if no segment that has such a record is
    followed by one whose header cannot be read.
   */
  lemma SparesIff(segs: seq<Segment>, end: Lsn, keep: Lsn)
    requires InSequence(segs)
    ensures Spares(segs, end, keep) <==> forall i: nat :: !Misread(segs, keep, i)
  {
    hide Kept;
    forall i: nat | i < |segs| ensures segs[i] in Kept(segs, keep, |segs|) <==> !Removed(segs, keep, i) {
      KeptIff(segs, keep, |segs|, i);
    }
    if i: nat :| Misread(segs, keep, i) {
      assert Holds(segs, end, i, segs[i + 1].first - 1) && Removed(segs, keep, i);
      assert !Spares(segs, end, keep);
    } else if !Spares(segs, end, keep) {
      var i: nat, n: Lsn :| keep <= n && Holds(segs, end, i, n) && segs[i] !in Kept(segs, keep, |segs|);
      assert Misread(segs, keep, i);
    }
  }

  /** With readable headers what stays is the shortest run of segments that has every record from `keep` on. */
  lemma ReadableSuffix(segs: seq<Segment>, end: Lsn, keep: Lsn, i: nat)
    requires InSequence(segs) && (forall j :: 0 <= j < |segs| ==> segs[j].readable) && i < |segs|
    ensures Spares(segs, end, keep)
    ensures segs[i] !in Kept(segs, keep, |segs|) <==> i + 1 < |segs| && segs[i + 1].first <= keep
    ensures forall j :: 0 <= j < i && segs[i] !in Kept(segs, keep, |segs|) ==> segs[j] !in Kept(segs, keep, |segs|)
  {
    SparesIff(segs, end, keep);
    forall j | 0 <= j < |segs| ensures segs[j] in Kept(segs, keep, |segs|) <==> !Removed(segs, keep, j) {
      KeptIff(segs, keep, |segs|, j);
    }
  }

  /** A garbled header: the segment before it goes, with all the records a slot at 40 has yet to stream. */
  lemma GarbledHeaderLosesRecords()
    ensures var segs := [Segment(1, 1, true), Segment(2, 90, false), Segment(3, 120, true)];
            InSequence(segs) && Holds(segs, 130, 0, 50) && segs[0] !in Kept(segs, 40, 3) && !Spares(segs, 130, 40)
  {
    var segs := [Segment(1, 1, true), Segment(2, 90, false), Segment(3, 120, true)];
    assert InSequence(segs);
    KeptIff(segs, 40, 3, 0);
    assert Removed(segs, 40, 0) && Holds(segs, 130, 0, 50);
  }
}
