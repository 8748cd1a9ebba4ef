/**
  What the redo pass of the source rebuilds: it redoes only records of mini-transactions
  whose commit record survives, from the checkpoint record on. This says exactly when that
  is the state after the last surviving record, and exactly when it repairs a torn page.
 */
module Recovery {
  import opened Keys
  import opened Durability

  // ── which records are redone ───────────────────────────────────────────────

  /**
    Record `j` is redone: it is not older than the checkpoint, and its mini-transaction
    committed, or all are taken.
   */
  predicate Sel(log: Log, from: nat, j: nat, all: bool)
    requires j < |log|
  {
    from <= j && Selected(log, from, j + 1, all)
  }

  /** Where the redo pass has a page for certain: after its last redone whole image, or at the LSN it has on disk. */
  function BaseOf(log: Log, from: nat, n: nat, d: Lsn, p: PageId, all: bool): nat
    requires from <= n <= |log|
    decreases n
  {
    if n == from then d
    else if Whole(log[n - 1], p) && Sel(log, from, n - 1, all) then n
    else BaseOf(log, from, n - 1, d, p, all)
  }

  /** No whole image of the page is redone in this stretch. */
  ghost predicate NoWhole(log: Log, from: nat, lo: nat, n: nat, p: PageId, all: bool) {
    forall j :: lo <= j < n && j < |log| ==> !(Whole(log[j], p) && Sel(log, from, j, all))
  }

  /** Every change of the page in this stretch is redone. */
  ghost predicate CleanFrom(log: Log, from: nat, lo: nat, n: nat, p: PageId, all: bool) {
    forall j :: lo <= j < n && j < |log| && Changes(log[j], p) ==> Sel(log, from, j, all)
  }

  lemma {:induction false} BaseCases(log: Log, from: nat, n: nat, d: Lsn, p: PageId, all: bool)
    requires from <= n <= |log|
    ensures var b := BaseOf(log, from, n, d, p, all);
            || (b == d && NoWhole(log, from, from, n, p, all))
            || (from < b <= n && Whole(log[b - 1], p) && Sel(log, from, b - 1, all) && NoWhole(log, from, b, n, p, all))
    decreases n
  {
    if n > from && !(Whole(log[n - 1], p) && Sel(log, from, n - 1, all)) { BaseCases(log, from, n - 1, d, p, all); }
  }

  // ── when redo is exact ─────────────────────────────────────────────────────

  /** From a known state on, clean changes are all redone. */
  lemma {:induction false} CleanCatchesUp(log: Log, from: nat, b: nat, n: nat, p: PageId, x: Page, all: bool)
    requires from <= b <= n <= |log| && NoWhole(log, from, b, n, p, all) && CleanFrom(log, from, b, n, p, all)
    requires TrueImages(log, p)
    requires Redone(log, from, b, x, p, all) == At(log, b, p)
    ensures Redone(log, from, n, x, p, all) == At(log, n, p)
    decreases n
  {
    if b < n {
      CleanCatchesUp(log, from, b, n - 1, p, x, all);
      AtBound(log, n - 1, p);
      assert !(Whole(log[n - 1], p) && Sel(log, from, n - 1, all));
      assert Changes(log[n - 1], p) ==> Sel(log, from, n - 1, all);
    }
  }

  /** Records up to the page's LSN on disk leave it alone. */
  lemma {:induction false} DiskAhead(log: Log, from: nat, n: nat, p: PageId, d: Page, all: bool)
    requires from <= n <= |log| && n <= d.lsn && NoWhole(log, from, from, n, p, all)
    ensures Redone(log, from, n, d, p, all) == d
    decreases n
  {
    if from < n {
      DiskAhead(log, from, n - 1, p, d, all);
      assert !(Whole(log[n - 1], p) && Sel(log, from, n - 1, all));
    }
  }

  lemma {:induction false} MadeBound(log: Log, n: nat, p: PageId, l: Lsn)
    requires n <= |log| && l in At(log, n, p).made
    ensures 0 < l <= n && l <= At(log, n, p).lsn && Changes(log[l - 1], p)
  {
    if n > 0 {
      AtMono(log, n - 1, n, p);
      if l in At(log, n - 1, p).made { MadeBound(log, n - 1, p, l); }
    }
  }

  /** Beyond the base, redo adds only records it redoes. */
  lemma {:induction false} OnlyRedoneAdded(log: Log, from: nat, b: nat, m: nat, n: nat, p: PageId, x: Page, l: Lsn,
                                           all: bool)
    requires from <= m <= n <= |log| && NoWhole(log, from, m, n, p, all)
    requires forall k :: k in Redone(log, from, m, x, p, all).made ==> k <= b
    requires l in Redone(log, from, n, x, p, all).made && l > b
    ensures 0 < l <= n && Sel(log, from, l - 1, all)
    decreases n
  {
    if m < n {
      assert !(Whole(log[n - 1], p) && Sel(log, from, n - 1, all));
      if l in Redone(log, from, n - 1, x, p, all).made { OnlyRedoneAdded(log, from, b, m, n - 1, p, x, l, all); }
    }
  }

  /** A change that is not redone shows in the true state. */
  lemma {:induction false} SkippedShows(log: Log, from: nat, b: nat, n: nat, p: PageId, u: nat, all: bool)
    returns (l: Lsn)
    requires b <= u < n <= |log| && NoWhole(log, from, b, n, p, all) && Changes(log[u], p) && !Sel(log, from, u, all)
    ensures b < l <= n && l in At(log, n, p).made && !Sel(log, from, l - 1, all)
    decreases n
  {
    assert !(Whole(log[n - 1], p) && Sel(log, from, n - 1, all));
    if Changes(log[n - 1], p) && !Sel(log, from, n - 1, all) {
      l := n;
    } else {
      l := SkippedShows(log, from, b, n - 1, p, u, all);
    }
  }

  /**
    Redo stands at record `m` with nothing beyond `b` in the page. If it is exact there, or if
    it has left out a change, it is exact later if and only if it leaves out none.
   */
  lemma ExactFrom(log: Log, from: nat, b: nat, m: nat, n: nat, p: PageId, x: Page, all: bool)
    requires from <= m <= n <= |log| && b <= m && NoWhole(log, from, b, n, p, all) && TrueImages(log, p)
    requires forall k :: k in Redone(log, from, m, x, p, all).made ==> k <= b
    requires CleanFrom(log, from, b, m, p, all) ==> Redone(log, from, m, x, p, all) == At(log, m, p)
    ensures Redone(log, from, n, x, p, all) == At(log, n, p) <==> CleanFrom(log, from, b, n, p, all)
  {
    if CleanFrom(log, from, b, n, p, all) {
      CleanCatchesUp(log, from, m, n, p, x, all);
    } else {
      var u :| b <= u < n && u < |log| && Changes(log[u], p) && !Sel(log, from, u, all);
      var l := SkippedShows(log, from, b, n, p, u, all);
      if l in Redone(log, from, n, x, p, all).made { OnlyRedoneAdded(log, from, b, m, n, p, x, l, all); }
    }
  }

  lemma WholeBase(log: Log, from: nat, b: nat, p: PageId, x: Page, all: bool)
    requires from < b <= |log| && Whole(log[b - 1], p) && Sel(log, from, b - 1, all) && TrueImages(log, p)
    ensures Redone(log, from, b, x, p, all) == At(log, b, p)
    ensures forall k :: k in At(log, b, p).made ==> k <= b
  {
    forall k | k in At(log, b, p).made ensures k <= b { MadeBound(log, b, p, k); }
  }

  /** A page that no record changed since its LSN is as it was. */
  lemma {:induction false} UnchangedSince(log: Log, n: nat, m: nat, p: PageId)
    requires n <= m <= |log| && forall j :: n <= j < m ==> !Changes(log[j], p)
    ensures At(log, m, p) == At(log, n, p)
    decreases m
  {
    if n < m { UnchangedSince(log, n, m - 1, p); }
  }

  /**
    On a page of which every older change is known, redo is exact if and only if it leaves out
    no change after the base.
   */
  lemma ExactIff(log: Log, from: nat, n: nat, p: PageId, d: Page, all: bool)
    requires from <= n <= |log| && TrueImages(log, p) && d.lsn <= n && d == At(log, d.lsn, p)
    ensures Redone(log, from, n, d, p, all) == At(log, n, p) <==>
              CleanFrom(log, from, BaseOf(log, from, n, d.lsn, p, all), n, p, all)
  {
    BaseCases(log, from, n, d.lsn, p, all);
    var b := BaseOf(log, from, n, d.lsn, p, all);
    if b == d.lsn && NoWhole(log, from, from, n, p, all) {
      forall k | k in d.made ensures k <= d.lsn { MadeBound(log, d.lsn, p, k); }
      assert NoWhole(log, from, b, n, p, all);
      if from <= b {
        DiskAhead(log, from, b, p, d, all);
        ExactFrom(log, from, b, b, n, p, d, all);
      } else {
        if CleanFrom(log, from, b, from, p, all) { UnchangedSince(log, b, from, p); }
        ExactFrom(log, from, b, from, n, p, d, all);
      }
    } else {
      WholeBase(log, from, b, p, d, all);
      ExactFrom(log, from, b, b, n, p, d, all);
    }
  }

  /**
    Crash at any step of any run, with any part of the log beyond the durable prefix kept:
    the redo pass rebuilds page `p` exactly if and only if it redoes every change of the page
    after the base, that is, each is of a mini-transaction whose commit survived, and none
    is older than the checkpoint.
   */
  lemma RecoveryExactIff(s: State, log: Log, p: PageId)
    requires Inv(s) && Survives(s, log)
    ensures From(s.ckpt) <= |log|
    ensures var base := BaseOf(log, From(s.ckpt), |log|, PageAt(s.disk, p).lsn, p, false);
            Recovered(s, log, p, false) == At(log, |log|, p) <==> CleanFrom(log, From(s.ckpt), base, |log|, p, false)
  {
    hide Inv;
    SurvivorFacts(s, log, p);
    ExactIff(log, From(s.ckpt), |log|, p, PageAt(s.disk, p), false);
  }

  // ── changes the checkpoint lets recovery skip ──────────────────────────────

  /** A late change in memory terms is one in the surviving log's, which has all that is older than the checkpoint. */
  lemma SkippedIffLate(s: State, log: Log, p: PageId, all: bool)
    requires Inv(s) && Survives(s, log) && CleanFrom(log, From(s.ckpt), From(s.ckpt), |log|, p, all)
    ensures CleanFrom(log, From(s.ckpt), PageAt(s.disk, p).lsn, |log|, p, all) <==> !Late(s, p)
  {
    hide Inv;
    CoveredIff(s, p);
    SurvivorFacts(s, log, p);
    var from, d := From(s.ckpt), PageAt(s.disk, p).lsn;
    if Covered(s, from, p) {
      forall j | d <= j < |log| && Changes(log[j], p) ensures Sel(log, from, j, all) {
        assert log[j] == s.log[j];
      }
    } else {
      var j :| 0 <= j < from && Changes(s.log[j], p) && d <= j;
      assert log[j] == s.log[j];
      assert !Sel(log, from, j, all);
    }
  }

  /**
    Of a page all of whose changes since the checkpoint committed, the redo pass rebuilds
    everything if and only if it redoes a whole image of it or the checkpoint's flush
    missed none of its changes.
   */
  lemma CheckpointSafeIff(s: State, log: Log, p: PageId)
    requires Inv(s) && Survives(s, log) && CleanFrom(log, From(s.ckpt), From(s.ckpt), |log|, p, false)
    ensures From(s.ckpt) <= |log|
    ensures Recovered(s, log, p, false) == At(log, |log|, p)
            <==> !Late(s, p) || !NoWhole(log, From(s.ckpt), From(s.ckpt), |log|, p, false)
  {
    hide Inv;
    SurvivorFacts(s, log, p);
    RecoveryExactIff(s, log, p);
    SkippedIffLate(s, log, p, false);
    BaseCases(log, From(s.ckpt), |log|, PageAt(s.disk, p).lsn, p, false);
    hide Recovered;
    hide Late;
  }

  /** Redoing the records of mini-transactions that did not commit as well would not bring a late change back either. */
  lemma RedoAllExactIff(s: State, log: Log, p: PageId)
    requires Inv(s) && Survives(s, log)
    ensures From(s.ckpt) <= |log|
    ensures Recovered(s, log, p, true) == At(log, |log|, p) <==> !Late(s, p) || WholeFrom(log, From(s.ckpt), |log|, p)
  {
    hide Inv;
    SurvivorFacts(s, log, p);
    var from, d := From(s.ckpt), PageAt(s.disk, p);
    ExactIff(log, from, |log|, p, d, true);
    SkippedIffLate(s, log, p, true);
    BaseCases(log, from, |log|, d.lsn, p, true);
    hide Late;
  }

  // ── torn pages ─────────────────────────────────────────────────────────────

  /** A whole image of the page is redone, and so is every change after the last one. */
  ghost predicate Repairs(log: Log, from: nat, p: PageId)
    requires from <= |log|
  {
    && !NoWhole(log, from, from, |log|, p, false)
    && CleanFrom(log, from, BaseOf(log, from, |log|, 0, p, false), |log|, p, false)
  }

  /**
    The redo pass repairs page `p`, whatever the crash left of it, if and only if it redoes
    a whole image of the page and every change after the last such image.
   */
  lemma TornPageRepairedIff(s: State, log: Log, p: PageId)
    requires Inv(s) && Survives(s, log)
    ensures From(s.ckpt) <= |log|
    ensures (forall torn :: Redone(log, From(s.ckpt), |log|, torn, p, false) == At(log, |log|, p))
            <==> Repairs(log, From(s.ckpt), p)
  {
    hide Inv;
    SurvivorFacts(s, log, p);
    var from, n := From(s.ckpt), |log|;
    if NoWhole(log, from, from, n, p, false) {
      var torn := Page(n + 1, []);
      DiskAhead(log, from, n, p, torn, false);
      AtBound(log, n, p);
    } else {
      BaseCases(log, from, n, 0, p, false);
      var b := BaseOf(log, from, n, 0, p, false);
      forall torn
        ensures Redone(log, from, n, torn, p, false) == At(log, n, p) <==> CleanFrom(log, from, b, n, p, false)
      {
        WholeBase(log, from, b, p, torn, false);
        ExactFrom(log, from, b, b, n, p, torn, false);
      }
      assert Redone(log, from, n, BLANK, p, false) == At(log, n, p) <==> CleanFrom(log, from, b, n, p, false);
    }
  }

  /**
    Redoing every record would repair a torn page if and only if the log holds a whole image of
    it since the checkpoint.
   */
  lemma TornRepairedByAllIff(s: State, log: Log, p: PageId)
    requires Inv(s) && Survives(s, log)
    ensures From(s.ckpt) <= |log|
    ensures (forall torn :: Redone(log, From(s.ckpt), |log|, torn, p, true) == At(log, |log|, p))
            <==> WholeFrom(log, From(s.ckpt), |log|, p)
  {
    hide Inv;
    SurvivorFacts(s, log, p);
    var from, n := From(s.ckpt), |log|;
    if NoWhole(log, from, from, n, p, true) {
      var torn := Page(n + 1, []);
      DiskAhead(log, from, n, p, torn, true);
      AtBound(log, n, p);
    } else {
      BaseCases(log, from, n, 0, p, true);
      var b := BaseOf(log, from, n, 0, p, true);
      forall torn ensures Redone(log, from, n, torn, p, true) == At(log, n, p) {
        WholeBase(log, from, b, p, torn, true);
        ExactFrom(log, from, b, b, n, p, torn, true);
      }
    }
  }

  // ── what an uncommitted mini-transaction leaves behind ─────────────────────

  /** Redo of later records keeps what a page is made of, until it redoes a whole image. */
  lemma {:induction false} MadeStays(log: Log, from: nat, m: nat, n: nat, p: PageId, x: Page, l: Lsn)
    requires from <= m <= n <= |log| && NoWhole(log, from, m, n, p, false)
    requires l in Redone(log, from, m, x, p, false).made
    ensures l in Redone(log, from, n, x, p, false).made
    decreases n
  {
    if m < n {
      MadeStays(log, from, m, n - 1, p, x, l);
      assert !(Whole(log[n - 1], p) && Sel(log, from, n - 1, false));
    }
  }

  lemma {:induction false} MadeBefore(log: Log, from: nat, m: nat, n: nat, p: PageId, x: Page, l: Lsn)
    requires from <= m <= n <= |log| && NoWhole(log, from, m, n, p, false)
    requires l in Redone(log, from, n, x, p, false).made
    requires 0 < l <= |log| && !Sel(log, from, l - 1, false)
    ensures l in Redone(log, from, m, x, p, false).made
    decreases n
  {
    if m < n {
      assert !(Whole(log[n - 1], p) && Sel(log, from, n - 1, false));
      MadeBefore(log, from, m, n - 1, p, x, l);
    }
  }

  /**
    A change that is not redone is in a recovered page if and only if the page on disk has it
    and no whole image of the page is redone, or the last image redone shows it.
   */
  lemma SkippedTrace(s: State, log: Log, p: PageId, l: Lsn)
    requires Inv(s) && Survives(s, log) && 0 < l <= |log| && !Sel(log, From(s.ckpt), l - 1, false)
    ensures From(s.ckpt) <= |log|
    ensures var from := From(s.ckpt);
            var b := BaseOf(log, from, |log|, 0, p, false);
            l in Recovered(s, log, p, false).made
            <==> if NoWhole(log, from, from, |log|, p, false) then l in PageAt(s.disk, p).made
                 else b <= |log| && l in At(log, b, p).made
  {
    hide Inv;
    SurvivorFacts(s, log, p);
    var from, d, n := From(s.ckpt), PageAt(s.disk, p), |log|;
    if NoWhole(log, from, from, n, p, false) {
      if l in d.made { MadeStays(log, from, from, n, p, d, l); }
      if l in Recovered(s, log, p, false).made { MadeBefore(log, from, from, n, p, d, l); }
    } else {
      BaseCases(log, from, n, 0, p, false);
      var b := BaseOf(log, from, n, 0, p, false);
      WholeBase(log, from, b, p, d, false);
      if l in At(log, b, p).made { MadeStays(log, from, b, n, p, d, l); }
      if l in Recovered(s, log, p, false).made { MadeBefore(log, from, b, n, p, d, l); }
    }
  }

  // ── a split that did not commit ────────────────────────────────────────────

  /** No record on the page in this stretch is redone. */
  ghost predicate Untouched(log: Log, from: nat, m: nat, n: nat, p: PageId) {
    forall j :: m <= j < n && j < |log| && OnPage(log[j], p) ==> !Sel(log, from, j, false)
  }

  lemma {:induction false} RedoneAfter(log: Log, from: nat, m: nat, n: nat, p: PageId, x: Page)
    requires from <= m <= n <= |log| && Untouched(log, from, m, n, p)
    ensures Redone(log, from, n, x, p, false) == Redone(log, from, m, x, p, false)
    decreases n
  {
    if m < n {
      RedoneAfter(log, from, m, n - 1, p, x);
      assert OnPage(log[n - 1], p) ==> !Sel(log, from, n - 1, false);
    }
  }

  predicate ImageOf(log: Log, l: Lsn, p: PageId) {
    0 < l <= |log| && log[l - 1].Image? && log[l - 1].p == p
  }

  /**
    A mini-transaction that did not commit has split leaf `p`, last of all that was done to
    it: its upper pairs went to the new page `q` as image `r`, and what is left to `p` as
    image `l`.
   */
  ghost predicate OpenSplit(log: Log, from: nat, p: PageId, q: PageId, r: Lsn, l: Lsn) {
    && p != q && from <= |log| && r < l && ImageOf(log, r, q) && ImageOf(log, l, p)
    && !Sel(log, from, r - 1, false) && !Sel(log, from, l - 1, false)
    && (forall j :: l <= j < |log| ==> !OnPage(log[j], p))
    && (forall j :: 0 <= j < |log| && OnPage(log[j], q) ==> j == r - 1)
  }

  lemma {:induction false} LeftAt(log: Log, from: nat, p: PageId, q: PageId, r: Lsn, l: Lsn, n: nat)
    requires OpenSplit(log, from, p, q, r, l) && l <= n <= |log|
    ensures At(log, n, p) == Page(l, [l])
  {
    if n > l {
      LeftAt(log, from, p, q, r, l, n - 1);
      assert !OnPage(log[n - 1], p);
    }
  }

  lemma {:induction false} RightAt(log: Log, from: nat, p: PageId, q: PageId, r: Lsn, l: Lsn, n: nat)
    requires OpenSplit(log, from, p, q, r, l) && n <= |log|
    ensures At(log, n, q) == if n < r then BLANK else Page(r, [r])
  {
    if n > 0 {
      RightAt(log, from, p, q, r, l, n - 1);
      assert OnPage(log[n - 1], q) ==> n == r;
    }
  }

  /** Everything done to the leaf before the split is on disk or redone. */
  ghost predicate KnownBefore(log: Log, from: nat, p: PageId, d: Lsn, l: Lsn)
    requires from <= |log|
  {
    0 < l && CleanFrom(log, from, BaseOf(log, from, |log|, d, p, false), l - 1, p, false)
  }

  /** The left half of the split is on disk, and no whole image of the leaf is redone over it. */
  ghost predicate LeftStays(log: Log, from: nat, p: PageId, d: Page, l: Lsn) {
    l in d.made && NoWhole(log, from, from, |log|, p, false)
  }

  /** The leaf on disk is the left half, or is older. */
  lemma LeftOnDisk(log: Log, from: nat, p: PageId, q: PageId, r: Lsn, l: Lsn, d: Page)
    requires OpenSplit(log, from, p, q, r, l) && d.lsn <= |log| && d == At(log, d.lsn, p)
    ensures l in d.made <==> l <= d.lsn
    ensures l <= d.lsn ==> d == Page(l, [l])
  {
    if l <= d.lsn { LeftAt(log, from, p, q, r, l, d.lsn); } else if l in d.made { MadeBound(log, d.lsn, p, l); }
  }

  /** A split older than the checkpoint record: the leaf stays as it is on disk. */
  lemma LeftSkipped(log: Log, from: nat, p: PageId, q: PageId, r: Lsn, l: Lsn, d: Page)
    requires OpenSplit(log, from, p, q, r, l) && l <= from && d.lsn <= |log| && d == At(log, d.lsn, p)
    requires CleanFrom(log, from, d.lsn, l - 1, p, false)
    ensures Redone(log, from, |log|, d, p, false) == if l in d.made then Page(l, [l]) else At(log, l - 1, p)
  {
    LeftOnDisk(log, from, p, q, r, l, d);
    RedoneAfter(log, from, from, |log|, p, d);
    if d.lsn < l { UnchangedSince(log, d.lsn, l - 1, p); }
  }

  lemma LeftNotSkipped(log: Log, from: nat, p: PageId, q: PageId, r: Lsn, l: Lsn, d: Page)
    requires OpenSplit(log, from, p, q, r, l) && TrueImages(log, p) && from < l && d.lsn <= |log|
    requires d == At(log, d.lsn, p)
    requires CleanFrom(log, from, d.lsn, l - 1, p, false) && NoWhole(log, from, from, l - 1, p, false)
    ensures Redone(log, from, |log|, d, p, false) == if l in d.made then Page(l, [l]) else At(log, l - 1, p)
  {
    LeftOnDisk(log, from, p, q, r, l, d);
    assert Untouched(log, from, l - 1, |log|, p);
    hide OpenSplit;
    RedoneAfter(log, from, l - 1, |log|, p, d);
    hide Untouched;
    if d.lsn < l {
      BaseCases(log, from, l - 1, d.lsn, p, false);
      ExactIff(log, from, l - 1, p, d, false);
    } else {
      DiskAhead(log, from, l - 1, p, d, false);
    }
  }

  /** No image redone: the left half stays if it is on disk; otherwise the leaf is as before the split. */
  lemma LeftWithout(log: Log, from: nat, p: PageId, q: PageId, r: Lsn, l: Lsn, d: Page)
    requires OpenSplit(log, from, p, q, r, l) && TrueImages(log, p) && d.lsn <= |log| && d == At(log, d.lsn, p)
    requires KnownBefore(log, from, p, d.lsn, l) && NoWhole(log, from, from, |log|, p, false)
    ensures Redone(log, from, |log|, d, p, false) == if l in d.made then Page(l, [l]) else At(log, l - 1, p)
  {
    BaseCases(log, from, |log|, d.lsn, p, false);
    if l <= from { LeftSkipped(log, from, p, q, r, l, d); } else { LeftNotSkipped(log, from, p, q, r, l, d); }
  }

  /** The last image redone is older than the split. */
  lemma ImageBeforeSplit(log: Log, from: nat, p: PageId, q: PageId, r: Lsn, l: Lsn, d: Lsn) returns (b: nat)
    requires OpenSplit(log, from, p, q, r, l) && !NoWhole(log, from, from, |log|, p, false)
    ensures b == BaseOf(log, from, |log|, d, p, false) && from < b < l
    ensures Whole(log[b - 1], p) && Sel(log, from, b - 1, false) && NoWhole(log, from, b, l - 1, p, false)
  {
    BaseCases(log, from, |log|, d, p, false);
    b := BaseOf(log, from, |log|, d, p, false);
    assert OnPage(log[b - 1], p);
  }

  /** An image of the leaf redone: it is rebuilt as before the split. */
  lemma LeftRebuilt(log: Log, from: nat, p: PageId, q: PageId, r: Lsn, l: Lsn, d: Page)
    requires OpenSplit(log, from, p, q, r, l) && TrueImages(log, p)
    requires KnownBefore(log, from, p, d.lsn, l) && !NoWhole(log, from, from, |log|, p, false)
    ensures Redone(log, from, |log|, d, p, false) == At(log, l - 1, p)
  {
    var b := ImageBeforeSplit(log, from, p, q, r, l, d.lsn);
    assert Untouched(log, from, l - 1, |log|, p);
    hide OpenSplit;
    hide NoWhole;
    hide Untouched;
    hide CleanFrom;
    WholeBase(log, from, b, p, d, false);
    hide TrueImages;
    CleanCatchesUp(log, from, b, l - 1, p, d, false);
    RedoneAfter(log, from, l - 1, |log|, p, d);
  }

  lemma RightRecovered(log: Log, from: nat, p: PageId, q: PageId, r: Lsn, l: Lsn, d: Page)
    requires OpenSplit(log, from, p, q, r, l) && d.lsn <= |log| && d == At(log, d.lsn, q)
    ensures Redone(log, from, |log|, d, q, false) == d && (d == BLANK || d == Page(r, [r]))
  {
    RedoneAfter(log, from, from, |log|, q, d);
    RightAt(log, from, p, q, r, l, d.lsn);
  }

  /** The pairs of a page: those of the image and of the inserts it is made of. */
  function PairsIn(pairs: map<Lsn, set<Entry>>, page: Page): set<Entry> {
    set l, e | l in page.made && l in pairs && e in pairs[l] :: e
  }

  /**
    After such a split and a crash, the pairs the leaf had before are all still in the two
    pages, unless no whole image of the leaf is redone, the left half has reached the disk
    and the right half has not; and only then.
   */
  lemma SplitKeepsPairsIff(s: State, log: Log, pairs: map<Lsn, set<Entry>>, p: PageId, q: PageId, r: Lsn, l: Lsn)
    requires Inv(s) && Survives(s, log) && From(s.ckpt) <= |log| && OpenSplit(log, From(s.ckpt), p, q, r, l)
    requires KnownBefore(log, From(s.ckpt), p, PageAt(s.disk, p).lsn, l) && r in pairs && l in pairs
    requires PairsIn(pairs, At(log, l - 1, p)) <= pairs[r] + pairs[l]
    requires !(PairsIn(pairs, At(log, l - 1, p)) <= pairs[l])
    ensures PairsIn(pairs, At(log, l - 1, p))
            <= PairsIn(pairs, Recovered(s, log, p, false)) + PairsIn(pairs, Recovered(s, log, q, false)) <==>
            !(LeftStays(log, From(s.ckpt), p, PageAt(s.disk, p), l) && r !in PageAt(s.disk, q).made)
  {
    hide Inv;
    SurvivorFacts(s, log, p);
    SurvivorFacts(s, log, q);
    var from, d, e := From(s.ckpt), PageAt(s.disk, p), PageAt(s.disk, q);
    RightRecovered(log, from, p, q, r, l, e);
    if NoWhole(log, from, from, |log|, p, false) {
      LeftWithout(log, from, p, q, r, l, d);
    } else {
      LeftRebuilt(log, from, p, q, r, l, d);
    }
    hide OpenSplit;
    hide NoWhole;
    hide KnownBefore;
    hide TrueImages;
    PairsInOne(pairs, r);
    PairsInOne(pairs, l);
  }

  lemma PairsInOne(pairs: map<Lsn, set<Entry>>, l: Lsn)
    requires l in pairs
    ensures PairsIn(pairs, Page(l, [l])) == pairs[l] && PairsIn(pairs, BLANK) == {}
  {
  }
}
