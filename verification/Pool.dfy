/**
  The buffer pool: a frame table over the mapped page file, a second-chance clock, and
  the rule that no page reaches disk ahead of the durable log.
 */
module Pool {
  import opened Keys

  /** A page's bytes, and the LSN in its header. */
  datatype Content = Content(lsn: nat, bytes: seq<byte>)

  type Store = map<PageId, Content>

  datatype Frame = Frame(page: Option<PageId>, pins: nat, dirty: bool, referenced: bool, lsn: nat)

  const EMPTY := Frame(None, 0, false, false, 0)

  /** `Ahead` is a page ahead of the durable log, `Failed` a pool poisoned by a failed flush. */
  datatype Outcome<T> = Ok(value: T) | Full | Ahead | Failed

  // ── what always holds ──────────────────────────────────────────────────────

  /** The index and the frame table name each other one to one. */
  ghost predicate IndexOk(frames: seq<Frame>, index: map<PageId, nat>) {
    && (forall p :: p in index ==> index[p] < |frames| && frames[index[p]].page == Some(p))
    && (forall i :: 0 <= i < |frames| && frames[i].page.Some? ==>
          frames[i].page.value in index && index[frames[i].page.value] == i)
  }

  /** An empty frame is idle, and a dirty frame caches the LSN of its page. */
  ghost predicate FrameOk(f: Frame, mem: Store) {
    && (f.page.None? ==> f.pins == 0 && !f.dirty)
    && (f.page.Some? ==> f.page.value in mem)
    && (f.page.Some? && f.dirty ==> f.lsn == mem[f.page.value].lsn)
  }

  ghost predicate FramesOk(frames: seq<Frame>, mem: Store) {
    forall i :: 0 <= i < |frames| ==> FrameOk(frames[i], mem)
  }

  predicate DirtyIn(frames: seq<Frame>, index: map<PageId, nat>, p: PageId) {
    p in index && index[p] < |frames| && frames[index[p]].dirty
  }

  /** The pages that are dirty in no frame and yet differ on disk: no flush of dirty frames will write them. */
  ghost function Unbacked(frames: seq<Frame>, index: map<PageId, nat>, mem: Store, disk: Store): set<PageId> {
    set p | p in mem && !DirtyIn(frames, index, p) && !(p in disk && disk[p] == mem[p])
  }

  /** Nothing on disk is ahead of the durable log. */
  ghost predicate Behind(disk: Store, synced: nat) {
    forall p :: p in disk ==> disk[p].lsn <= synced
  }

  /** The frame may be taken: unpinned, and clean or at or behind the frontier. */
  predicate Evictable(f: Frame, frontier: nat) {
    f.pins == 0 && (!f.dirty || f.page.None? || (frontier != 0 && f.lsn <= frontier))
  }

  /** Only reference bits differ. */
  ghost predicate SameBut(frames: seq<Frame>, frames': seq<Frame>) {
    && |frames'| == |frames|
    && forall i :: 0 <= i < |frames| ==> frames'[i] == frames[i].(referenced := frames'[i].referenced)
  }

  /** Where the hand points after `k` ticks. */
  function Clock(hand: nat, k: nat, n: nat): (i: nat)
    requires n > 0
    ensures i < n
  {
    if k == 0 then hand % n else Tick(Clock(hand, k - 1, n), n)
  }

  function Tick(i: nat, n: nat): (j: nat)
    requires i < n
    ensures j < n && j == (i + 1) % n
  {
    if i + 1 < n then i + 1 else 0
  }

  lemma {:induction false} ClockAt(hand: nat, k: nat, n: nat)
    requires n > 0 && k <= n
    ensures Clock(hand, k, n) == if hand % n + k < n then hand % n + k else hand % n + k - n
  {
    if k > 0 { ClockAt(hand, k - 1, n); }
  }

  /** One full turn passes every frame. */
  lemma ClockCovers(hand: nat, n: nat, i: nat) returns (k: nat)
    requires i < n
    ensures k < n && Clock(hand, k, n) == i
  {
    k := if hand % n <= i then i - hand % n else i + n - hand % n;
    ClockAt(hand, k, n);
  }

  /** The same frame comes round after `n` ticks. */
  lemma {:induction false} ClockAgain(hand: nat, k: nat, n: nat)
    requires n > 0
    ensures Clock(hand, k + n, n) == Clock(hand, k, n)
  {
    if k == 0 { ClockAt(hand, n, n); } else { ClockAgain(hand, k - 1, n); }
  }

  lemma ClockOnce(hand: nat, j: nat, k: nat, n: nat)
    requires j < n && k < n && Clock(hand, j, n) == Clock(hand, k, n)
    ensures j == k
  {
    ClockAt(hand, j, n);
    ClockAt(hand, k, n);
  }

  /** The frame may be taken, and has not been used since the hand was last there. */
  predicate Idle(frames: seq<Frame>, frontier: nat, i: nat) {
    i < |frames| && Evictable(frames[i], frontier) && !frames[i].referenced
  }

  predicate Takeable(frames: seq<Frame>, frontier: nat, i: nat) {
    i < |frames| && Evictable(frames[i], frontier)
  }

  /**
    What the second chance is for: frame `v` is the first idle one the hand comes to, or, if
    no frame is idle, the first that may be taken.
   */
  ghost predicate Picked(frames: seq<Frame>, frontier: nat, hand: nat, v: nat) {
    && v < |frames| && Takeable(frames, frontier, v)
    && exists k: nat ::
         && k < |frames| && Clock(hand, k, |frames|) == v
         && if Idle(frames, frontier, v) then
              forall j: nat :: j < k ==> !Idle(frames, frontier, Clock(hand, j, |frames|))
            else
              && (forall j: nat :: j < |frames| ==> !Idle(frames, frontier, j))
              && (forall j: nat :: j < k ==> !Takeable(frames, frontier, Clock(hand, j, |frames|)))
  }

  /** There is no choice: one frame at most is picked. */
  lemma PickedOnce(frames: seq<Frame>, frontier: nat, hand: nat, v: nat, w: nat)
    requires Picked(frames, frontier, hand, v) && Picked(frames, frontier, hand, w)
    ensures v == w
  {
    hide Clock;
    hide Evictable;
    var j: nat :|
      && j < |frames| && Clock(hand, j, |frames|) == v
      && if Idle(frames, frontier, v) then
           forall m: nat :: m < j ==> !Idle(frames, frontier, Clock(hand, m, |frames|))
         else
           && (forall m: nat :: m < |frames| ==> !Idle(frames, frontier, m))
           && (forall m: nat :: m < j ==> !Takeable(frames, frontier, Clock(hand, m, |frames|)));
    var k: nat :|
      && k < |frames| && Clock(hand, k, |frames|) == w
      && if Idle(frames, frontier, w) then
           forall m: nat :: m < k ==> !Idle(frames, frontier, Clock(hand, m, |frames|))
         else
           && (forall m: nat :: m < |frames| ==> !Idle(frames, frontier, m))
           && (forall m: nat :: m < k ==> !Takeable(frames, frontier, Clock(hand, m, |frames|)));
    assert j <= k && k <= j;
  }

  // ── what the steps do to the invariant ─────────────────────────────────────

  lemma SameKeeps(frames: seq<Frame>, frames': seq<Frame>, index: map<PageId, nat>, mem: Store, disk: Store)
    requires SameBut(frames, frames') && IndexOk(frames, index) && FramesOk(frames, mem)
    ensures IndexOk(frames', index) && FramesOk(frames', mem)
    ensures Unbacked(frames', index, mem, disk) == Unbacked(frames, index, mem, disk)
  {
    forall i | 0 <= i < |frames'| ensures FrameOk(frames'[i], mem) {
      assert FrameOk(frames[i], mem);
    }
    assert forall p :: DirtyIn(frames', index, p) == DirtyIn(frames, index, p);
  }

  lemma GrowKeeps(frames: seq<Frame>, index: map<PageId, nat>, mem: Store, disk: Store)
    requires IndexOk(frames, index) && FramesOk(frames, mem)
    ensures IndexOk(frames + [EMPTY], index) && FramesOk(frames + [EMPTY], mem)
    ensures Unbacked(frames + [EMPTY], index, mem, disk) == Unbacked(frames, index, mem, disk)
  {
    var frames' := frames + [EMPTY];
    forall i | 0 <= i < |frames'| ensures FrameOk(frames'[i], mem) {
      if i < |frames| { assert FrameOk(frames[i], mem); }
    }
    assert forall p :: DirtyIn(frames', index, p) == DirtyIn(frames, index, p);
  }

  function Cleaned(frames: seq<Frame>, index: map<PageId, nat>, p: PageId): seq<Frame> {
    if p in index && index[p] < |frames| then frames[index[p] := frames[index[p]].(dirty := false)] else frames
  }

  /** Writing a page back and marking its frame clean. */
  lemma FlushKeeps(frames: seq<Frame>, frames': seq<Frame>, index: map<PageId, nat>, mem: Store, disk: Store,
                   synced: nat, p: PageId)
    requires IndexOk(frames, index) && FramesOk(frames, mem) && p in mem
    requires frames' == Cleaned(frames, index, p)
    ensures IndexOk(frames', index) && FramesOk(frames', mem)
    ensures Unbacked(frames', index, mem, disk[p := mem[p]]) == Unbacked(frames, index, mem, disk) - {p}
    ensures Behind(disk, synced) ==> (Behind(disk[p := mem[p]], synced) <==> mem[p].lsn <= synced)
  {
    forall i | 0 <= i < |frames'| ensures FrameOk(frames'[i], mem) {
      assert FrameOk(frames[i], mem);
    }
    assert forall q :: q != p ==> DirtyIn(frames', index, q) == DirtyIn(frames, index, q);
    assert disk[p := mem[p]][p].lsn == mem[p].lsn;
  }

  /** Putting page `p` into an unpinned clean frame in place of whatever was there. */
  lemma InstallKeeps(frames: seq<Frame>, index: map<PageId, nat>, mem: Store, disk: Store, i: nat, p: PageId)
    requires IndexOk(frames, index) && FramesOk(frames, mem)
    requires i < |frames| && frames[i].pins == 0 && !frames[i].dirty && p !in index && p in mem
    ensures var frames' := frames[i := Frame(Some(p), 1, false, true, frames[i].lsn)];
            var index' := (if frames[i].page.Some? then index - {frames[i].page.value} else index)[p := i];
            && IndexOk(frames', index') && FramesOk(frames', mem)
            && Unbacked(frames', index', mem, disk) == Unbacked(frames, index, mem, disk)
            && (forall q :: q in index && index[q] != i ==> q in index' && index'[q] == index[q])
  {
    var frames' := frames[i := Frame(Some(p), 1, false, true, frames[i].lsn)];
    var index' := (if frames[i].page.Some? then index - {frames[i].page.value} else index)[p := i];
    forall j | 0 <= j < |frames'| ensures FrameOk(frames'[j], mem) {
      assert FrameOk(frames[j], mem);
    }
    forall q | q in index' ensures index'[q] < |frames'| && frames'[index'[q]].page == Some(q) {
      if q != p { assert q in index; }
    }
    assert forall q :: DirtyIn(frames', index', q) == DirtyIn(frames, index, q);
  }

  /** Changing pins or reference bit of one framed page. */
  lemma PinKeeps(frames: seq<Frame>, index: map<PageId, nat>, mem: Store, disk: Store, i: nat, pins: nat,
                 referenced: bool)
    requires IndexOk(frames, index) && FramesOk(frames, mem)
    requires i < |frames| && frames[i].page.Some?
    ensures var frames' := frames[i := frames[i].(pins := pins, referenced := referenced)];
            && IndexOk(frames', index) && FramesOk(frames', mem)
            && Unbacked(frames', index, mem, disk) == Unbacked(frames, index, mem, disk)
  {
    var frames' := frames[i := frames[i].(pins := pins, referenced := referenced)];
    forall j | 0 <= j < |frames'| ensures FrameOk(frames'[j], mem) {
      assert FrameOk(frames[j], mem);
    }
    assert forall q :: DirtyIn(frames', index, q) == DirtyIn(frames, index, q);
  }

  /** Writing a framed page in memory. */
  lemma WriteKeeps(frames: seq<Frame>, index: map<PageId, nat>, mem: Store, disk: Store, p: PageId, c: Content)
    requires IndexOk(frames, index) && FramesOk(frames, mem) && p in index
    ensures var frames' := frames[index[p] := frames[index[p]].(dirty := true, lsn := c.lsn)];
            && IndexOk(frames', index) && FramesOk(frames', mem[p := c])
            && Unbacked(frames', index, mem[p := c], disk) == Unbacked(frames, index, mem, disk) - {p}
  {
    var frames' := frames[index[p] := frames[index[p]].(dirty := true, lsn := c.lsn)];
    forall j | 0 <= j < |frames'| ensures FrameOk(frames'[j], mem[p := c]) {
      assert FrameOk(frames[j], mem);
    }
    assert forall q :: q != p ==> DirtyIn(frames', index, q) == DirtyIn(frames, index, q);
    assert DirtyIn(frames', index, p);
  }

  /** Writing a page that is in no frame. */
  lemma WriteUnframed(frames: seq<Frame>, index: map<PageId, nat>, mem: Store, disk: Store, p: PageId, c: Content)
    requires IndexOk(frames, index) && FramesOk(frames, mem) && p !in index
    ensures FramesOk(frames, mem[p := c])
    ensures Unbacked(frames, index, mem[p := c], disk) ==
              if p in disk && disk[p] == c then Unbacked(frames, index, mem, disk) - {p}
              else Unbacked(frames, index, mem, disk) + {p}
  {
    forall j | 0 <= j < |frames| ensures FrameOk(frames[j], mem[p := c]) {
      assert FrameOk(frames[j], mem);
    }
  }

  class BufferPool {
    const capacity: nat
    var frames: seq<Frame>
    var index: map<PageId, nat>
    var hand: nat
    var frontier: nat
    var poisoned: bool
    var faultArmed: bool
    var mem: Store
    var disk: Store
    /** The LSN up to which the log really is durable. */
    ghost var synced: nat

    ghost predicate Sound()
      reads this`frames, this`index, this`frontier, this`mem, this`disk, this`synced
    {
      && |frames| <= capacity && frontier <= synced
      && IndexOk(frames, index) && FramesOk(frames, mem)
    }

    /** The pages a flush of everything dirty would leave behind on disk. */
    ghost function Loose(): set<PageId>
      reads this`frames, this`index, this`mem, this`disk
    {
      Unbacked(frames, index, mem, disk)
    }

    ghost predicate Valid()
      reads this`frames, this`index, this`frontier, this`mem, this`disk, this`synced
    {
      Sound() && Behind(disk, synced)
    }

    /** Open a page file; `slab` frames are made at once. */
    constructor (capacity: nat, slab: nat, file: Store, ghost synced: nat)
      requires slab <= capacity && Behind(file, synced)
      ensures Valid() && Loose() == {} && mem == file && disk == file && !poisoned && !faultArmed && frontier == 0
      ensures this.capacity == capacity
      ensures frames == seq(slab, _ => EMPTY) && index == map[] && this.synced == synced
    {
      this.capacity := capacity;
      frames := seq(slab, _ => EMPTY);
      index := map[];
      hand, frontier := 0, 0;
      poisoned, faultArmed := false, false;
      mem, disk := file, file;
      this.synced := synced;
    }

    /** `set_durable_wal_lsn`: the frontier only moves forward. */
    method SetFrontier(lsn: nat)
      requires Valid() && lsn <= synced
      modifies this`frontier
      ensures Valid() && frontier == (if lsn > old(frontier) then lsn else old(frontier))
    {
      if lsn > frontier { frontier := lsn; }
    }

    /**
      `flush_locked`: write one page back, unless it is ahead of the log or the pool is
      poisoned. A frontier of zero asks for no comparison; the rule then holds after the
      call exactly if the page was not ahead of the log all the same.
     */
    method Flush(p: PageId, durable: nat) returns (r: Outcome<()>)
      requires Sound() && p in mem && durable <= synced
      modifies this`frames, this`disk, this`poisoned, this`faultArmed
      ensures Sound()
      ensures old(Behind(disk, synced)) ==> (Behind(disk, synced) <==> !(r.Ok? && mem[p].lsn > synced))
      ensures r.Failed? <==> old(poisoned) || ((durable == 0 || mem[p].lsn <= durable) && old(faultArmed))
      ensures r.Ahead? <==> !old(poisoned) && durable != 0 && mem[p].lsn > durable
      ensures !r.Full? && (r.Ok? ==> poisoned == old(poisoned) && faultArmed == old(faultArmed))
      ensures !r.Ok? ==> frames == old(frames) && disk == old(disk)
      ensures r.Ok? ==> disk == old(disk)[p := mem[p]] && frames == Cleaned(old(frames), index, p)
      ensures Loose() == if r.Ok? then old(Loose()) - {p} else old(Loose())
      ensures poisoned <==> old(poisoned) || r.Failed?
    {
      if poisoned { return Failed; }
      if durable != 0 && mem[p].lsn > durable { return Ahead; }
      if faultArmed {
        faultArmed, poisoned := false, true;
        return Failed;
      }
      FlushKeeps(frames, Cleaned(frames, index, p), index, mem, disk, synced, p);
      hide FramesOk;
      hide Unbacked;
      hide Behind;
      disk := disk[p := mem[p]];
      if p in index { frames := frames[index[p] := frames[index[p]].(dirty := false)]; }
      return Ok(());
    }

    /** Take an evictable frame, writing its page back first if it is dirty. */
    method TakeFrame(i: nat) returns (r: Outcome<nat>)
      requires Valid() && i < |frames| && Evictable(frames[i], frontier)
      modifies this`frames, this`disk, this`poisoned, this`faultArmed
      ensures Valid() && (r.Ok? || r.Failed?) && Loose() == old(Loose())
      ensures r.Ok? ==> r.value == i && frames == old(frames)[i := old(frames)[i].(dirty := false)]
      ensures r.Failed? ==> frames == old(frames)
      ensures r.Failed? <==> old(frames)[i].dirty && (old(poisoned) || old(faultArmed))
    {
      assert FrameOk(frames[i], mem);
      if frames[i].dirty {
        LooseIsClean(this, i);
        var x := Flush(frames[i].page.value, frontier);
        if x.Failed? { return Failed; }
      }
      return Ok(i);
    }

    /**
      `find_victim`: grow below capacity; at capacity, two sweeps of the second-chance
      clock. Pinned frames are passed over, and so are dirty ones ahead of the frontier.
     */
    method FindVictim() returns (r: Outcome<nat>)
      requires Valid()
      modifies this`frames, this`hand, this`disk, this`poisoned, this`faultArmed
      ensures Valid() && !r.Ahead? && Kept(old(frames), frames, r) && Loose() == old(Loose())
      ensures r.Ok? ==> r.value < |frames| && frames[r.value].pins == 0 && !frames[r.value].dirty
      ensures r.Failed? ==> old(poisoned) || old(faultArmed)
      ensures r.Full? ==> poisoned == old(poisoned) && faultArmed == old(faultArmed)
      ensures r.Full? ==> |old(frames)| == capacity && NoneEvictable(old(frames), frontier)
      ensures r.Ok? ==> |old(frames)| < capacity || !NoneEvictable(old(frames), frontier)
      ensures r.Ok? ==>
                if |old(frames)| < capacity then r.value == |old(frames)|
                else Picked(old(frames), frontier, old(hand), r.value) && hand == Tick(r.value, |old(frames)|)
      ensures r.Failed? ==>
                |old(frames)| == capacity
                && exists v: nat :: Picked(old(frames), frontier, old(hand), v) && old(frames)[v].dirty
    {
      hide *;
      AtCapacity(this);
      if |frames| < capacity {
        var n := |frames|;
        GrowFrame();
        KeptGrow(old(frames));
        return Ok(n);
      }
      r := Sweep();
    }

    /** Two sweeps of the clock over a full table. */
    method Sweep() returns (r: Outcome<nat>)
      requires Valid() && |frames| == capacity
      modifies this`frames, this`hand, this`disk, this`poisoned, this`faultArmed
      ensures Valid() && !r.Ahead? && Kept(old(frames), frames, r) && Loose() == old(Loose())
      ensures r.Ok? ==> r.value < |frames| && frames[r.value].pins == 0 && !frames[r.value].dirty
      ensures r.Failed? ==> old(poisoned) || old(faultArmed)
      ensures r.Full? <==> !r.Failed? && NoneEvictable(old(frames), frontier)
      ensures r.Full? ==> poisoned == old(poisoned) && faultArmed == old(faultArmed)
      ensures r.Ok? ==> Picked(old(frames), frontier, old(hand), r.value) && hand == Tick(r.value, |old(frames)|)
      ensures r.Failed? ==> exists v: nat :: Picked(old(frames), frontier, old(hand), v) && old(frames)[v].dirty
    {
      hide *;
      var n := |frames|;
      ghost var frames0, h0 := frames, hand;
      if n == 0 { SweepNone(frames0, frontier); return Full; }
      var k := 0;
      SweepStart(frames0, frontier, h0, n);
      FairStart(frames0, frontier, h0, n);
      while k < 2 * n
        invariant k <= 2 * n && Valid() && |frames| == n && Loose() == old(Loose())
        invariant disk == old(disk) && poisoned == old(poisoned) && faultArmed == old(faultArmed)
        invariant hand % n == Clock(h0, k, n) && Sweeping(frames0, frames, frontier, h0, k, n)
        invariant Fair(frames0, frames, frontier, h0, k, n)
      {
        var i := hand % n;
        hand := Tick(i, n);
        TickIs(i, n);
        SweepStep(frames0, frames, frontier, h0, k, n);
        FairStep(frames0, frames, frontier, h0, k, n);
        if !Passes(frames[i], frontier) {
          SweepTakes(frames0, frames, frontier, h0, k, n, i);
          FairTakes(frames0, frames, frontier, h0, k, n);
          ghost var frames1 := frames;
          r := TakeFrame(i);
          KeptTaken(frames0, frames1, frontier, h0, k, n, frames, r);
          return;
        }
        if frames[i].pins == 0 && frames[i].referenced { ClearRef(i); }
        k := k + 1;
      }
      SweepEnd(frames0, frames, frontier, h0, n);
      KeptAll(frames0, frames, frontier, h0, k, n);
      return Full;
    }

    /** `fetch_page`: pin the page into a frame and hand out its bytes. */
    method Fetch(p: PageId) returns (r: Outcome<Content>)
      requires Valid() && p in mem
      modifies this`frames, this`index, this`hand, this`disk, this`poisoned, this`faultArmed
      ensures Valid() && !r.Ahead? && Loose() == old(Loose())
      ensures r.Ok? ==> r.value == mem[p] && PinsOf(frames, index, p) == PinsOf(old(frames), old(index), p) + 1
      ensures forall q :: q != p ==> StaysPinned(old(frames), old(index), frames, index, q)
      ensures !r.Ok? ==> index == old(index) && p !in index && Kept(old(frames), frames, Full)
      ensures r.Failed? ==> old(poisoned) || old(faultArmed)
      ensures r.Full? ==> poisoned == old(poisoned) && faultArmed == old(faultArmed)
      ensures r.Full? ==> |old(frames)| == capacity && NoneEvictable(old(frames), frontier)
      ensures r.Ok? ==> p in index && index[p] < |frames| && frames[index[p]].referenced
      ensures r.Ok? && p !in old(index) ==>
                if |old(frames)| < capacity then index[p] == |old(frames)|
                else Picked(old(frames), frontier, old(hand), index[p])
      ensures r.Failed? ==>
                |old(frames)| == capacity
                && exists v: nat :: Picked(old(frames), frontier, old(hand), v) && old(frames)[v].dirty
    {
      hide *;
      ghost var frames0 := frames;
      if p in index {
        IndexPart(this);
        IndexAt(frames, index, p);
        PinSame(frames, index, p, frames[index[p]].pins + 1, true);
        PinFrame(index[p], frames[index[p]].pins + 1, true);
        return Ok(mem[p]);
      }
      IndexPart(this);
      var v := FindVictim();
      IndexPart(this);
      PinsKept(frames0, frames, index, v);
      if !v.Ok? { return if v.Full? then Full else Failed; }
      InstallPins(frames0, frames, index, v.value, p);
      InstalledAt(frames, index, v.value, p);
      Install(v.value, p);
      return Ok(mem[p]);
    }

    method PinFrame(i: nat, pins: nat, referenced: bool)
      requires Valid() && i < |frames| && frames[i].page.Some?
      modifies this`frames
      ensures Valid() && frames == old(frames)[i := old(frames)[i].(pins := pins, referenced := referenced)]
      ensures Loose() == old(Loose())
    {
      PinKeeps(frames, index, mem, disk, i, pins, referenced);
      hide FramesOk;
      hide Unbacked;
      hide IndexOk;
      frames := frames[i := frames[i].(pins := pins, referenced := referenced)];
    }

    method Install(i: nat, p: PageId)
      requires Valid() && i < |frames| && frames[i].pins == 0 && !frames[i].dirty && p !in index && p in mem
      modifies this`frames, this`index
      ensures Valid() && frames == Installed(old(frames), i, p) && index == Reindexed(old(frames), old(index), i, p)
      ensures Loose() == old(Loose())
    {
      InstallKeeps(frames, index, mem, disk, i, p);
      hide FramesOk;
      hide Unbacked;
      hide IndexOk;
      if frames[i].page.Some? { index := index - {frames[i].page.value}; }
      frames := frames[i := Frame(Some(p), 1, false, true, frames[i].lsn)];
      index := index[p := i];
    }

    /** `unpin`. */
    method Unpin(p: PageId)
      requires Valid()
      modifies this`frames
      ensures Valid() && Loose() == old(Loose())
      ensures PinsOf(frames, index, p) ==
                (if PinsOf(old(frames), index, p) > 0 then PinsOf(old(frames), index, p) - 1 else 0)
      ensures forall q :: q != p ==> PinsOf(frames, index, q) == PinsOf(old(frames), index, q)
    {
      if p in index && frames[index[p]].pins > 0 {
        PinFrame(index[p], frames[index[p]].pins - 1, frames[index[p]].referenced);
        hide FramesOk;
        hide Unbacked;
      }
    }

    /**
      `write_page`: overwrite the page in memory and mark its frame dirty. A page that is
      in no frame is marked nowhere: unless the disk has those bytes already, it is loose.
     */
    method WritePage(p: PageId, c: Content)
      requires Valid() && p in mem
      modifies this`frames, this`mem
      ensures Valid()
      ensures Loose() == if p in index || (p in disk && disk[p] == c) then old(Loose()) - {p} else old(Loose()) + {p}
      ensures mem == old(mem)[p := c] && (p in index ==> DirtyIn(frames, index, p))
      ensures p !in index ==> frames == old(frames)
      ensures forall q :: PinsOf(frames, index, q) == PinsOf(old(frames), index, q)
    {
      if p in index {
        WriteKeeps(frames, index, mem, disk, p, c);
        hide FramesOk;
        hide Unbacked;
        mem := mem[p := c];
        frames := frames[index[p] := frames[index[p]].(dirty := true, lsn := c.lsn)];
      } else {
        WriteUnframed(frames, index, mem, disk, p, c);
        hide FramesOk;
        hide Unbacked;
        mem := mem[p := c];
      }
    }

    /**
      `fetch_page_for_write`: with a full table force the log and try once more. `logEnd`
      is the last LSN of the log, which no page is ahead of.
     */
    method FetchForWrite(p: PageId, durable: nat, logEnd: nat) returns (r: Outcome<Content>)
      requires Valid() && p in mem && durable <= synced && 0 < logEnd && synced <= logEnd
      requires forall i :: 0 <= i < |frames| && frames[i].dirty ==> frames[i].lsn <= logEnd
      modifies this
      ensures Valid() && !r.Ahead? && mem == old(mem) && Loose() == old(Loose())
      ensures r.Ok? ==> r.value == mem[p] && PinsOf(frames, index, p) == PinsOf(old(frames), old(index), p) + 1
      ensures forall q :: q != p ==> StaysPinned(old(frames), old(index), frames, index, q)
      ensures r.Ok? ==> p in index && index[p] < |frames| && frames[index[p]].referenced
      ensures r.Failed? ==> old(poisoned) || old(faultArmed)
      ensures r.Full? ==> |old(frames)| == capacity && forall i :: 0 <= i < |old(frames)| ==> old(frames)[i].pins > 0
    {
      hide *;
      SetFrontier(durable);
      ghost var frames0, index0 := frames, index;
      r := Fetch(p);
      if !r.Full? { return; }
      FullTwice(frames0, frames, logEnd);
      NotPinned(frames0, index, p);
      NotPinned(frames, index, p);
      ForceLog(logEnd);
      ghost var frames1, index1 := frames, index;
      r := Fetch(p);
      forall q | q != p ensures StaysPinned(frames0, index0, frames, index, q) {
        PinnedThrough(frames0, index0, frames1, index1, frames, index, q);
      }
      if r.Full? {
        OnlyPins(frames1, frontier, logEnd);
        PinnedBefore(frames0, frames1);
      }
    }

    /** `Wal::sync`, and what the pool learns from it. */
    method ForceLog(logEnd: nat)
      requires Valid() && synced <= logEnd
      modifies this`synced, this`frontier
      ensures Valid() && frontier >= logEnd
    {
      SyncedMore(disk, synced, logEnd);
      hide Behind;
      hide FramesOk;
      hide Unbacked;
      synced := logEnd;
      SetFrontier(logEnd);
    }

    /**
      `flush_all`: write every dirty page back; stop at the first that cannot be. With a
      frontier of zero, as recovery ends, no page is held back.
     */
    method FlushAll(durable: nat) returns (r: Outcome<()>)
      requires Valid() && durable <= synced
      modifies this`frames, this`disk, this`poisoned, this`faultArmed
      ensures Sound() && !r.Full? && (durable != 0 ==> Valid()) && Loose() == old(Loose())
      ensures r.Ok? ==> forall p :: p in mem ==> (p in disk && disk[p] == mem[p] <==> p !in Loose())
      ensures r.Ok? ==> (Valid() <==> BehindTo(old(frames), synced, |old(frames)|))
      ensures r.Failed? ==> old(poisoned) || old(faultArmed)
      ensures r.Ahead? ==> durable != 0
      ensures r.Ahead? ==> exists i :: 0 <= i < |old(frames)| && old(frames)[i].dirty && old(frames)[i].lsn > durable
      ensures forall q :: PinsOf(frames, index, q) == PinsOf(old(frames), index, q)
    {
      hide *;
      SoundPart(this);
      if poisoned { return Failed; }
      var i := 0;
      ghost var frames0 := frames;
      LooseIs(this);
      CleanStart(frames);
      BehindStart(this);
      while i < |frames|
        invariant i <= |frames| && Sound() && CleanTo(frames0, frames, i) && poisoned == old(poisoned)
        invariant Loose() == old(Loose())
        invariant faultArmed == old(faultArmed)
        invariant BehindTo(frames0, synced, i) ==> Behind(disk, synced)
        invariant durable != 0 ==> Behind(disk, synced)
      {
        if frames[i].dirty {
          DirtyFrame(this, i);
          LooseIsClean(this, i);
          ghost var frames1 := frames;
          r := Flush(frames[i].page.value, durable);
          CleanAhead(frames0, frames1, i);
          if !r.Ok? {
            CleanPins(frames0, frames, index, i);
            ValidIs(this);
            return;
          }
          CleanDirty(frames0, frames1, i);
          BehindDirty(frames0, synced, i);
          CleanedIs(frames1, index, frames1[i].page.value, i);
        } else {
          CleanSkip(frames0, frames, i);
          CleanAhead(frames0, frames, i);
          BehindSkip(frames0, synced, i);
        }
        i := i + 1;
      }
      AllBacked(this, frames0);
      CleanPins(frames0, frames, index, i);
      ValidIs(this);
      CleanSize(frames0, frames, i);
      if Behind(disk, synced) { AheadEnd(frames0, index, mem, old(disk), disk, synced); }
      return Ok(());
    }

    method GrowFrame()
      requires Valid() && |frames| < capacity
      modifies this`frames
      ensures Valid() && frames == old(frames) + [EMPTY] && Loose() == old(Loose())
    {
      GrowKeeps(frames, index, mem, disk);
      hide FramesOk;
      hide Unbacked;
      hide IndexOk;
      frames := frames + [EMPTY];
    }

    method ClearRef(i: nat)
      requires Valid() && i < |frames|
      modifies this`frames
      ensures Valid() && frames == old(frames)[i := old(frames)[i].(referenced := false)] && Loose() == old(Loose())
    {
      SameKeeps(frames, frames[i := frames[i].(referenced := false)], index, mem, disk);
      hide FramesOk;
      hide Unbacked;
      hide IndexOk;
      frames := frames[i := frames[i].(referenced := false)];
    }
  }

  lemma AtCapacity(b: BufferPool)
    requires b.Valid()
    ensures |b.frames| <= b.capacity
  {
  }

  lemma TickIs(i: nat, n: nat)
    requires i < n
    ensures Tick(i, n) % n == Tick(i, n)
  {
  }

  /** The sweep goes on past this frame. */
  predicate Passes(f: Frame, frontier: nat) {
    f.pins > 0 || f.referenced || (f.dirty && f.page.Some? && (frontier == 0 || f.lsn > frontier))
  }

  /**
    After `k` ticks: the frames differ from the start in reference bits only, those
    passed once have used up their second chance, and those passed twice cannot be taken.
   */
  ghost predicate Sweeping(frames0: seq<Frame>, frames: seq<Frame>, frontier: nat, h0: nat, k: nat, n: nat) {
    && n > 0 && SameBut(frames0, frames) && |frames0| == n
    && (forall j: nat :: j < k && j < n ==> Passed(frames, frontier, Clock(h0, j, n)))
    && (forall j: nat :: n <= j < k ==> !Evictable(frames0[Clock(h0, j, n)], frontier))
  }

  lemma SweepStart(frames: seq<Frame>, frontier: nat, h0: nat, n: nat)
    requires n > 0 && |frames| == n
    ensures Sweeping(frames, frames, frontier, h0, 0, n) && Clock(h0, 0, n) == h0 % n
  {
  }

  /** No frame can be taken. */
  ghost predicate NoneEvictable(frames: seq<Frame>, frontier: nat) {
    forall i :: 0 <= i < |frames| ==> !Evictable(frames[i], frontier)
  }

  /** Every frame keeps its page, pins and LSN; only the frame found may have become clean. */
  ghost predicate Kept(frames0: seq<Frame>, frames: seq<Frame>, r: Outcome<nat>) {
    && |frames0| <= |frames| <= |frames0| + (if r == Ok(|frames0|) then 1 else 0)
    && forall i :: 0 <= i < |frames0| ==>
         frames[i] == frames0[i].(referenced := frames[i].referenced,
                                  dirty := if r == Ok(i) then false else frames0[i].dirty)
  }

  lemma KeptGrow(frames: seq<Frame>)
    ensures Kept(frames, frames + [EMPTY], Ok(|frames|))
    ensures (frames + [EMPTY])[|frames|] == EMPTY && EMPTY.pins == 0 && !EMPTY.dirty
  {
  }

  lemma SweepNone(frames: seq<Frame>, frontier: nat)
    requires frames == []
    ensures NoneEvictable(frames, frontier) && Kept(frames, frames, Full)
  {
  }

  lemma SweepTakes(frames0: seq<Frame>, frames: seq<Frame>, frontier: nat, h0: nat, k: nat, n: nat, i: nat)
    requires Sweeping(frames0, frames, frontier, h0, k, n) && i < n && |frames| == n && !Passes(frames[i], frontier)
    ensures Evictable(frames[i], frontier) && !NoneEvictable(frames0, frontier)
  {
    assert Evictable(frames0[i], frontier);
  }

  lemma KeptTaken(frames0: seq<Frame>, frames: seq<Frame>, frontier: nat, h0: nat, k: nat, n: nat, frames': seq<Frame>,
                  r: Outcome<nat>)
    requires Sweeping(frames0, frames, frontier, h0, k, n) && (r.Ok? || r.Failed?)
    requires r.Ok? ==> r.value < |frames| && Evictable(frames[r.value], frontier)
                        && frames' == frames[r.value := frames[r.value].(dirty := false)]
    requires r.Failed? ==> frames' == frames
    ensures Kept(frames0, frames', r)
    ensures r.Ok? ==> r.value < |frames'| && frames'[r.value].pins == 0 && !frames'[r.value].dirty
  {
  }

  lemma KeptAll(frames0: seq<Frame>, frames: seq<Frame>, frontier: nat, h0: nat, k: nat, n: nat)
    requires Sweeping(frames0, frames, frontier, h0, k, n)
    ensures Kept(frames0, frames, Full)
  {
  }

  /** One tick past a frame that is not taken. */
  lemma SweepStep(frames0: seq<Frame>, frames: seq<Frame>, frontier: nat, h0: nat, k: nat, n: nat)
    requires Sweeping(frames0, frames, frontier, h0, k, n) && |frames| == n && k < 2 * n
    ensures var i := Clock(h0, k, n);
            var f := frames[i];
            var frames' := if f.pins == 0 && f.referenced then frames[i := f.(referenced := false)] else frames;
            && (Passes(f, frontier) ==> Sweeping(frames0, frames', frontier, h0, k + 1, n))
            && Clock(h0, k + 1, n) == Tick(i, n)
  {
    var i := Clock(h0, k, n);
    var f := frames[i];
    var frames' := if f.pins == 0 && f.referenced then frames[i := f.(referenced := false)] else frames;
    if k >= n {
      ClockAgain(h0, k - n, n);
      assert Passed(frames, frontier, Clock(h0, k - n, n));
    }
    if Passes(f, frontier) {
      forall j: nat | j < k + 1 && j < n ensures Passed(frames', frontier, Clock(h0, j, n)) {
        if j < k { assert Passed(frames, frontier, Clock(h0, j, n)); }
      }
    }
  }

  /** Frames passed so far were not idle, and those not yet passed have the reference bits they had. */
  ghost predicate Fair(frames0: seq<Frame>, frames: seq<Frame>, frontier: nat, h0: nat, k: nat, n: nat) {
    && n > 0 && |frames0| == |frames| == n
    && (forall j: nat :: j < k && j < n ==> !Idle(frames0, frontier, Clock(h0, j, n)))
    && (forall j: nat :: k <= j < n ==>
          frames[Clock(h0, j, n)].referenced == frames0[Clock(h0, j, n)].referenced)
  }

  lemma FairStart(frames: seq<Frame>, frontier: nat, h0: nat, n: nat)
    requires n > 0 && |frames| == n
    ensures Fair(frames, frames, frontier, h0, 0, n)
  {
  }

  lemma FairStep(frames0: seq<Frame>, frames: seq<Frame>, frontier: nat, h0: nat, k: nat, n: nat)
    requires Sweeping(frames0, frames, frontier, h0, k, n) && Fair(frames0, frames, frontier, h0, k, n)
    ensures var i := Clock(h0, k, n);
            var f := frames[i];
            var frames' := if f.pins == 0 && f.referenced then frames[i := f.(referenced := false)] else frames;
            Passes(f, frontier) ==> Fair(frames0, frames', frontier, h0, k + 1, n)
  {
    hide Clock;
    var i := Clock(h0, k, n);
    var f := frames[i];
    var frames' := if f.pins == 0 && f.referenced then frames[i := f.(referenced := false)] else frames;
    if Passes(f, frontier) {
      forall j: nat | k + 1 <= j < n
        ensures frames'[Clock(h0, j, n)].referenced == frames0[Clock(h0, j, n)].referenced
      {
        if Clock(h0, j, n) == i { ClockOnce(h0, j, k, n); }
      }
      if k < n { StillPasses(frames0, frames, frontier, i); }
    }
  }

  lemma StillPasses(frames0: seq<Frame>, frames: seq<Frame>, frontier: nat, i: nat)
    requires SameBut(frames0, frames) && i < |frames| && frames[i].referenced == frames0[i].referenced
    ensures Passes(frames[i], frontier) <==> !Idle(frames0, frontier, i)
  {
  }

  /** The frame the sweep stops at is the one the second chance asks for. */
  lemma FairTakes(frames0: seq<Frame>, frames: seq<Frame>, frontier: nat, h0: nat, k: nat, n: nat)
    requires Sweeping(frames0, frames, frontier, h0, k, n) && Fair(frames0, frames, frontier, h0, k, n) && k < 2 * n
    requires !Passes(frames[Clock(h0, k, n)], frontier)
    ensures Picked(frames0, frontier, h0, Clock(h0, k, n))
  {
    hide *;
    if k < n { FirstTurn(frames0, frames, frontier, h0, k, n); } else {
      SecondTurn(frames0, frames, frontier, h0, k, n);
    }
  }

  lemma FirstTurn(frames0: seq<Frame>, frames: seq<Frame>, frontier: nat, h0: nat, k: nat, n: nat)
    requires Sweeping(frames0, frames, frontier, h0, k, n) && Fair(frames0, frames, frontier, h0, k, n) && k < n
    requires !Passes(frames[Clock(h0, k, n)], frontier)
    ensures Picked(frames0, frontier, h0, Clock(h0, k, n))
  {
    hide Clock;
    hide Passes;
    hide SameBut;
    StillPasses(frames0, frames, frontier, Clock(h0, k, n));
    assert Idle(frames0, frontier, Clock(h0, k, n));
  }

  lemma SecondTurn(frames0: seq<Frame>, frames: seq<Frame>, frontier: nat, h0: nat, k: nat, n: nat)
    requires Sweeping(frames0, frames, frontier, h0, k, n) && Fair(frames0, frames, frontier, h0, k, n)
    requires n <= k < 2 * n && !Passes(frames[Clock(h0, k, n)], frontier)
    ensures Picked(frames0, frontier, h0, Clock(h0, k, n))
  {
    hide Clock;
    hide Evictable;
    var v := Clock(h0, k, n);
    ClockAgain(h0, k - n, n);
    SweepTakes(frames0, frames, frontier, h0, k, n, v);
    TakenBefore(frames0, frames, frontier, v);
    forall j: nat | j < n ensures !Idle(frames0, frontier, j) {
      var m := ClockCovers(h0, n, j);
    }
    forall j: nat | j < k - n ensures !Takeable(frames0, frontier, Clock(h0, j, n)) {
      ClockAgain(h0, j, n);
      assert !Evictable(frames0[Clock(h0, j + n, n)], frontier);
    }
    hide Sweeping;
    hide Fair;
    hide Idle;
    hide Takeable;
    PickedLast(frames0, frontier, h0, k - n, v);
  }

  lemma TakenBefore(frames0: seq<Frame>, frames: seq<Frame>, frontier: nat, v: nat)
    requires SameBut(frames0, frames) && v < |frames| && Evictable(frames[v], frontier)
    ensures Takeable(frames0, frontier, v)
  {
  }

  lemma PickedLast(frames: seq<Frame>, frontier: nat, hand: nat, k: nat, v: nat)
    requires k < |frames| && Clock(hand, k, |frames|) == v && Takeable(frames, frontier, v)
    requires forall j: nat :: j < |frames| ==> !Idle(frames, frontier, j)
    requires forall j: nat :: j < k ==> !Takeable(frames, frontier, Clock(hand, j, |frames|))
    ensures Picked(frames, frontier, hand, v)
  {
    hide Clock;
    hide Idle;
    hide Takeable;
  }

  lemma SweepEnd(frames0: seq<Frame>, frames: seq<Frame>, frontier: nat, h0: nat, n: nat)
    requires Sweeping(frames0, frames, frontier, h0, 2 * n, n)
    ensures NoneEvictable(frames0, frontier)
  {
    forall i | 0 <= i < n ensures !Evictable(frames0[i], frontier) {
      var j := ClockCovers(h0, n, i);
      ClockAgain(h0, j, n);
      assert Clock(h0, j + n, n) == i;
    }
  }

  /** A frame the sweep has passed once and left: if it may be taken, its second chance is used up. */
  ghost predicate Passed(frames: seq<Frame>, frontier: nat, i: nat) {
    i < |frames| && (Evictable(frames[i], frontier) ==> !frames[i].referenced)
  }

  /** How often a page is pinned; zero if it is in no frame. */
  function PinsOf(frames: seq<Frame>, index: map<PageId, nat>, p: PageId): nat {
    if p in index && index[p] < |frames| then frames[index[p]].pins else 0
  }

  function Installed(frames: seq<Frame>, i: nat, p: PageId): seq<Frame>
    requires i < |frames|
  {
    frames[i := Frame(Some(p), 1, false, true, frames[i].lsn)]
  }

  function Reindexed(frames: seq<Frame>, index: map<PageId, nat>, i: nat, p: PageId): map<PageId, nat>
    requires i < |frames|
  {
    (if frames[i].page.Some? then index - {frames[i].page.value} else index)[p := i]
  }

  /** A pinned page stays in its frame, pinned as often. */
  ghost predicate StaysPinned(frames0: seq<Frame>, index0: map<PageId, nat>, frames: seq<Frame>,
                              index: map<PageId, nat>, q: PageId) {
    PinsOf(frames0, index0, q) > 0 ==>
      && PinsOf(frames, index, q) == PinsOf(frames0, index0, q)
      && q in index && q in index0 && index[q] == index0[q]
  }

  lemma PinnedThrough(frames0: seq<Frame>, index0: map<PageId, nat>, frames1: seq<Frame>, index1: map<PageId, nat>,
                      frames: seq<Frame>, index: map<PageId, nat>, q: PageId)
    requires StaysPinned(frames0, index0, frames1, index1, q) && StaysPinned(frames1, index1, frames, index, q)
    ensures StaysPinned(frames0, index0, frames, index, q)
  {
  }

  lemma IndexPart(b: BufferPool)
    requires b.Valid()
    ensures IndexOk(b.frames, b.index)
  {
    hide IndexOk;
  }

  lemma IndexAt(frames: seq<Frame>, index: map<PageId, nat>, p: PageId)
    requires IndexOk(frames, index) && p in index
    ensures index[p] < |frames| && frames[index[p]].page == Some(p)
  {
  }

  lemma InstalledAt(frames: seq<Frame>, index: map<PageId, nat>, i: nat, p: PageId)
    requires i < |frames|
    ensures Reindexed(frames, index, i, p)[p] == i && p in Reindexed(frames, index, i, p)
    ensures |Installed(frames, i, p)| == |frames| && Installed(frames, i, p)[i].referenced
  {
  }

  lemma PinSame(frames: seq<Frame>, index: map<PageId, nat>, p: PageId, pins: nat, referenced: bool)
    requires IndexOk(frames, index) && p in index
    ensures var i := index[p];
            && i < |frames|
            && var frames' := frames[i := frames[i].(pins := pins, referenced := referenced)];
               && PinsOf(frames', index, p) == pins && PinsOf(frames, index, p) == frames[i].pins
               && forall q :: q != p ==>
                    StaysPinned(frames, index, frames', index, q)
                    && PinsOf(frames', index, q) == PinsOf(frames, index, q)
  {
  }

  lemma PinsKept(frames0: seq<Frame>, frames: seq<Frame>, index: map<PageId, nat>, v: Outcome<nat>)
    requires Kept(frames0, frames, v) && IndexOk(frames0, index)
    ensures forall q :: PinsOf(frames, index, q) == PinsOf(frames0, index, q)
    ensures forall q :: StaysPinned(frames0, index, frames, index, q)
    ensures !v.Ok? ==> Kept(frames0, frames, Full)
  {
  }

  lemma InstallPins(frames0: seq<Frame>, frames: seq<Frame>, index: map<PageId, nat>, i: nat, p: PageId)
    requires IndexOk(frames, index) && i < |frames| && frames[i].pins == 0 && p !in index
    requires forall q :: PinsOf(frames, index, q) == PinsOf(frames0, index, q)
    ensures PinsOf(Installed(frames, i, p), Reindexed(frames, index, i, p), p) == 1 && PinsOf(frames0, index, p) == 0
    ensures forall q :: q != p ==>
              StaysPinned(frames0, index, Installed(frames, i, p), Reindexed(frames, index, i, p), q)
  {
    forall q | q != p ensures StaysPinned(frames0, index, Installed(frames, i, p), Reindexed(frames, index, i, p), q) {
      assert PinsOf(frames, index, q) == PinsOf(frames0, index, q);
    }
  }

  /** With the frontier at the end of the log, a frame that cannot be taken is pinned. */
  lemma OnlyPins(frames: seq<Frame>, frontier: nat, logEnd: nat)
    requires NoneEvictable(frames, frontier) && 0 < logEnd <= frontier
    requires forall i :: 0 <= i < |frames| && frames[i].dirty ==> frames[i].lsn <= logEnd
    ensures forall i :: 0 <= i < |frames| ==> frames[i].pins > 0
  {
    forall i | 0 <= i < |frames| ensures frames[i].pins > 0 {
      assert !Evictable(frames[i], frontier);
    }
  }

  lemma NotPinned(frames: seq<Frame>, index: map<PageId, nat>, p: PageId)
    requires p !in index
    ensures PinsOf(frames, index, p) == 0
  {
  }

  lemma FullTwice(frames0: seq<Frame>, frames: seq<Frame>, logEnd: nat)
    requires Kept(frames0, frames, Full)
    requires forall i :: 0 <= i < |frames0| && frames0[i].dirty ==> frames0[i].lsn <= logEnd
    ensures forall i :: 0 <= i < |frames| && frames[i].dirty ==> frames[i].lsn <= logEnd
  {
  }

  lemma PinnedBefore(frames0: seq<Frame>, frames: seq<Frame>)
    requires Kept(frames0, frames, Full) && (forall i :: 0 <= i < |frames| ==> frames[i].pins > 0)
    ensures forall i :: 0 <= i < |frames0| ==> frames0[i].pins > 0
  {
  }

  /** The first `i` frames have been written back, the others are as they were. */
  ghost predicate CleanTo(frames0: seq<Frame>, frames: seq<Frame>, i: nat) {
    && |frames| == |frames0| && i <= |frames|
    && (forall j :: 0 <= j < i ==> frames[j] == frames0[j].(dirty := false))
    && (forall j :: i <= j < |frames| ==> frames[j] == frames0[j])
  }

  lemma CleanStart(frames: seq<Frame>)
    ensures CleanTo(frames, frames, 0)
  {
  }

  lemma CleanDirty(frames0: seq<Frame>, frames: seq<Frame>, i: nat)
    requires CleanTo(frames0, frames, i) && i < |frames|
    ensures CleanTo(frames0, frames[i := frames[i].(dirty := false)], i + 1)
  {
  }

  lemma CleanSkip(frames0: seq<Frame>, frames: seq<Frame>, i: nat)
    requires CleanTo(frames0, frames, i) && i < |frames| && !frames[i].dirty
    ensures CleanTo(frames0, frames, i + 1)
  {
  }

  lemma CleanAhead(frames0: seq<Frame>, frames: seq<Frame>, i: nat)
    requires CleanTo(frames0, frames, i) && i < |frames|
    ensures i < |frames0| && frames[i] == frames0[i]
  {
  }

  lemma DirtyFrame(b: BufferPool, i: nat)
    requires b.Sound() && i < |b.frames| && b.frames[i].dirty
    ensures var f := b.frames[i];
            && f.page.Some? && f.page.value in b.mem && f.lsn == b.mem[f.page.value].lsn
            && f.page.value in b.index && b.index[f.page.value] == i
  {
    assert FrameOk(b.frames[i], b.mem);
  }

  /** With no frame dirty, exactly the loose pages differ on disk. */
  lemma AllBacked(b: BufferPool, frames0: seq<Frame>)
    requires b.Sound() && CleanTo(frames0, b.frames, |b.frames|)
    ensures forall p :: p in b.mem ==> (p in b.disk && b.disk[p] == b.mem[p] <==> p !in b.Loose())
  {
    assert forall p :: !DirtyIn(b.frames, b.index, p);
  }

  lemma LooseIsClean(b: BufferPool, i: nat)
    requires b.Sound() && i < |b.frames| && b.frames[i].dirty && b.frames[i].page.Some?
    ensures b.frames[i].page.value !in b.Loose() && b.Loose() - {b.frames[i].page.value} == b.Loose()
  {
    assert DirtyIn(b.frames, b.index, b.frames[i].page.value);
  }

  /** Of the first `i` frames no dirty one was ahead of the log. */
  ghost predicate BehindTo(frames: seq<Frame>, synced: nat, i: nat) {
    forall j :: 0 <= j < i && j < |frames| && frames[j].dirty ==> frames[j].lsn <= synced
  }

  lemma BehindStart(b: BufferPool)
    requires b.Valid()
    ensures Behind(b.disk, b.synced) && BehindTo(b.frames, b.synced, 0)
  {
    hide Behind;
  }

  lemma BehindDirty(frames: seq<Frame>, synced: nat, i: nat)
    requires i < |frames| && frames[i].dirty
    ensures BehindTo(frames, synced, i + 1) <==> BehindTo(frames, synced, i) && frames[i].lsn <= synced
  {
  }

  lemma BehindSkip(frames: seq<Frame>, synced: nat, i: nat)
    requires i < |frames| && !frames[i].dirty
    ensures BehindTo(frames, synced, i + 1) <==> BehindTo(frames, synced, i)
  {
  }

  lemma SoundPart(b: BufferPool)
    requires b.Valid()
    ensures b.Sound() && FramesOk(b.frames, b.mem) && IndexOk(b.frames, b.index)
  {
    hide FramesOk;
    hide IndexOk;
  }

  lemma ValidIs(b: BufferPool)
    requires b.Sound()
    ensures b.Valid() <==> Behind(b.disk, b.synced)
  {
    hide Behind;
  }

  lemma CleanedIs(frames: seq<Frame>, index: map<PageId, nat>, p: PageId, i: nat)
    requires i < |frames| && p in index && index[p] == i
    ensures Cleaned(frames, index, p) == frames[i := frames[i].(dirty := false)]
  {
  }

  lemma CleanPins(frames0: seq<Frame>, frames: seq<Frame>, index: map<PageId, nat>, i: nat)
    requires CleanTo(frames0, frames, i)
    ensures forall q :: PinsOf(frames, index, q) == PinsOf(frames0, index, q)
  {
  }

  lemma CleanSize(frames0: seq<Frame>, frames: seq<Frame>, i: nat)
    requires CleanTo(frames0, frames, i)
    ensures |frames0| == |frames|
  {
  }

  /** With every page written back, a dirty frame that was ahead of the log shows on disk. */
  lemma AheadEnd(frames: seq<Frame>, index: map<PageId, nat>, mem: Store, before: Store, disk: Store, synced: nat)
    requires IndexOk(frames, index) && FramesOk(frames, mem) && Behind(disk, synced)
    requires forall p :: p in mem ==> (p in disk && disk[p] == mem[p] <==> p !in Unbacked(frames, index, mem, before))
    ensures BehindTo(frames, synced, |frames|)
  {
    forall j | 0 <= j < |frames| && frames[j].dirty ensures frames[j].lsn <= synced {
      assert FrameOk(frames[j], mem);
      assert DirtyIn(frames, index, frames[j].page.value);
    }
  }

  lemma LooseIs(b: BufferPool)
    ensures b.Loose() == Unbacked(b.frames, b.index, b.mem, b.disk)
  {
    hide Unbacked;
  }

  lemma SyncedMore(disk: Store, synced: nat, synced': nat)
    requires Behind(disk, synced) && synced <= synced'
    ensures Behind(disk, synced')
  {
  }
}
