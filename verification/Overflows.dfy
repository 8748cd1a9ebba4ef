/**
  How an insert that overflows its leaf ends, as a function of the path it took: which pages
  it writes, whether page ids run out, and whether a half is larger than its page. And a
  bound on rows and keys, of any kind, under which no half ever is.
 */
module Overflows {
  import opened Keys
  import opened Nodes
  import opened Shapes
  import opened Searches
  import opened Crabbing

  /**
    How an operation that may split ends: page ids can run out, and writing a node larger
    than its page is a panic in the source.
   */
  datatype Ending = Finished | OutOfPages | Panicked

  /** How it ends and what it leaves: pages, the root pointer and the page allocator. */
  datatype Outcome = Outcome(end: Ending, pages: Pages, root: PageId, next: nat)

  // ── the way up ─────────────────────────────────────────────────────────────

  /**
    Carrying a separator up the retained frames. A node with room absorbs it; one without
    splits, which takes a page id and two halves within their pages; above the last frame a
    new root is put.
   */
  function Climb(pages: Pages, frames: seq<Frame>, root: PageId, sep: Sep, next: nat, cap: nat): Outcome
    decreases |frames|
  {
    if frames == [] then
      var top := Internal([sep.key], [root, sep.child]);
      if next >= NO_PAGE as int then Outcome(OutOfPages, pages, root, next)
      else if BodyLen(top) > cap then Outcome(Panicked, pages, root, next + 1)
      else Outcome(Finished, pages[next as PageId := top], next as PageId, next + 1)
    else
      var f := Top(frames);
      var full := InternalInsert(f.node, f.route, sep.key, sep.child);
      if BodyLen(full) <= cap then Outcome(Finished, pages[f.pid := full], root, next)
      else if next >= NO_PAGE as int then Outcome(OutOfPages, pages, root, next)
      else if BodyLen(InternalRight(full)) > cap then Outcome(Panicked, pages, root, next + 1)
      else
        var pages' := pages[next as PageId := InternalRight(full)];
        if BodyLen(InternalLeft(full)) > cap then Outcome(Panicked, pages', root, next + 1)
        else
          Climb(pages'[f.pid := InternalLeft(full)], frames[..|frames| - 1], root,
                Sep(InternalSep(full), next as PageId), next + 1, cap)
  }

  /** Putting the leaf `full` in place of the one at the end of the path: written as it is, or as two halves. */
  function PutLeaf(pages: Pages, path: seq<Frame>, full: Node, root: PageId, next: nat, cap: nat): Outcome
    requires path != []
  {
    var f := Top(path);
    if BodyLen(full) <= cap then Outcome(Finished, pages[f.pid := full], root, next)
    else if next >= NO_PAGE as int then Outcome(OutOfPages, pages, root, next)
    else if BodyLen(LeafRight(full)) > cap then Outcome(Panicked, pages, root, next + 1)
    else
      var pages' := pages[next as PageId := LeafRight(full)];
      if BodyLen(LeafLeft(full, next as PageId)) > cap then Outcome(Panicked, pages', root, next + 1)
      else
        Climb(pages'[f.pid := LeafLeft(full, next as PageId)], path[..|path| - 1], root,
              Sep(LeafSep(full), next as PageId), next + 1, cap)
  }

  // ── when a write panics ────────────────────────────────────────────────────

  /** One of the halves of the node is larger than its page. */
  predicate HalfBursts(full: Node, cap: nat) {
    BodyLen(InternalRight(full)) > cap || BodyLen(InternalLeft(full)) > cap
  }

  /**
    Every node from the last frame up overflows, with halves within their pages and a page id
    to be had, until one has a half larger than its page, or the new root is.
   */
  predicate ClimbBursts(frames: seq<Frame>, root: PageId, sep: Sep, next: nat, cap: nat)
    decreases |frames|
  {
    && next < NO_PAGE as int
    && if frames == [] then BodyLen(Internal([sep.key], [root, sep.child])) > cap
       else
         var f := Top(frames);
         var full := InternalInsert(f.node, f.route, sep.key, sep.child);
         && BodyLen(full) > cap
         && (HalfBursts(full, cap)
             || ClimbBursts(frames[..|frames| - 1], root, Sep(InternalSep(full), next as PageId), next + 1, cap))
  }

  /** The leaf overflows, and a half of it, or something above it, is larger than its page. */
  predicate PutBursts(path: seq<Frame>, full: Node, root: PageId, next: nat, cap: nat)
    requires path != []
  {
    && next < NO_PAGE as int && BodyLen(full) > cap
    && (BodyLen(LeafRight(full)) > cap || BodyLen(LeafLeft(full, next as PageId)) > cap
        || ClimbBursts(path[..|path| - 1], root, Sep(LeafSep(full), next as PageId), next + 1, cap))
  }

  lemma {:induction false} ClimbPanicsIff(pages: Pages, frames: seq<Frame>, root: PageId, sep: Sep, next: nat, cap: nat)
    ensures Climb(pages, frames, root, sep, next, cap).end.Panicked? <==> ClimbBursts(frames, root, sep, next, cap)
    decreases |frames|
  {
    hide BodyLen;
    hide InternalInsert;
    hide InternalLeft;
    hide InternalRight;
    hide InternalSep;
    if frames != [] && next < NO_PAGE as int {
      var f := Top(frames);
      var full := InternalInsert(f.node, f.route, sep.key, sep.child);
      ClimbPanicsIff(pages[next as PageId := InternalRight(full)][f.pid := InternalLeft(full)], frames[..|frames| - 1],
                     root, Sep(InternalSep(full), next as PageId), next + 1, cap);
    }
  }

  lemma PutPanicsIff(pages: Pages, path: seq<Frame>, full: Node, root: PageId, next: nat, cap: nat)
    requires path != []
    ensures PutLeaf(pages, path, full, root, next, cap).end.Panicked? <==> PutBursts(path, full, root, next, cap)
  {
    hide BodyLen;
    hide LeafLeft;
    hide LeafRight;
    hide LeafSep;
    hide Climb;
    hide ClimbBursts;
    if next < NO_PAGE as int {
      var q := next as PageId;
      ClimbPanicsIff(pages[q := LeafRight(full)][Top(path).pid := LeafLeft(full, q)], path[..|path| - 1], root,
                     Sep(LeafSep(full), q), next + 1, cap);
    }
  }

  // ── the way down ───────────────────────────────────────────────────────────

  /**
    The frames kept on the way down from the last of them: with `early`, all above a node safe
    for the key are forgotten.
   */
  function Down(pages: Pages, frames: seq<Frame>, level: nat, job: Job, early: bool, cap: nat): (path: seq<Frame>)
    requires frames != []
    ensures path != []
    decreases level
  {
    var top := Top(frames);
    if level == 0 || top.node.Leaf? then frames
    else
      var idx := RouteInsert(top.node.keys, job.key);
      if idx < |top.node.children| && top.node.children[idx] in pages then
        var child := top.node.children[idx];
        var node := pages[child];
        var kept := if early && InsertSafe(node, job.key, |job.payload|, cap) then []
                    else frames[|frames| - 1 := top.(route := idx)];
        Down(pages, kept + [Frame(child, node, 0)], level - 1, job, early, cap)
      else frames
  }

  /** The frames kept on the way from the root to the leaf the key belongs to. */
  function Descent(pages: Pages, root: PageId, level: nat, job: Job, early: bool, cap: nat): (path: seq<Frame>)
    ensures path != []
  {
    if root in pages then Down(pages, [Frame(root, pages[root], 0)], level, job, early, cap)
    else [Frame(root, Leaf([], [], NO_PAGE), 0)]
  }

  lemma DownStep(pages: Pages, frames: seq<Frame>, level: nat, job: Job, early: bool, cap: nat, idx: nat, child: PageId)
    requires frames != [] && level > 0 && Top(frames).node.Internal?
    requires idx == RouteInsert(Top(frames).node.keys, job.key)
    requires idx < |Top(frames).node.children| && child == Top(frames).node.children[idx] && child in pages
    ensures var kept := if early && InsertSafe(pages[child], job.key, |job.payload|, cap) then []
                        else frames[|frames| - 1 := Top(frames).(route := idx)];
            Down(pages, frames, level, job, early, cap) ==
            Down(pages, kept + [Frame(child, pages[child], 0)], level - 1, job, early, cap)
  {
  }

  lemma DownEnd(pages: Pages, frames: seq<Frame>, level: nat, job: Job, early: bool, cap: nat)
    requires frames != [] && Top(frames).node.Leaf?
    ensures Down(pages, frames, level, job, early, cap) == frames
  {
  }

  lemma DescentStart(pages: Pages, root: PageId, level: nat, job: Job, early: bool, cap: nat)
    requires root in pages
    ensures Descent(pages, root, level, job, early, cap) ==
              Down(pages, [Frame(root, pages[root], 0)], level, job, early, cap)
  {
  }

  // ── the way up, step by step ───────────────────────────────────────────────

  lemma ClimbAbsorbs(pages: Pages, frames: seq<Frame>, root: PageId, sep: Sep, next: nat, cap: nat, full: Node)
    requires frames != [] && full == InternalInsert(Top(frames).node, Top(frames).route, sep.key, sep.child)
    requires BodyLen(full) <= cap
    ensures Climb(pages, frames, root, sep, next, cap) == Outcome(Finished, pages[Top(frames).pid := full], root, next)
  {
  }

  lemma ClimbSplits(pages: Pages, frames: seq<Frame>, root: PageId, sep: Sep, next: nat, cap: nat, full: Node)
    requires frames != [] && full == InternalInsert(Top(frames).node, Top(frames).route, sep.key, sep.child)
    requires BodyLen(full) > cap
    ensures next >= NO_PAGE as int ==>
              Climb(pages, frames, root, sep, next, cap) == Outcome(OutOfPages, pages, root, next)
    ensures next < NO_PAGE as int ==>
              var q := next as PageId;
              Climb(pages, frames, root, sep, next, cap) ==
              if BodyLen(InternalRight(full)) > cap then Outcome(Panicked, pages, root, next + 1)
              else if BodyLen(InternalLeft(full)) > cap then
                Outcome(Panicked, pages[q := InternalRight(full)], root, next + 1)
              else
                Climb(pages[q := InternalRight(full)][Top(frames).pid := InternalLeft(full)], frames[..|frames| - 1],
                      root, Sep(InternalSep(full), q), next + 1, cap)
  {
  }

  lemma ClimbTops(pages: Pages, root: PageId, sep: Sep, next: nat, cap: nat)
    ensures next >= NO_PAGE as int ==> Climb(pages, [], root, sep, next, cap) == Outcome(OutOfPages, pages, root, next)
    ensures next < NO_PAGE as int ==>
              var top := Internal([sep.key], [root, sep.child]);
              Climb(pages, [], root, sep, next, cap) ==
              if BodyLen(top) > cap then Outcome(Panicked, pages, root, next + 1)
              else Outcome(Finished, pages[next as PageId := top], next as PageId, next + 1)
  {
  }

  lemma PutFits(pages: Pages, path: seq<Frame>, full: Node, root: PageId, next: nat, cap: nat)
    requires path != [] && BodyLen(full) <= cap
    ensures PutLeaf(pages, path, full, root, next, cap) == Outcome(Finished, pages[Top(path).pid := full], root, next)
  {
  }

  lemma PutSplits(pages: Pages, path: seq<Frame>, full: Node, root: PageId, next: nat, cap: nat)
    requires path != [] && BodyLen(full) > cap
    ensures next >= NO_PAGE as int ==>
              PutLeaf(pages, path, full, root, next, cap) == Outcome(OutOfPages, pages, root, next)
    ensures next < NO_PAGE as int ==>
              var q := next as PageId;
              PutLeaf(pages, path, full, root, next, cap) ==
              if BodyLen(LeafRight(full)) > cap then Outcome(Panicked, pages, root, next + 1)
              else if BodyLen(LeafLeft(full, q)) > cap then
                Outcome(Panicked, pages[q := LeafRight(full)], root, next + 1)
              else
                Climb(pages[q := LeafRight(full)][Top(path).pid := LeafLeft(full, q)], path[..|path| - 1], root,
                      Sep(LeafSep(full), q), next + 1, cap)
  {
    hide Climb;
  }

  // ── a bound on sizes ───────────────────────────────────────────────────────

  /** Limits on the length of a row, and of a key with the child pointer beside it. */
  datatype Limit = Limit(row: nat, key: nat)

  const MIN_ROW := 12
  const MIN_KEY := 6

  lemma KeyLenMin(k: Key)
    ensures KeyLen(k) >= 2
  {
  }

  predicate KeySlim(k: Key, lim: Limit) {
    KeyLen(k) + CHILD_LEN <= lim.key
  }

  predicate RowSlim(r: Row, lim: Limit) {
    RowLen(r) <= lim.row && KeySlim(r.key, lim)
  }

  /** Every row, or every key, of the node is within the limits. */
  ghost predicate NodeSlim(n: Node, lim: Limit) {
    match n
    case Leaf(entries, payloads, _) =>
      forall i :: 0 <= i < |RowsOf(entries, payloads)| ==> RowSlim(RowsOf(entries, payloads)[i], lim)
    case Internal(keys, _) => forall i :: 0 <= i < |keys| ==> KeySlim(keys[i], lim)
  }

  ghost predicate Slender(pages: Pages, lim: Limit) {
    forall p :: p in pages ==> NodeSlim(pages[p], lim)
  }

  function Product(a: nat, b: nat): nat {
    a * b
  }

  /** How many bytes at least half the entries take up, when entries of at most `w` bytes exceed the room. */
  function Slack(room: nat, w: nat, least: nat): nat {
    if w == 0 then 0 else Product(least, room / w / 2)
  }

  /**
    The limits are small enough for a page: a node that overflows has so many entries that
    even the smallest of them, in half of it, take up what was added, `extra` at most.
   */
  predicate Roomy(cap: nat, lim: Limit, extra: nat) {
    && 0 < lim.row && 0 < lim.key && NODE_HEADER + lim.key <= cap
    && extra <= Slack(cap - NODE_HEADER, lim.row, MIN_ROW) && lim.key <= Slack(cap - NODE_HEADER, lim.key, MIN_KEY)
  }

  lemma ProductNext(a: nat, b: nat)
    ensures Product(a, b + 1) == Product(a, b) + a && Product(a, 0) == 0
  {
  }

  lemma ProductMono(w: nat, a: nat, b: nat)
    requires a <= b
    ensures Product(w, a) <= Product(w, b)
  {
  }

  lemma {:induction false} RowsLenBounds(rows: seq<Row>, lim: Limit)
    requires forall i :: 0 <= i < |rows| ==> RowSlim(rows[i], lim)
    ensures Product(MIN_ROW, |rows|) <= RowsLen(rows) <= Product(lim.row, |rows|)
  {
    hide Product;
    if rows == [] {
      ProductNext(MIN_ROW, 0);
      ProductNext(lim.row, 0);
    } else {
      RowsLenBounds(rows[1..], lim);
      KeyLenMin(rows[0].key);
      assert RowSlim(rows[0], lim);
      ProductNext(MIN_ROW, |rows[1..]|);
      ProductNext(lim.row, |rows[1..]|);
    }
  }

  lemma {:induction false} KeysLenBounds(keys: seq<Key>, lim: Limit)
    requires forall i :: 0 <= i < |keys| ==> KeySlim(keys[i], lim)
    ensures Product(MIN_KEY, |keys|) <= KeysLen(keys) <= Product(lim.key, |keys|)
  {
    hide Product;
    if keys == [] {
      ProductNext(MIN_KEY, 0);
      ProductNext(lim.key, 0);
    } else {
      KeysLenBounds(keys[1..], lim);
      KeyLenMin(keys[0]);
      assert KeySlim(keys[0], lim);
      ProductNext(MIN_KEY, |keys[1..]|);
      ProductNext(lim.key, |keys[1..]|);
    }
  }

  lemma DivProduct(room: nat, w: nat)
    requires w > 0
    ensures Product(w, room / w) <= room
  {
  }

  /** So many entries of at most `w` bytes that they are more than `room` bytes. */
  lemma ManyEntries(room: nat, w: nat, m: nat)
    requires w > 0 && Product(w, m) > room
    ensures m / 2 >= room / w / 2
  {
    hide Product;
    var d := room / w;
    DivProduct(room, w);
    if m <= d { ProductMono(w, m, d); }
  }

  /**
    Neither of two parts is larger than the room, if the other has half the entries and what
    was added is less than those.
   */
  lemma BothFit(room: nat, w: nat, least: nat, m: nat, extra: nat, left: nat, right: nat)
    requires w > 0 && room < left + right <= room + extra && left + right <= Product(w, m)
    requires Product(least, m / 2) <= left && Product(least, m / 2) <= right && extra <= Slack(room, w, least)
    ensures left <= room && right <= room
  {
    hide Product;
    ManyEntries(room, w, m);
    ProductMono(least, room / w / 2, m / 2);
  }

  /** A leaf that was within its page before at most `extra` bytes were added splits into leaves that are. */
  lemma SlimLeafHalves(rows: seq<Row>, lim: Limit, cap: nat, extra: nat)
    requires forall i :: 0 <= i < |rows| ==> RowSlim(rows[i], lim)
    requires Roomy(cap, lim, extra) && cap < NODE_HEADER + RowsLen(rows) <= cap + extra
    ensures NODE_HEADER + RowsLen(rows[|rows| / 2..]) <= cap && NODE_HEADER + RowsLen(rows[..|rows| / 2]) <= cap
  {
    hide RowsLen;
    hide RowSlim;
    hide Product;
    hide Slack;
    var m := |rows|;
    var h := m / 2;
    var left, right := rows[..h], rows[h..];
    assert rows == left + right;
    RowsLenConcat(left, right);
    RowsLenBounds(rows, lim);
    RowsLenBounds(left, lim);
    RowsLenBounds(right, lim);
    ProductMono(MIN_ROW, h, |right|);
    BothFit(cap - NODE_HEADER, lim.row, MIN_ROW, m, extra, RowsLen(left), RowsLen(right));
  }

  lemma SomeKeys(keys: seq<Key>)
    ensures KeysLen(keys) > 0 ==> keys != []
  {
  }

  lemma SlimKeyHalves(keys: seq<Key>, lim: Limit, cap: nat, extra: nat)
    requires forall i :: 0 <= i < |keys| ==> KeySlim(keys[i], lim)
    requires Roomy(cap, lim, extra) && cap < NODE_HEADER + KeysLen(keys) <= cap + lim.key
    ensures |keys| / 2 < |keys|
    ensures NODE_HEADER + KeysLen(keys[|keys| / 2 + 1..]) <= cap && NODE_HEADER + KeysLen(keys[..|keys| / 2]) <= cap
  {
    hide KeysLen;
    hide KeySlim;
    hide Product;
    hide Slack;
    SomeKeys(keys);
    var m := |keys|;
    var h := m / 2;
    var left, mid, right := keys[..h], [keys[h]], keys[h + 1..];
    assert keys == left + (mid + right);
    KeysLenConcat(left, mid + right);
    KeysLenConcat(mid, right);
    assert forall i :: 0 <= i < |left| ==> left[i] == keys[i];
    assert forall i :: 0 <= i < |mid + right| ==> (mid + right)[i] == keys[h + i];
    KeysLenBounds(keys, lim);
    KeysLenBounds(left, lim);
    KeysLenBounds(mid + right, lim);
    ProductMono(MIN_KEY, h, |mid + right|);
    BothFit(cap - NODE_HEADER, lim.key, MIN_KEY, m, lim.key, KeysLen(left), KeysLen(mid + right));
  }

  // ── no slim node bursts ────────────────────────────────────────────────────

  lemma SlimWrite(pages: Pages, lim: Limit, p: PageId, n: Node)
    requires Slender(pages, lim) && NodeSlim(n, lim)
    ensures Slender(pages[p := n], lim)
  {
    hide NodeSlim;
  }

  lemma SlimInner(n: Node, at: nat, sep: Key, child: PageId, lim: Limit)
    requires n.Internal? && at <= |n.keys| && NodeSlim(n, lim) && KeySlim(sep, lim)
    ensures NodeSlim(InternalInsert(n, at, sep, child), lim)
  {
    hide KeySlim;
    var keys := InsertAt(n.keys, at, sep);
    forall i | 0 <= i < |keys| ensures KeySlim(keys[i], lim) {
      assert keys[i] == if i < at then n.keys[i] else if i == at then sep else n.keys[i - 1];
    }
  }

  lemma SlimInnerHalves(full: Node, lim: Limit)
    requires full.Internal? && full.keys != [] && NodeSlim(full, lim)
    ensures NodeSlim(InternalLeft(full), lim) && NodeSlim(InternalRight(full), lim) && KeySlim(InternalSep(full), lim)
  {
    hide KeySlim;
    var keys, h := full.keys, |full.keys| / 2;
    var left, right := keys[..h], keys[h + 1..];
    assert forall i :: 0 <= i < |left| ==> left[i] == keys[i];
    assert forall i :: 0 <= i < |right| ==> right[i] == keys[h + 1 + i];
  }

  /** A full internal node whose keys are slim splits into nodes within their pages. */
  lemma InnerNeverBursts(full: Node, lim: Limit, cap: nat, extra: nat)
    requires full.Internal? && NodeSlim(full, lim) && Roomy(cap, lim, extra) && cap < BodyLen(full) <= cap + lim.key
    ensures full.keys != [] && BodyLen(InternalRight(full)) <= cap && BodyLen(InternalLeft(full)) <= cap
  {
    SlimKeyHalves(full.keys, lim, cap, extra);
  }

  /** A frame of an internal node within its page and the limits. */
  ghost predicate FrameSlim(f: Frame, lim: Limit, cap: nat) {
    && f.node.Internal? && f.route <= |f.node.keys| && |f.node.children| == |f.node.keys| + 1
    && NodeSlim(f.node, lim) && BodyLen(f.node) <= cap
  }

  lemma FullSlim(f: Frame, sep: Sep, lim: Limit, cap: nat)
    requires FrameSlim(f, lim, cap) && KeySlim(sep.key, lim)
    ensures var full := InternalInsert(f.node, f.route, sep.key, sep.child);
            full.Internal? && NodeSlim(full, lim) && BodyLen(full) <= cap + lim.key
  {
    InternalInsertLen(f.node, f.route, sep.key, sep.child);
    SlimInner(f.node, f.route, sep.key, sep.child, lim);
    hide NodeSlim;
    hide BodyLen;
  }

  lemma TopSlim(root: PageId, sep: Sep, lim: Limit, cap: nat, extra: nat)
    requires KeySlim(sep.key, lim) && Roomy(cap, lim, extra)
    ensures NodeSlim(Internal([sep.key], [root, sep.child]), lim)
    ensures BodyLen(Internal([sep.key], [root, sep.child])) <= cap
  {
    assert [sep.key][1..] == [];
    assert KeysLen([sep.key]) == KeyLen(sep.key) + CHILD_LEN + KeysLen([]);
    hide Slack;
  }

  /** Within the limits, a separator climbs without a panic, and the pages stay within the limits. */
  lemma {:induction false} ClimbNeverBursts(pages: Pages, frames: seq<Frame>, root: PageId, sep: Sep, next: nat,
                                            cap: nat,
                                            lim: Limit, extra: nat)
    requires Roomy(cap, lim, extra) && Slender(pages, lim) && KeySlim(sep.key, lim)
    requires forall i :: 0 <= i < |frames| ==> FrameSlim(frames[i], lim, cap)
    ensures !Climb(pages, frames, root, sep, next, cap).end.Panicked?
    ensures Slender(Climb(pages, frames, root, sep, next, cap).pages, lim)
    decreases |frames|
  {
    hide Roomy;
    hide Slender;
    hide KeySlim;
    hide FrameSlim;
    hide NodeSlim;
    hide BodyLen;
    hide InternalInsert;
    hide InternalLeft;
    hide InternalRight;
    hide InternalSep;
    if frames == [] {
      TopSlim(root, sep, lim, cap, extra);
      if next < NO_PAGE as int { SlimWrite(pages, lim, next as PageId, Internal([sep.key], [root, sep.child])); }
    } else {
      var f := Top(frames);
      assert f == frames[|frames| - 1];
      var full := InternalInsert(f.node, f.route, sep.key, sep.child);
      FullSlim(f, sep, lim, cap);
      if BodyLen(full) <= cap {
        SlimWrite(pages, lim, f.pid, full);
      } else if next < NO_PAGE as int {
        InnerNeverBursts(full, lim, cap, extra);
        SlimInnerHalves(full, lim);
        var pages' := pages[next as PageId := InternalRight(full)];
        SlimWrite(pages, lim, next as PageId, InternalRight(full));
        SlimWrite(pages', lim, f.pid, InternalLeft(full));
        ClimbNeverBursts(pages'[f.pid := InternalLeft(full)], frames[..|frames| - 1], root,
                         Sep(InternalSep(full), next as PageId), next + 1, cap, lim, extra);
      }
    }
  }

  lemma SlimLeafParts(full: Node, q: PageId, lim: Limit)
    requires full.Leaf? && full.entries != [] && PayloadsAligned(full) && NodeSlim(full, lim)
    ensures NodeSlim(LeafLeft(full, q), lim) && NodeSlim(LeafRight(full), lim) && KeySlim(LeafSep(full), lim)
  {
    hide RowSlim;
    hide KeySlim;
    LeafSplitRows(full, q);
    var l, r := LeafLeft(full, q), LeafRight(full);
    var ls, rs := RowsOf(l.entries, l.payloads), RowsOf(r.entries, r.payloads);
    var rows := RowsOf(full.entries, full.payloads);
    assert forall i :: 0 <= i < |ls| ==> ls[i] == rows[i];
    assert forall i :: 0 <= i < |rs| ==> rs[i] == rows[|ls| + i];
    RowKeySlim(rows[|full.entries| / 2], lim);
  }

  lemma RowKeySlim(r: Row, lim: Limit)
    requires RowSlim(r, lim)
    ensures KeySlim(r.key, lim)
  {
  }

  /** A full leaf whose rows are slim splits into leaves within their pages. */
  lemma LeafNeverBursts(full: Node, q: PageId, lim: Limit, cap: nat, extra: nat)
    requires full.Leaf? && PayloadsAligned(full) && NodeSlim(full, lim) && Roomy(cap, lim, extra)
    requires cap < BodyLen(full) <= cap + extra
    ensures full.entries != [] && BodyLen(LeafRight(full)) <= cap && BodyLen(LeafLeft(full, q)) <= cap
  {
    var rows := RowsOf(full.entries, full.payloads);
    SomeRows(rows);
    SlimLeafHalves(rows, lim, cap, extra);
    LeafSplitRows(full, q);
    var l, r := LeafLeft(full, q), LeafRight(full);
    assert |RowsOf(l.entries, l.payloads)| == |rows| / 2;
    assert RowsOf(l.entries, l.payloads) == rows[..|rows| / 2];
    assert RowsOf(r.entries, r.payloads) == rows[|rows| / 2..];
    hide RowsOf;
    hide Roomy;
    hide RowSlim;
  }

  lemma SomeRows(rows: seq<Row>)
    ensures RowsLen(rows) > 0 ==> rows != []
  {
  }

  /**
    Keys and payloads of any kind: if all pages and the leaf to be written are within limits
    small enough for the page, and the leaf is at most `extra` larger than its page, putting
    it in place does not panic, and all pages are within the limits afterwards.
   */
  lemma PutLeafNeverBursts(pages: Pages, path: seq<Frame>, full: Node, root: PageId, next: nat, cap: nat, lim: Limit,
                           extra: nat)
    requires path != [] && full.Leaf? && PayloadsAligned(full) && NodeSlim(full, lim) && Slender(pages, lim)
    requires Roomy(cap, lim, extra) && BodyLen(full) <= cap + extra
    requires forall i :: 0 <= i < |path| - 1 ==> FrameSlim(path[i], lim, cap)
    ensures !PutLeaf(pages, path, full, root, next, cap).end.Panicked?
    ensures Slender(PutLeaf(pages, path, full, root, next, cap).pages, lim)
  {
    hide Roomy;
    hide Slender;
    hide KeySlim;
    hide FrameSlim;
    hide NodeSlim;
    hide BodyLen;
    hide LeafLeft;
    hide LeafRight;
    hide LeafSep;
    hide PayloadsAligned;
    hide Climb;
    var f := Top(path);
    if BodyLen(full) <= cap {
      SlimWrite(pages, lim, f.pid, full);
    } else if next < NO_PAGE as int {
      var q := next as PageId;
      LeafNeverBursts(full, q, lim, cap, extra);
      SlimLeafParts(full, q, lim);
      var pages' := pages[q := LeafRight(full)];
      SlimWrite(pages, lim, q, LeafRight(full));
      SlimWrite(pages', lim, f.pid, LeafLeft(full, q));
      ClimbNeverBursts(pages'[f.pid := LeafLeft(full, q)], path[..|path| - 1], root, Sep(LeafSep(full), q), next + 1,
                       cap, lim, extra);
    }
  }

  /** On pages of 8 KiB, text keys of up to 140 bytes without payload are within such limits, one at a time. */
  lemma TextBound()
    ensures Roomy(8192 - 28, Limit(3 + 140 + LENGTH_FIELD + ROWID_LEN, 3 + 140 + CHILD_LEN),
                  3 + 140 + LENGTH_FIELD + ROWID_LEN)
  {
  }

  // ── page ids, and the order of leaves ──────────────────────────────────────

  /** A separator that runs out of page ids has used them up. */
  lemma {:induction false} ClimbRunsOut(pages: Pages, frames: seq<Frame>, root: PageId, sep: Sep, next: nat, cap: nat)
    ensures var o := Climb(pages, frames, root, sep, next, cap);
            next <= o.next && (o.end.OutOfPages? ==> o.next >= NO_PAGE as int)
    decreases |frames|
  {
    hide BodyLen;
    hide InternalInsert;
    hide InternalLeft;
    hide InternalRight;
    hide InternalSep;
    if frames != [] && next < NO_PAGE as int {
      var f := Top(frames);
      var full := InternalInsert(f.node, f.route, sep.key, sep.child);
      ClimbRunsOut(pages[next as PageId := InternalRight(full)][f.pid := InternalLeft(full)], frames[..|frames| - 1],
                   root, Sep(InternalSep(full), next as PageId), next + 1, cap);
    }
  }

  lemma PutRunsOut(pages: Pages, path: seq<Frame>, full: Node, root: PageId, next: nat, cap: nat)
    requires path != []
    ensures var o := PutLeaf(pages, path, full, root, next, cap);
            next <= o.next && (o.end.OutOfPages? ==> o.next >= NO_PAGE as int)
  {
    hide BodyLen;
    hide LeafLeft;
    hide LeafRight;
    hide LeafSep;
    hide Climb;
    if next < NO_PAGE as int {
      var q := next as PageId;
      ClimbRunsOut(pages[q := LeafRight(full)][Top(path).pid := LeafLeft(full, q)], path[..|path| - 1], root,
                   Sep(LeafSep(full), q), next + 1, cap);
    }
  }

  predicate NodeNeat(n: Node) {
    n.Leaf? ==> Ascending(n.entries)
  }

  /** The entries of every leaf ascend by key and then row id. */
  ghost predicate Neat(pages: Pages) {
    forall p :: p in pages ==> NodeNeat(pages[p])
  }

  lemma NeatWrite(pages: Pages, p: PageId, n: Node)
    requires Neat(pages) && NodeNeat(n)
    ensures Neat(pages[p := n])
  {
    hide NodeNeat;
  }

  lemma NeatAt(pages: Pages, p: PageId)
    requires Neat(pages) && p in pages
    ensures NodeNeat(pages[p])
  {
    hide NodeNeat;
  }

  lemma InnerNeat(n: Node)
    requires n.Internal?
    ensures NodeNeat(n)
  {
  }

  lemma InnerParts(n: Node, at: nat, sep: Sep)
    requires n.Internal?
    ensures var full := InternalInsert(n, at, sep.key, sep.child);
            full.Internal? && InternalLeft(full).Internal? && InternalRight(full).Internal?
  {
  }

  /** A separator that climbs leaves every leaf as it is. */
  lemma {:induction false} ClimbNeat(pages: Pages, frames: seq<Frame>, root: PageId, sep: Sep, next: nat, cap: nat)
    requires Neat(pages) && forall i :: 0 <= i < |frames| ==> frames[i].node.Internal?
    ensures Neat(Climb(pages, frames, root, sep, next, cap).pages)
    decreases |frames|
  {
    hide Neat;
    hide NodeNeat;
    hide BodyLen;
    hide InternalInsert;
    hide InternalLeft;
    hide InternalRight;
    hide InternalSep;
    if frames == [] {
      InnerNeat(Internal([sep.key], [root, sep.child]));
      if next < NO_PAGE as int { NeatWrite(pages, next as PageId, Internal([sep.key], [root, sep.child])); }
    } else {
      var f := Top(frames);
      assert f == frames[|frames| - 1];
      var full := InternalInsert(f.node, f.route, sep.key, sep.child);
      InnerParts(f.node, f.route, sep);
      InnerNeat(full);
      InnerNeat(InternalLeft(full));
      InnerNeat(InternalRight(full));
      NeatWrite(pages, f.pid, full);
      if next < NO_PAGE as int {
        var pages' := pages[next as PageId := InternalRight(full)];
        NeatWrite(pages, next as PageId, InternalRight(full));
        NeatWrite(pages', f.pid, InternalLeft(full));
        ClimbNeat(pages'[f.pid := InternalLeft(full)], frames[..|frames| - 1], root,
                  Sep(InternalSep(full), next as PageId), next + 1, cap);
      }
    }
  }

  lemma HalvesNeat(full: Node, q: PageId)
    requires NodeNeat(full)
    ensures NodeNeat(LeafLeft(full, q)) && NodeNeat(LeafRight(full))
  {
    hide EntryLess;
  }

  /** Putting a leaf that ascends in place, whole or as halves, leaves every leaf ascending. */
  lemma PutNeat(pages: Pages, path: seq<Frame>, full: Node, root: PageId, next: nat, cap: nat)
    requires path != [] && Neat(pages) && NodeNeat(full)
    requires forall i :: 0 <= i < |path| - 1 ==> path[i].node.Internal?
    ensures Neat(PutLeaf(pages, path, full, root, next, cap).pages)
  {
    hide Neat;
    hide NodeNeat;
    hide BodyLen;
    hide LeafLeft;
    hide LeafRight;
    hide LeafSep;
    hide Climb;
    var f := Top(path);
    NeatWrite(pages, f.pid, full);
    if next < NO_PAGE as int {
      var q := next as PageId;
      HalvesNeat(full, q);
      var pages' := pages[q := LeafRight(full)];
      NeatWrite(pages, q, LeafRight(full));
      NeatWrite(pages', f.pid, LeafLeft(full, q));
      ClimbNeat(pages'[f.pid := LeafLeft(full, q)], path[..|path| - 1], root, Sep(LeafSep(full), q), next + 1, cap);
    }
  }

  // ── rows to come ───────────────────────────────────────────────────────────

  function RunLen(es: seq<Entry>): nat {
    if es == [] then 0 else RunLen(es[..|es| - 1]) + KeyLen(es[|es| - 1].key) + LENGTH_FIELD + ROWID_LEN
  }

  predicate PairSlim(e: Entry, lim: Limit) {
    RowSlim(Row(e.key, e.rid, []), lim)
  }

  /** All pages, and the pairs to come, are within limits small enough for the page, one by one and all together. */
  ghost predicate Slim(pages: Pages, cap: nat, es: seq<Entry>, lim: Limit) {
    && Slender(pages, lim) && (forall e :: e in es ==> PairSlim(e, lim))
    && Roomy(cap, lim, lim.row) && Roomy(cap, lim, RunLen(es))
  }

  lemma {:induction false} RunLenJoin(a: seq<Entry>, b: seq<Entry>)
    ensures RunLen(a + b) == RunLen(a) + RunLen(b)
  {
    if b == [] {
      assert a + b == a;
    } else {
      assert (a + b)[..|a + b| - 1] == a + b[..|b| - 1];
      RunLenJoin(a, b[..|b| - 1]);
    }
  }

  lemma RunLenPart(es: seq<Entry>, i: nat, j: nat)
    requires i <= j <= |es|
    ensures RunLen(es[i..j]) <= RunLen(es)
  {
    hide RunLen;
    var a, b, c := es[..i], es[i..j], es[j..];
    assert es == a + (b + c);
    RunLenJoin(a, b + c);
    RunLenJoin(b, c);
  }

  lemma RoomyLess(cap: nat, lim: Limit, extra: nat, less: nat)
    requires Roomy(cap, lim, extra) && less <= extra
    ensures Roomy(cap, lim, less)
  {
    hide Slack;
  }

  /** Part of the pairs are within the limits too. */
  lemma SlimPart(pages: Pages, cap: nat, es: seq<Entry>, i: nat, j: nat, lim: Limit)
    requires Slim(pages, cap, es, lim) && i <= j <= |es|
    ensures Slim(pages, cap, es[i..j], lim)
  {
    hide Slender;
    hide PairSlim;
    RunLenPart(es, i, j);
    RoomyLess(cap, lim, RunLen(es), RunLen(es[i..j]));
    hide Roomy;
  }

  lemma SlimAfter(pages: Pages, pages': Pages, cap: nat, es: seq<Entry>, lim: Limit)
    requires Slim(pages, cap, es, lim) && Slender(pages', lim)
    ensures Slim(pages', cap, es, lim)
  {
    hide Slender;
    hide PairSlim;
    hide Roomy;
  }

  lemma SlimParts(pages: Pages, cap: nat, es: seq<Entry>, lim: Limit)
    requires Slim(pages, cap, es, lim)
    ensures Slender(pages, lim) && Roomy(cap, lim, lim.row) && Roomy(cap, lim, RunLen(es))
    ensures forall e :: e in es ==> PairSlim(e, lim)
  {
    hide Slender;
    hide PairSlim;
    hide Roomy;
  }

  /** A payload-free leaf is within the limits exactly if its entries are. */
  lemma BareSlim(n: Node, lim: Limit)
    requires n.Leaf? && n.payloads == []
    ensures NodeSlim(n, lim) <==> forall e :: e in n.entries ==> PairSlim(e, lim)
  {
    hide RowSlim;
    var rows := RowsOf(n.entries, []);
    assert forall i :: 0 <= i < |rows| ==> rows[i] == Row(n.entries[i].key, n.entries[i].rid, []);
    if forall e :: e in n.entries ==> PairSlim(e, lim) {
      forall i | 0 <= i < |rows| ensures RowSlim(rows[i], lim) {
        assert n.entries[i] in n.entries;
      }
    }
    if NodeSlim(n, lim) {
      forall e | e in n.entries ensures PairSlim(e, lim) {
        var i :| 0 <= i < |n.entries| && n.entries[i] == e;
        assert RowSlim(rows[i], lim);
      }
    }
  }

  lemma SlimAt(pages: Pages, lim: Limit, p: PageId)
    requires Slender(pages, lim) && p in pages
    ensures NodeSlim(pages[p], lim)
  {
    hide NodeSlim;
  }
}
