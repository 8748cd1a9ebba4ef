/**
  The centroid table of an inverted-file index, laid out over a chain of pages and read
  back. A float is its 32-bit pattern.
 */
module Centroids {
  import opened Keys
  import opened Codec
  import opened Chains

  type Float = n: nat | n < 0x1_0000_0000

  type Vector = seq<Float>

  const PAGE_HEADER := 28
  const CENTROID_HEADER := 6

  function FloatsPerPage(pageSize: nat): (n: nat)
    requires 4096 <= pageSize <= MAX_PAGE
    ensures 0 < n < 0x1_0000
  {
    (pageSize - PAGE_HEADER - CENTROID_HEADER) / 4
  }

  // ── one page ───────────────────────────────────────────────────────────────

  function Laid(fs: Vector): (bs: Bytes)
    ensures |bs| == 4 * |fs|
  {
    if fs == [] then [] else Laid(fs[..|fs| - 1]) + Word(fs[|fs| - 1], 4)
  }

  lemma {:induction false} LaidAt(body: Bytes, pos: nat, fs: Vector, i: nat)
    requires Stands(body, pos, Laid(fs)) && i < |fs|
    ensures ReadWord(body, pos + i * 4, 4) == Some(fs[i])
  {
    hide Stands;
    hide Word;
    hide ReadWord;
    StandsParts(body, pos, Laid(fs[..|fs| - 1]), Word(fs[|fs| - 1], 4));
    if i < |fs| - 1 {
      LaidAt(body, pos, fs[..|fs| - 1], i);
    } else {
      FourBytes(fs[i]);
      ReadBack(body, pos + 4 * i, fs[i], 4);
    }
  }

  lemma FourBytes(f: Float)
    ensures f < Base(4)
  {
    Widths();
  }

  /** The body of a page: next page, number of floats as 16 bits, floats; padding follows. */
  function PageBody(next: PageId, fs: Vector): Bytes {
    Word(next, 4) + Word(|fs| % 0x1_0000, 2) + Laid(fs)
  }

  predicate PageHolds(pages: Store, p: PageId, next: PageId, fs: Vector) {
    p in pages && PageBody(next, fs) <= pages[p]
  }

  lemma BodyParts(body: Bytes, next: PageId, fs: Vector)
    requires PageBody(next, fs) <= body && |fs| < 0x1_0000
    ensures ReadWord(body, 0, 4) == Some(next as nat) && ReadWord(body, 4, 2) == Some(|fs|)
    ensures Stands(body, 6, Laid(fs))
  {
    hide *;
    FourBytes(next);
    TwoBytes(|fs|);
    BodyStands(body, next, fs);
    StandsParts(body, 0, Word(next, 4) + Word(|fs|, 2), Laid(fs));
    StandsParts(body, 0, Word(next, 4), Word(|fs|, 2));
    ReadBack(body, 0, next, 4);
    ReadBack(body, 4, |fs|, 2);
  }

  lemma BodyStands(body: Bytes, next: PageId, fs: Vector)
    requires PageBody(next, fs) <= body && |fs| < 0x1_0000
    ensures Stands(body, 0, Word(next, 4) + Word(|fs|, 2) + Laid(fs))
  {
    hide Word;
    hide Laid;
    assert |fs| % 0x1_0000 == |fs|;
  }

  lemma TwoBytes(n: nat)
    requires n < 0x1_0000
    ensures n < Base(2)
  {
    Widths();
  }

  /** Read the next pointer and the floats of a page. */
  method ReadPage(body: Bytes, ghost to: PageId, ghost fs: Vector) returns (next: PageId, out: Vector)
    requires PageBody(to, fs) <= body && |fs| < 0x1_0000
    ensures next == to && out == fs
  {
    hide *;
    BodyParts(body, to, fs);
    next := ReadWord(body, 0, 4).value;
    var count := ReadWord(body, 4, 2).value;
    out := [];
    var i := 0;
    while i < count
      invariant i <= count && out == fs[..i]
    {
      LaidAt(body, 6, fs, i);
      out := out + [ReadWord(body, 6 + i * 4, 4).value];
      i := i + 1;
    }
  }

  // ── the chain ──────────────────────────────────────────────────────────────

  /** Where page `i` starts in the flat table. */
  function StartOf(size: nat, fpp: nat, i: nat): (at: nat)
    ensures at <= size
  {
    if i * fpp <= size then i * fpp else size
  }

  function PageCount(size: nat, fpp: nat): (n: nat)
    requires fpp > 0
    ensures n > 0
  {
    var n := (size + fpp - 1) / fpp;
    if n == 0 then 1 else n
  }

  function Slice(flat: Vector, fpp: nat, i: nat): (fs: Vector)
    ensures |fs| <= fpp
  {
    StartsGrow(|flat|, fpp, i);
    flat[StartOf(|flat|, fpp, i)..StartOf(|flat|, fpp, i + 1)]
  }

  lemma StartsGrow(size: nat, fpp: nat, i: nat)
    ensures StartOf(size, fpp, i) <= StartOf(size, fpp, i + 1) <= StartOf(size, fpp, i) + fpp
  {
    assert (i + 1) * fpp == i * fpp + fpp;
  }

  lemma StartsEnd(size: nat, fpp: nat)
    requires fpp > 0
    ensures StartOf(size, fpp, 0) == 0 && StartOf(size, fpp, PageCount(size, fpp)) == size
  {
    var n := (size + fpp - 1) / fpp;
    assert size + fpp - 1 == n * fpp + (size + fpp - 1) % fpp;
  }

  /** Every page of the table but the last is full, and only an empty table leaves a page empty. */
  lemma SliceFull(flat: Vector, fpp: nat, i: nat)
    requires fpp > 0 && i < PageCount(|flat|, fpp)
    ensures StartOf(|flat|, fpp, i) == i * fpp
    ensures i + 1 < PageCount(|flat|, fpp) ==> |Slice(flat, fpp, i)| == fpp
    ensures flat != [] ==> Slice(flat, fpp, i) != []
  {
    var n := (|flat| + fpp - 1) / fpp;
    assert |flat| + fpp - 1 == n * fpp + (|flat| + fpp - 1) % fpp;
    if n > 0 {
      assert (n - 1) * fpp == n * fpp - fpp;
      Product(i, n - 1, fpp);
      if i + 1 < n { Product(i + 1, n - 1, fpp); }
    }
    assert (i + 1) * fpp == i * fpp + fpp;
  }

  lemma {:induction false} Product(a: nat, b: nat, c: nat)
    requires a <= b
    ensures a * c <= b * c
  {
    assert b * c == a * c + (b - a) * c;
  }

  function LinkOf(ids: seq<PageId>, i: nat): PageId {
    if i + 1 < |ids| then ids[i + 1] else NO_PAGE
  }

  /** The pages `ids` hold the flat table. */
  ghost predicate ChainHolds(pages: Store, ids: seq<PageId>, fpp: nat, flat: Vector) {
    && 0 < fpp < 0x1_0000 && |ids| == PageCount(|flat|, fpp) && (forall i :: 0 <= i < |ids| ==> ids[i] != NO_PAGE)
    && (forall i :: 0 <= i < |ids| ==> PageHolds(pages, ids[i], LinkOf(ids, i), Slice(flat, fpp, i)))
  }

  ghost predicate AllDistinct(ids: seq<PageId>) {
    forall i, j :: 0 <= i < j < |ids| ==> ids[i] != ids[j]
  }

  /** The first `n` pages are written and no page outside `ids` is touched. */
  ghost predicate LaidOut(pages: Store, pages': Store, ids: seq<PageId>, fpp: nat, flat: Vector, n: nat) {
    && (forall p :: p in pages && p !in ids ==> p in pages' && pages'[p] == pages[p])
    && (forall j :: 0 <= j < n && j < |ids| ==> PageHolds(pages', ids[j], LinkOf(ids, j), Slice(flat, fpp, j)))
  }

  lemma LayNext(pages: Store, pages': Store, ids: seq<PageId>, fpp: nat, flat: Vector, i: nat)
    requires LaidOut(pages, pages', ids, fpp, flat, i) && i < |ids| && AllDistinct(ids)
    ensures LaidOut(pages, pages'[ids[i] := PageBody(LinkOf(ids, i), Slice(flat, fpp, i))], ids, fpp, flat, i + 1)
  {
    hide PageBody;
    hide Slice;
    hide LinkOf;
    var pages'' := pages'[ids[i] := PageBody(LinkOf(ids, i), Slice(flat, fpp, i))];
    forall j | 0 <= j < i + 1 ensures PageHolds(pages'', ids[j], LinkOf(ids, j), Slice(flat, fpp, j)) {
      if j < i { assert PageHolds(pages', ids[j], LinkOf(ids, j), Slice(flat, fpp, j)); }
    }
  }

  /** Write the flat table to freshly allocated pages. */
  method LayOut(pages: Store, ids: seq<PageId>, fpp: nat, flat: Vector) returns (pages': Store)
    requires 0 < fpp < 0x1_0000 && |ids| == PageCount(|flat|, fpp) && AllDistinct(ids) && NO_PAGE !in ids
    ensures ChainHolds(pages', ids, fpp, flat)
    ensures forall p :: p in pages && p !in ids ==> p in pages' && pages'[p] == pages[p]
  {
    pages' := pages;
    var i := 0;
    while i < |ids|
      invariant i <= |ids| && LaidOut(pages, pages', ids, fpp, flat, i)
    {
      hide *;
      SliceAt(flat, fpp, i);
      var start := i * fpp;
      var end := if (i + 1) * fpp <= |flat| then (i + 1) * fpp else |flat|;
      LayNext(pages, pages', ids, fpp, flat, i);
      pages' := pages'[ids[i] := PageBody(LinkOf(ids, i), flat[start..end])];
      i := i + 1;
    }
  }

  lemma SliceAt(flat: Vector, fpp: nat, i: nat)
    requires fpp > 0 && i < PageCount(|flat|, fpp)
    ensures var end := if (i + 1) * fpp <= |flat| then (i + 1) * fpp else |flat|;
            0 <= i * fpp <= end && flat[i * fpp..end] == Slice(flat, fpp, i)
  {
    SliceFull(flat, fpp, i);
    StartsGrow(|flat|, fpp, i);
  }

  // ── the table ──────────────────────────────────────────────────────────────

  predicate Rectangular(table: seq<Vector>, dim: nat) {
    forall c :: 0 <= c < |table| ==> |table[c]| == dim
  }

  lemma {:induction false} FlattenLength(table: seq<Vector>, dim: nat)
    requires Rectangular(table, dim)
    ensures |Joined(table)| == |table| * dim
  {
    if table != [] {
      FlattenLength(table[..|table| - 1], dim);
      assert |table| * dim == (|table| - 1) * dim + dim;
    }
  }

  lemma {:induction false} RowOfFlat(table: seq<Vector>, dim: nat, c: nat)
    requires Rectangular(table, dim) && c < |table|
    ensures c * dim + dim <= |Joined(table)| && Joined(table)[c * dim..c * dim + dim] == table[c]
  {
    var k := |table| - 1;
    FlattenLength(table[..k], dim);
    var at, end := c * dim, c * dim + dim;
    var front := Joined(table[..k]);
    assert Joined(table) == front + table[k];
    hide Joined;
    if c < k {
      RowOfFlat(table[..k], dim, c);
      assert (front + table[k])[at..end] == front[at..end];
    } else {
      assert at == |front|;
      assert (front + table[k])[at..end] == table[k];
    }
  }

  ghost predicate RowsOfFlat(flat: Vector, dim: nat, rows: seq<Vector>) {
    forall c :: 0 <= c < |rows| ==> 0 <= c * dim && c * dim + dim <= |flat| && rows[c] == flat[c * dim..c * dim + dim]
  }

  lemma RowFits(c: nat, nlist: nat, dim: nat)
    requires c < nlist
    ensures 0 <= c * dim && c * dim + dim <= nlist * dim
  {
    assert c * dim + dim == (c + 1) * dim;
    Product(c + 1, nlist, dim);
  }

  /** Cut a flat table into rows. */
  method Reshape(flat: Vector, nlist: nat, dim: nat) returns (rows: seq<Vector>)
    requires |flat| == nlist * dim
    ensures |rows| == nlist && RowsOfFlat(flat, dim, rows)
  {
    rows := [];
    var c := 0;
    while c < nlist
      invariant c <= nlist && |rows| == c && RowsOfFlat(flat, dim, rows)
    {
      RowFits(c, nlist, dim);
      rows := rows + [flat[c * dim..c * dim + dim]];
      c := c + 1;
    }
  }

  /** Cutting undoes flattening. */
  lemma CutFlattened(table: seq<Vector>, dim: nat, rows: seq<Vector>)
    requires Rectangular(table, dim) && RowsOfFlat(Joined(table), dim, rows) && |rows| == |table|
    ensures rows == table
  {
    forall c | 0 <= c < |table| ensures rows[c] == table[c] {
      RowOfFlat(table, dim, c);
    }
  }

  lemma NextSlice(flat: Vector, fpp: nat, i: nat)
    ensures flat[..StartOf(|flat|, fpp, i + 1)] == flat[..StartOf(|flat|, fpp, i)] + Slice(flat, fpp, i)
  {
    StartsGrow(|flat|, fpp, i);
  }

  lemma PageOfChain(pages: Store, ids: seq<PageId>, fpp: nat, flat: Vector, i: nat)
    requires ChainHolds(pages, ids, fpp, flat) && i < |ids|
    ensures ids[i] in pages && ids[i] != NO_PAGE && |Slice(flat, fpp, i)| < 0x1_0000
    ensures PageBody(LinkOf(ids, i), Slice(flat, fpp, i)) <= pages[ids[i]]
  {
    hide PageBody;
    assert PageHolds(pages, ids[i], LinkOf(ids, i), Slice(flat, fpp, i));
  }

  lemma ChainEnds(pages: Store, ids: seq<PageId>, fpp: nat, flat: Vector)
    requires ChainHolds(pages, ids, fpp, flat)
    ensures StartOf(|flat|, fpp, 0) == 0 && StartOf(|flat|, fpp, |ids|) == |flat|
    ensures forall i :: 0 <= i < |ids| ==> ids[i] != NO_PAGE
  {
    StartsEnd(|flat|, fpp);
  }

  lemma LinkIs(ids: seq<PageId>, i: nat)
    ensures LinkOf(ids, i) == if i + 1 < |ids| then ids[i + 1] else NO_PAGE
  {
  }

  /** `load_centroids`: walk the chain and cut the floats into `nlist` rows. */
  method LoadCentroids(pages: Store, head: PageId, nlist: nat, dim: nat, ghost ids: seq<PageId>, ghost fpp: nat,
                       ghost table: seq<Vector>)
    returns (r: Option<seq<Vector>>)
    requires ChainHolds(pages, ids, fpp, Joined(table)) && ids != [] && ids[0] == head && Rectangular(table, dim)
    ensures |table| == nlist ==> r == Some(table)
    ensures |table| * dim != nlist * dim ==> r == None
  {
    hide *;
    ghost var flat0 := Joined(table);
    ChainEnds(pages, ids, fpp, flat0);
    FlattenLength(table, dim);
    var flat: Vector := [];
    var p := head;
    ghost var i := 0;
    assert flat0[..0] == [];
    while p != NO_PAGE
      invariant i <= |ids| && p == (if i < |ids| then ids[i] else NO_PAGE)
      invariant flat == flat0[..StartOf(|flat0|, fpp, i)]
      decreases |ids| - i
    {
      PageOfChain(pages, ids, fpp, flat0, i);
      LinkIs(ids, i);
      var next, fs := ReadPage(pages[p], LinkOf(ids, i), Slice(flat0, fpp, i));
      NextSlice(flat0, fpp, i);
      flat := flat + fs;
      p := next;
      i := i + 1;
    }
    assert flat == flat0;
    if |flat| != nlist * dim { return None; }
    var rows := Reshape(flat, nlist, dim);
    if |table| == nlist { CutFlattened(table, dim, rows); }
    return Some(rows);
  }
}
