/**
  Large objects: a byte stream cut into chunk rows of a heap, indexed by object id in a
  B+tree, and read back in chunk order whatever order the index yields.
 */
module Lobs {
  import opened Keys
  import opened Nodes
  import opened Shapes
  import opened Searches
  import opened Trees
  import opened Walks
  import opened Spelling
  import opened Sorting
  import opened Patches
  import opened Inserts
  import opened Accounts
  import opened BTree
  import opened Codec
  import opened Chains

  const CHUNK_SIZE := 7000

  /** A row of the chunk table. */
  datatype Chunk = Chunk(lob: Int64, no: nat, data: Bytes)

  // ── a stream that may return short reads ───────────────────────────────────

  class Source {
    var rest: Bytes

    constructor (data: Bytes)
      ensures rest == data
    {
      rest := data;
    }

    /** At least one byte unless the stream is at its end, at most `max`. */
    method Read(max: nat) returns (got: Bytes)
      requires max > 0
      modifies this
      ensures got + rest == old(rest) && |got| <= max && (got == [] <==> old(rest) == [])
    {
      if rest == [] { return []; }
      var n: nat :| 1 <= n <= max && n <= |rest|;
      got := rest[..n];
      rest := rest[n..];
    }
  }

  /** Fill one chunk from as many reads as it takes. */
  method Fill(src: Source) returns (data: Bytes)
    modifies src
    ensures data + src.rest == old(src.rest) && |data| <= CHUNK_SIZE
    ensures |data| < CHUNK_SIZE ==> src.rest == []
  {
    data := [];
    while |data| < CHUNK_SIZE
      invariant data + src.rest == old(src.rest) && |data| <= CHUNK_SIZE
      decreases CHUNK_SIZE - |data|
    {
      var got := src.Read(CHUNK_SIZE - |data|);
      if got == [] { break; }
      assert data + (got + src.rest) == (data + got) + src.rest;
      data := data + got;
    }
  }

  // ── the heap ───────────────────────────────────────────────────────────────

  /** A page id of 32 bits and a slot of 16. */
  const ROW_IDS := 0x1_0000_0000_0000

  class Heap {
    var rows: map<RowId, Chunk>
    var next: nat

    ghost predicate Valid()
      reads this
    {
      forall r :: r in rows ==> r.page * 0x1_0000 + r.slot < next
    }

    constructor ()
      ensures Valid() && rows == map[]
    {
      rows := map[];
      next := 0;
    }

    /** Store a row under a row id never used before. */
    method Insert(c: Chunk) returns (ok: bool, rid: RowId)
      requires Valid()
      modifies this
      ensures Valid() && (!ok ==> rows == old(rows)) && (ok <==> old(next) < ROW_IDS) && old(next) <= next
      ensures ok ==> rid !in old(rows) && rows == old(rows)[rid := c]
    {
      if next >= ROW_IDS { return false, RowId(0, 0); }
      rid := RowId(next / 0x1_0000, next % 0x1_0000);
      assert rid.page * 0x1_0000 + rid.slot == next;
      rows := rows[rid := c];
      next := next + 1;
      return true, rid;
    }
  }

  // ── what a stored object looks like ────────────────────────────────────────

  /** Chunks as a writer makes them: all full but possibly the last, none empty. */
  ghost predicate WellCut(chunks: seq<Bytes>) {
    forall i :: 0 <= i < |chunks| ==> 0 < |chunks[i]| <= CHUNK_SIZE && (i < |chunks| - 1 ==> |chunks[i]| == CHUNK_SIZE)
  }

  /** Row `r` of the index entries of the object holds chunk number `no`. */
  predicate HoldsChunk(heap: map<RowId, Chunk>, lob: Int64, chunks: seq<Bytes>, r: Row) {
    r.rid in heap && heap[r.rid].lob == lob && heap[r.rid].no < |chunks| && heap[r.rid].data == chunks[heap[r.rid].no]
  }

  /** The index entries `hits` of an object name its chunks one to one, in any order. */
  ghost predicate Holds(heap: map<RowId, Chunk>, lob: Int64, chunks: seq<Bytes>, hits: seq<Row>) {
    && |hits| == |chunks|
    && (forall i :: 0 <= i < |hits| ==> HoldsChunk(heap, lob, chunks, hits[i]))
    && (forall i, j :: 0 <= i < j < |hits| ==> heap[hits[i].rid].no != heap[hits[j].rid].no)
  }

  // ── adding one chunk ───────────────────────────────────────────────────────

  /** Inserting a row with the key adds it to what a lookup of the key gives. */
  lemma HitsGrow(rows: seq<Row>, rows': seq<Row>, row: Row) returns (k: nat)
    requires Inserted(rows, rows', row)
    ensures k <= |Admitted(Eq, rows, row.key)|
    ensures Admitted(Eq, rows', row.key) == Splice(Admitted(Eq, rows, row.key), k, [row], k)
  {
    var at: nat :| at <= |rows| && rows' == Splice(rows, at, [row], at);
    var v := row.key;
    assert rows == rows[..at] + rows[at..];
    AdmittedConcat(Eq, rows[..at], rows[at..], v);
    AdmittedConcat(Eq, rows[..at] + [row], rows[at..], v);
    AdmittedConcat(Eq, rows[..at], [row], v);
    AdmittedOne(row, v);
    hide Admitted;
    k := |Admitted(Eq, rows[..at], v)|;
    var a, b := Admitted(Eq, rows[..at], v), Admitted(Eq, rows[at..], v);
    assert (a + b)[..k] == a && (a + b)[k..] == b;
  }

  /** Other keys are not affected. */
  lemma OthersStay(rows: seq<Row>, rows': seq<Row>, row: Row, v: Key)
    requires Inserted(rows, rows', row) && v != row.key
    ensures Admitted(Eq, rows', v) == Admitted(Eq, rows, v)
  {
    var at: nat :| at <= |rows| && rows' == Splice(rows, at, [row], at);
    assert rows == rows[..at] + rows[at..];
    AdmittedConcat(Eq, rows[..at], rows[at..], v);
    AdmittedConcat(Eq, rows[..at] + [row], rows[at..], v);
    AdmittedConcat(Eq, rows[..at], [row], v);
    AdmittedOne(row, v);
    hide Admitted;
  }

  lemma AdmittedOne(row: Row, v: Key)
    ensures Admitted(Eq, [row], v) == if row.key == v then [row] else []
  {
    assert [row][..0] == [];
  }

  lemma HoldsGrow(heap: map<RowId, Chunk>, lob: Int64, chunks: seq<Bytes>, hits: seq<Row>, k: nat, row: Row,
                  data: Bytes)
    requires Holds(heap, lob, chunks, hits) && k <= |hits| && row.rid !in heap
    ensures Holds(heap[row.rid := Chunk(lob, |chunks|, data)], lob, chunks + [data], Splice(hits, k, [row], k))
  {
    var heap' := heap[row.rid := Chunk(lob, |chunks|, data)];
    var chunks', hits' := chunks + [data], Splice(hits, k, [row], k);
    forall i | 0 <= i < |hits'|
      ensures HoldsChunk(heap', lob, chunks', hits'[i]) && (i != k ==> heap'[hits'[i].rid].no < |chunks|)
    {
      if i != k {
        var j := if i < k then i else i - 1;
        assert hits'[i] == hits[j] && HoldsChunk(heap, lob, chunks, hits[j]);
      }
    }
    forall i, j | 0 <= i < j < |hits'| ensures heap'[hits'[i].rid].no != heap'[hits'[j].rid].no {
      if i != k && j != k {
        var a, b := if i < k then i else i - 1, if j < k then j else j - 1;
        assert hits'[i] == hits[a] && hits'[j] == hits[b] && a < b;
        assert HoldsChunk(heap, lob, chunks, hits[a]) && HoldsChunk(heap, lob, chunks, hits[b]);
      }
    }
  }

  // ── putting chunks in order ────────────────────────────────────────────────

  lemma {:induction false} Pigeonhole(s: seq<nat>, m: nat)
    requires |s| == m && (forall i :: 0 <= i < m ==> s[i] < m) && (forall i, j :: 0 <= i < j < m ==> s[i] < s[j])
    ensures forall i :: 0 <= i < m ==> s[i] == i
  {
    forall i | 0 <= i < m ensures s[i] >= i { AtLeast(s, i); }
    forall i | 0 <= i < m ensures s[i] <= i { AtMostIndex(s, m, i); }
  }

  lemma {:induction false} AtLeast(s: seq<nat>, i: nat)
    requires i < |s| && (forall i, j :: 0 <= i < j < |s| ==> s[i] < s[j])
    ensures s[i] >= i
  {
    if i > 0 { AtLeast(s, i - 1); }
  }

  lemma {:induction false} AtMostIndex(s: seq<nat>, m: nat, i: nat)
    requires |s| == m && i < m && (forall i :: 0 <= i < m ==> s[i] < m)
    requires forall i, j :: 0 <= i < j < m ==> s[i] < s[j]
    ensures s[i] <= i
    decreases m - i
  {
    if i + 1 < m { AtMostIndex(s, m, i + 1); }
  }

  /** A chunk number and where that chunk is. */
  datatype Numbered = Numbered(no: nat, rid: RowId)

  predicate ByNumber(x: Numbered, y: Numbered) {
    x.no < y.no
  }

  ghost predicate NumbersOf(heap: map<RowId, Chunk>, hits: seq<Row>, xs: seq<Numbered>) {
    && |xs| == |hits|
    && forall i :: 0 <= i < |hits| ==> hits[i].rid in heap && xs[i] == Numbered(heap[hits[i].rid].no, hits[i].rid)
  }

  /** What each numbered chunk says about the object. */
  ghost predicate Numbering(heap: map<RowId, Chunk>, lob: Int64, chunks: seq<Bytes>, x: Numbered) {
    x.rid in heap && heap[x.rid].no == x.no < |chunks| && heap[x.rid].data == chunks[x.no]
  }

  lemma Distinct(xs: seq<Numbered>, ys: seq<Numbered>, i: nat, j: nat)
    requires multiset(xs) == multiset(ys) && (forall a, b :: 0 <= a < b < |xs| ==> xs[a].no != xs[b].no)
    requires i < j < |ys|
    ensures ys[i].no != ys[j].no
  {
    if ys[i] == ys[j] {
      Twice(ys, i, j);
      OnceOnly(xs, ys[i]);
    } else {
      assert ys[i] in multiset(ys) && ys[j] in multiset(ys);
      assert ys[i] in xs && ys[j] in xs;
      var a :| 0 <= a < |xs| && xs[a] == ys[i];
      var b :| 0 <= b < |xs| && xs[b] == ys[j];
      assert a != b;
    }
  }

  lemma {:induction false} OnceOnly(xs: seq<Numbered>, x: Numbered)
    requires forall a, b :: 0 <= a < b < |xs| ==> xs[a].no != xs[b].no
    ensures multiset(xs)[x] <= 1
  {
    if xs != [] {
      var k := |xs| - 1;
      OnceOnly(xs[..k], x);
      assert xs == xs[..k] + [xs[k]];
      assert forall a :: 0 <= a < k ==> xs[..k][a] == xs[a];
      assert xs[k] !in xs[..k];
    }
  }

  lemma NumberingOf(heap: map<RowId, Chunk>, lob: Int64, chunks: seq<Bytes>, hits: seq<Row>, xs: seq<Numbered>,
                    ys: seq<Numbered>)
    requires Holds(heap, lob, chunks, hits) && NumbersOf(heap, hits, xs) && multiset(xs) == multiset(ys)
    ensures forall y :: y in ys ==> Numbering(heap, lob, chunks, y)
    ensures forall a, b :: 0 <= a < b < |xs| ==> xs[a].no != xs[b].no
  {
    forall y | y in ys ensures Numbering(heap, lob, chunks, y) {
      assert y in multiset(ys);
      assert y in xs;
      var i :| 0 <= i < |xs| && xs[i] == y;
      assert HoldsChunk(heap, lob, chunks, hits[i]);
    }
  }

  /** Sorted by number, the `i`-th entry is chunk `i`. */
  lemma SortedIsOrder(heap: map<RowId, Chunk>, lob: Int64, chunks: seq<Bytes>, hits: seq<Row>, xs: seq<Numbered>)
    requires Holds(heap, lob, chunks, hits) && NumbersOf(heap, hits, xs)
    ensures var ys := SortBy(xs, ByNumber);
            |ys| == |chunks| && forall i :: 0 <= i < |ys| ==> Numbering(heap, lob, chunks, ys[i]) && ys[i].no == i
  {
    var ys := SortBy(xs, ByNumber);
    SortByOrder(xs, ByNumber);
    NumberingOf(heap, lob, chunks, hits, xs, ys);
    hide NumbersOf;
    hide HoldsChunk;
    forall i, j | 0 <= i < j < |ys| ensures ys[i].no < ys[j].no {
      Distinct(xs, ys, i, j);
      assert Numbering(heap, lob, chunks, ys[i]) && Numbering(heap, lob, chunks, ys[j]);
      assert !ByNumber(ys[j], ys[i]);
    }
    var nos: seq<nat> := seq(|ys|, i requires 0 <= i < |ys| => ys[i].no);
    forall i | 0 <= i < |ys| ensures nos[i] < |ys| {
      assert ys[i] in ys;
    }
    assert |multiset(ys)| == |multiset(xs)|;
    Pigeonhole(nos, |ys|);
    forall i | 0 <= i < |ys| ensures Numbering(heap, lob, chunks, ys[i]) && ys[i].no == i {
      assert nos[i] == i;
    }
  }

  // ── the store ──────────────────────────────────────────────────────────────

  class LobStore {
    const index: DiskBTree
    const heap: Heap

    constructor (index: DiskBTree, heap: Heap)
      ensures this.index == index && this.heap == heap
    {
      this.index, this.heap := index, heap;
    }

    /** Store one chunk and index it. */
    method AddChunk(lob: Int64, data: Bytes, no: nat, ghost chunks: seq<Bytes>) returns (ok: bool)
      requires index.Valid() && heap.Valid() && index.kind == IntKind && no == |chunks|
      requires Holds(heap.rows, lob, chunks, ChunkRows(index.Contents(), lob))
      modifies index, heap
      ensures ok ==> index.Valid() && heap.Valid()
      ensures ok ==> Holds(heap.rows, lob, chunks + [data], ChunkRows(index.Contents(), lob))
      ensures ok ==> SameObjects(old(index.Contents()), index.Contents(), lob)
      ensures Keeps(old(heap.rows), heap.rows)
      ensures old(heap.next) <= heap.next && (old(heap.next) >= ROW_IDS ==> !ok)
      ensures !ok && old(heap.next) < ROW_IDS ==>
                index.next >= NO_PAGE as int
                || exists rid :: Burst(IntKind, index.cap, index.next, PairSet(old(index.Contents())),
                                       PairSet(old(index.Contents())), multiset{Entry(IntKey(lob), rid)})
      ensures Sturdy(index.cap, old(index.pages), old(index.g)) ==>
                Sturdy(index.cap, index.pages, index.g)
                && (ok || old(heap.next) >= ROW_IDS || index.next >= NO_PAGE as int)
    {
      hide *;
      ghost var rows, was := index.Contents(), heap.rows;
      SturdyIs(index.cap, index.pages, index.g);
      var rid;
      ok, rid := heap.Insert(Chunk(lob, no, data));
      InsertKeeps(was, rid, Chunk(lob, no, data), lob);
      if !ok { return; }
      var end; ghost var full;
      end, full := index.Insert(IntKey(lob), rid, []);
      SturdyIs(index.cap, index.pages, index.g);
      ok := end.Finished?;
      if !ok { return; }
      NotIndexed(was, lob, chunks, rows, rid);
      ChunkAdded(was, lob, chunks, rows, index.Contents(), rid, data);
    }

    /** `write_stream` of a fresh object id. */
    method WriteStream(lob: Int64, src: Source) returns (ok: bool, total: nat, ghost chunks: seq<Bytes>)
      requires index.Valid() && heap.Valid() && index.kind == IntKind && ChunkRows(index.Contents(), lob) == []
      modifies index, heap, src
      ensures ok ==> index.Valid() && heap.Valid() && total == |old(src.rest)|
      ensures ok ==> WellCut(chunks) && Joined(chunks) == old(src.rest)
      ensures ok ==> Holds(heap.rows, lob, chunks, ChunkRows(index.Contents(), lob))
      ensures ok ==> SameObjects(old(index.Contents()), index.Contents(), lob)
      ensures Keeps(old(heap.rows), heap.rows)
      ensures Sturdy(index.cap, old(index.pages), old(index.g)) ==>
                ok || heap.next >= ROW_IDS || index.next >= NO_PAGE as int
    {
      hide *;
      StreamStart(index.Contents(), lob, heap.rows);
      chunks, total, ok := [], 0, true;
      var no := 0;
      ghost var rows0, heap0, data0 := index.Contents(), heap.rows, src.rest;
      while true
        invariant ok && index.Valid() && heap.Valid() && no == |chunks|
        invariant Holds(heap.rows, lob, chunks, ChunkRows(index.Contents(), lob))
        invariant Joined(chunks) + src.rest == data0 && total == |Joined(chunks)| && FullChunks(chunks)
        invariant SameObjects(rows0, index.Contents(), lob) && Keeps(heap0, heap.rows)
        invariant Sturdy(index.cap, old(index.pages), old(index.g)) ==> Sturdy(index.cap, index.pages, index.g)
        decreases |src.rest|
      {
        var data := Fill(src);
        ghost var rows1, heap1 := index.Contents(), heap.rows;
        if data == [] {
          FullIsWellCut(chunks, []);
          return;
        }
        ok := AddChunk(lob, data, no, chunks);
        Chain(rows0, rows1, index.Contents(), lob, heap0, heap1, heap.rows);
        if !ok { return; }
        JoinedAppend(chunks, data);
        FullIsWellCut(chunks, data);
        assert Joined(chunks) + (data + src.rest) == (Joined(chunks) + data) + src.rest;
        chunks, no, total := chunks + [data], no + 1, total + |data|;
        if |data| < CHUNK_SIZE { return; }
      }
    }

    /** `read_stream`: sort the chunk rows by number, then copy them out. */
    method ReadStream(lob: Int64, ghost chunks: seq<Bytes>) returns (out: Bytes)
      requires index.Valid() && Holds(heap.rows, lob, chunks, ChunkRows(index.Contents(), lob))
      ensures out == Joined(chunks)
    {
      hide *;
      var hits := index.Search(Eq, IntKey(lob));
      ReadStart(heap.rows, index.Contents(), lob);
      assert hits[..0] == [] && chunks[..0] == [];
      var xs: seq<Numbered> := [];
      var i := 0;
      while i < |hits|
        invariant i <= |hits| && NumbersOf(heap.rows, hits[..i], xs)
      {
        NumbersGrow(heap.rows, lob, chunks, hits, i, xs);
        xs := xs + [Numbered(heap.rows[hits[i].rid].no, hits[i].rid)];
        i := i + 1;
      }
      assert hits[..i] == hits;
      var ys := SortBy(xs, ByNumber);
      SortedIsOrder(heap.rows, lob, chunks, hits, xs);
      out := [];
      i := 0;
      while i < |ys|
        invariant i <= |ys| && out == Joined(chunks[..i])
      {
        TakeChunk(heap.rows, lob, chunks, ys, i);
        out := out + heap.rows[ys[i].rid].data;
        i := i + 1;
      }
      assert chunks[..i] == chunks;
    }
  }

  /** An index as it is made: on pages of at least the smallest size, without payloads. */
  ghost predicate Sturdy(cap: nat, pages: Pages, g: Shape) {
    Narrow(IntKind, cap) && Bare(pages, g)
  }

  lemma SturdyIs(cap: nat, pages: Pages, g: Shape)
    ensures Sturdy(cap, pages, g) <==> Narrow(IntKind, cap) && Bare(pages, g)
  {
    hide Bare;
    hide Narrow;
  }

  /** What a lookup of the object's id in the index gives. */
  ghost function ChunkRows(rows: seq<Row>, lob: Int64): seq<Row> {
    Admitted(Eq, rows, IntKey(lob))
  }

  /** Lookups of every other object are unchanged. */
  ghost predicate SameObjects(rows: seq<Row>, rows': seq<Row>, lob: Int64) {
    forall other :: other != lob ==> ChunkRows(rows', other) == ChunkRows(rows, other)
  }

  ghost predicate Keeps(heap: map<RowId, Chunk>, heap': map<RowId, Chunk>) {
    forall r :: r in heap ==> r in heap' && heap'[r] == heap[r]
  }

  ghost predicate FullChunks(chunks: seq<Bytes>) {
    forall i :: 0 <= i < |chunks| ==> |chunks[i]| == CHUNK_SIZE
  }

  lemma FullIsWellCut(chunks: seq<Bytes>, data: Bytes)
    requires FullChunks(chunks) && |data| <= CHUNK_SIZE
    ensures data != [] ==> WellCut(chunks + [data])
    ensures WellCut(chunks) && 0 < CHUNK_SIZE
    ensures |data| == CHUNK_SIZE ==> FullChunks(chunks + [data])
  {
  }

  lemma InsertKeeps(heap: map<RowId, Chunk>, rid: RowId, c: Chunk, lob: Int64)
    ensures Keeps(heap, heap) && (rid !in heap ==> Keeps(heap, heap[rid := c]))
    ensures KindOf(IntKey(lob)) == IntKind
  {
  }

  lemma StreamStart(rows: seq<Row>, lob: Int64, heap: map<RowId, Chunk>)
    ensures SameObjects(rows, rows, lob) && Keeps(heap, heap)
    ensures Holds(heap, lob, [], []) && FullChunks([]) && Joined<byte>([]) == []
  {
  }

  lemma Chain(rows: seq<Row>, rows': seq<Row>, rows'': seq<Row>, lob: Int64, heap: map<RowId, Chunk>,
              heap': map<RowId, Chunk>, heap'': map<RowId, Chunk>)
    requires SameObjects(rows, rows', lob) && Keeps(heap, heap') && Keeps(heap', heap'')
    ensures Keeps(heap, heap'') && (SameObjects(rows', rows'', lob) ==> SameObjects(rows, rows'', lob))
  {
    hide ChunkRows;
  }

  lemma ChunkAdded(heap: map<RowId, Chunk>, lob: Int64, chunks: seq<Bytes>, rows: seq<Row>, rows': seq<Row>, rid: RowId,
                   data: Bytes)
    requires Holds(heap, lob, chunks, ChunkRows(rows, lob)) && rid !in heap
    requires Inserted(rows, rows', Row(IntKey(lob), rid, []))
    ensures Holds(heap[rid := Chunk(lob, |chunks|, data)], lob, chunks + [data], ChunkRows(rows', lob))
    ensures SameObjects(rows, rows', lob)
  {
    hide Inserted;
    hide Holds;
    hide Admitted;
    var row := Row(IntKey(lob), rid, []);
    var k := HitsGrow(rows, rows', row);
    HoldsGrow(heap, lob, chunks, ChunkRows(rows, lob), k, row, data);
    forall other | other != lob ensures ChunkRows(rows', other) == ChunkRows(rows, other) {
      OthersStay(rows, rows', row, IntKey(other));
    }
  }

  lemma ReadStart(heap: map<RowId, Chunk>, rows: seq<Row>, lob: Int64)
    ensures ChunkRows(rows, lob) == Admitted(Eq, rows, IntKey(lob))
    ensures NumbersOf(heap, [], []) && Joined<byte>([]) == []
  {
  }

  lemma NumbersGrow(heap: map<RowId, Chunk>, lob: Int64, chunks: seq<Bytes>, hits: seq<Row>, i: nat, xs: seq<Numbered>)
    requires Holds(heap, lob, chunks, hits) && i < |hits| && NumbersOf(heap, hits[..i], xs)
    ensures hits[i].rid in heap
    ensures NumbersOf(heap, hits[..i + 1], xs + [Numbered(heap[hits[i].rid].no, hits[i].rid)])
  {
    assert HoldsChunk(heap, lob, chunks, hits[i]);
  }

  lemma TakeChunk(heap: map<RowId, Chunk>, lob: Int64, chunks: seq<Bytes>, ys: seq<Numbered>, i: nat)
    requires i < |ys| == |chunks|
    requires forall i :: 0 <= i < |ys| ==> Numbering(heap, lob, chunks, ys[i]) && ys[i].no == i
    ensures ys[i].rid in heap && Joined(chunks[..i + 1]) == Joined(chunks[..i]) + heap[ys[i].rid].data
  {
    assert Numbering(heap, lob, chunks, ys[i]);
    JoinedAppend(chunks[..i], chunks[i]);
    assert chunks[..i + 1] == chunks[..i] + [chunks[i]];
  }

  /** A row id that is not in the heap is not indexed for the object either. */
  lemma NotIndexed(heap: map<RowId, Chunk>, lob: Int64, chunks: seq<Bytes>, rows: seq<Row>, rid: RowId)
    requires Holds(heap, lob, chunks, ChunkRows(rows, lob)) && rid !in heap
    ensures !HasPair(rows, IntKey(lob), rid)
  {
    var hits := Admitted(Eq, rows, IntKey(lob));
    forall i | 0 <= i < |rows| && rows[i].key == IntKey(lob) ensures rows[i].rid in heap {
      AdmittedIn(Eq, rows, IntKey(lob), rows[i]);
      var j :| 0 <= j < |hits| && hits[j] == rows[i];
      assert HoldsChunk(heap, lob, chunks, hits[j]);
    }
  }

  /** Writing another object leaves this one readable. */
  lemma StillHolds(heap: map<RowId, Chunk>, heap': map<RowId, Chunk>, rows: seq<Row>, rows': seq<Row>, lob: Int64,
                   other: Int64, chunks: seq<Bytes>)
    requires Holds(heap, lob, chunks, ChunkRows(rows, lob)) && Keeps(heap, heap') && SameObjects(rows, rows', other)
    requires lob != other
    ensures Holds(heap', lob, chunks, ChunkRows(rows', lob))
  {
    var hits := ChunkRows(rows, lob);
    assert ChunkRows(rows', lob) == hits;
    hide ChunkRows;
    forall i | 0 <= i < |hits|
      ensures HoldsChunk(heap', lob, chunks, hits[i]) && heap'[hits[i].rid] == heap[hits[i].rid]
    {
      assert HoldsChunk(heap, lob, chunks, hits[i]);
    }
  }
}
