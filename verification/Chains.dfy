/**
  The catalog blob in a chain of pages: chunks of the blob behind a magic number and the
  id of the next page, and one pointer in the control file that names the first page.
 */
module Chains {
  import opened Keys
  import opened Codec

  const CHAIN_MAGIC := 0xC0DA_7A10
  const CHAIN_HEADER := 8
  /** Page header, one slot, and the tuple header around the payload. */
  const SLOT_OVERHEAD := 56

  type Store = map<PageId, Bytes>

  // ── chunks ─────────────────────────────────────────────────────────────────

  function ChunkSize(pageSize: nat): nat {
    if pageSize <= SLOT_OVERHEAD + CHAIN_HEADER then 0 else pageSize - SLOT_OVERHEAD - CHAIN_HEADER
  }

  function Joined<T>(chunks: seq<seq<T>>): seq<T> {
    if chunks == [] then [] else Joined(chunks[..|chunks| - 1]) + chunks[|chunks| - 1]
  }

  lemma JoinedAppend<T>(chunks: seq<seq<T>>, c: seq<T>)
    ensures Joined(chunks + [c]) == Joined(chunks) + c
  {
    assert (chunks + [c])[..|chunks|] == chunks;
  }

  /** Cut a non-empty blob into pieces of at most `size` bytes; one piece if `size` is 0. */
  method Cut(blob: Bytes, size: nat) returns (chunks: seq<Bytes>)
    requires blob != []
    ensures chunks != [] && Joined(chunks) == blob
    ensures size > 0 ==> forall i :: 0 <= i < |chunks| ==> 0 < |chunks[i]| <= size
    ensures size == 0 ==> chunks == [blob]
    ensures size > 0 ==> |chunks| == PagesFor(|blob|, size)
  {
    if size == 0 {
      assert Joined([blob]) == Joined([]) + blob;
      return [blob];
    }
    chunks := [];
    var at := 0;
    TimesNext(size, 0);
    while at < |blob|
      invariant at <= |blob| && Joined(chunks) == blob[..at] && (at > 0 ==> chunks != [])
      invariant at < |blob| ==> at == Times(size, |chunks|)
      invariant at == |blob| ==> Times(size, |chunks| - 1) < |blob| <= Times(size, |chunks|)
      invariant forall i :: 0 <= i < |chunks| ==> 0 < |chunks[i]| <= size
    {
      var end := if at + size <= |blob| then at + size else |blob|;
      TimesNext(size, |chunks|);
      JoinedAppend(chunks, blob[at..end]);
      assert blob[..end] == blob[..at] + blob[at..end];
      chunks := chunks + [blob[at..end]];
      at := end;
    }
    assert blob[..at] == blob;
    CeilingIs(|blob|, size, |chunks|);
  }

  /** How many pages `n` bytes take at `size` bytes a page: `n / size`, rounded up. */
  function PagesFor(n: nat, size: nat): nat
    requires size > 0
  {
    (n + size - 1) / size
  }

  function Times(a: int, b: int): int {
    a * b
  }

  lemma TimesNext(a: int, b: int)
    ensures Times(a, b + 1) == Times(a, b) + a && Times(a, 0) == 0
  {
  }

  lemma CeilingIs(n: nat, size: nat, k: nat)
    requires size > 0 && Times(size, k - 1) < n <= Times(size, k)
    ensures k == PagesFor(n, size)
  {
    TimesNext(size, k - 1);
    TimesNext(size, k);
    QuotientIs(n + size - 1, size, k);
  }

  lemma QuotientIs(a: nat, b: nat, q: nat)
    requires b > 0 && Times(b, q) <= a < Times(b, q + 1)
    ensures a / b == q
  {
    hide Times;
    QuotientBounds(a, b);
    if a / b < q { TimesMono(b, a / b + 1, q); }
    if q < a / b { TimesMono(b, q + 1, a / b); }
  }

  lemma QuotientBounds(a: nat, b: nat)
    requires b > 0
    ensures Times(b, a / b) <= a < Times(b, a / b + 1)
  {
  }

  lemma TimesMono(a: nat, b: int, c: int)
    requires b <= c
    ensures Times(a, b) <= Times(a, c)
  {
  }

  // ── chain pages ────────────────────────────────────────────────────────────

  function Payload(next: PageId, chunk: Bytes): Bytes {
    Word(CHAIN_MAGIC, 4) + Word(next, 4) + chunk
  }

  /** A page that is there, long enough, and starts with the magic number. */
  predicate Good(pages: Store, p: PageId) {
    p in pages && |pages[p]| >= CHAIN_HEADER && FromWord(pages[p][..4]) == CHAIN_MAGIC
  }

  function NextOf(pages: Store, p: PageId): (q: PageId)
    requires Good(pages, p)
  {
    Widths();
    FromWord(pages[p][4..8])
  }

  function ChunkOf(pages: Store, p: PageId): Bytes
    requires Good(pages, p)
  {
    pages[p][CHAIN_HEADER..]
  }

  lemma PayloadParts(pages: Store, p: PageId, next: PageId, chunk: Bytes)
    requires p in pages && pages[p] == Payload(next, chunk)
    ensures Good(pages, p) && NextOf(pages, p) == next && ChunkOf(pages, p) == chunk
  {
    Widths();
    WordRound(CHAIN_MAGIC, 4);
    WordRound(next, 4);
    hide Word;
    hide FromWord;
    hide Base;
    assert pages[p][..4] == Word(CHAIN_MAGIC, 4);
    assert pages[p][4..8] == Word(next, 4);
  }

  predicate Follows(pages: Store, p: PageId, q: PageId) {
    Good(pages, p) && NextOf(pages, p) == q && q != NO_PAGE
  }

  /** Following the next pointers from `first` visits `ids` and stops at a bad page or at the end. */
  predicate Walk(pages: Store, first: PageId, ids: seq<PageId>) {
    && ids != [] && ids[0] == first
    && (forall i :: 0 <= i < |ids| - 1 ==> Follows(pages, ids[i], ids[i + 1]))
    && (Good(pages, ids[|ids| - 1]) ==> NextOf(pages, ids[|ids| - 1]) == NO_PAGE)
  }

  function Chunks(pages: Store, ids: seq<PageId>): seq<Bytes>
    requires forall i :: 0 <= i < |ids| ==> Good(pages, ids[i])
  {
    seq(|ids|, i requires 0 <= i < |ids| => ChunkOf(pages, ids[i]))
  }

  /** The blob along a walk, or nothing if it meets a bad page. */
  function Collected(pages: Store, ids: seq<PageId>): Option<Bytes> {
    if forall i :: 0 <= i < |ids| ==> Good(pages, ids[i]) then Some(Joined(Chunks(pages, ids))) else None
  }

  lemma NextChunk(pages: Store, ids: seq<PageId>, i: nat)
    requires i < |ids| && forall j :: 0 <= j <= i ==> Good(pages, ids[j])
    ensures Joined(Chunks(pages, ids[..i + 1])) == Joined(Chunks(pages, ids[..i])) + ChunkOf(pages, ids[i])
  {
    hide Good;
    hide ChunkOf;
    JoinedAppend(Chunks(pages, ids[..i]), ChunkOf(pages, ids[i]));
    assert Chunks(pages, ids[..i + 1]) == Chunks(pages, ids[..i]) + [ChunkOf(pages, ids[i])];
  }

  /** `collect_chain`. */
  method Collect(pages: Store, first: PageId, ghost ids: seq<PageId>) returns (r: Option<Bytes>)
    requires Walk(pages, first, ids)
    ensures r == Collected(pages, ids)
  {
    forall i | 0 <= i < |ids| - 1 ensures Good(pages, ids[i]) {
      assert Follows(pages, ids[i], ids[i + 1]);
    }
    hide Good;
    hide NextOf;
    hide ChunkOf;
    var blob: Bytes := [];
    var p := first;
    ghost var i := 0;
    assert Chunks(pages, ids[..0]) == [];
    while true
      invariant i < |ids| && p == ids[i] && forall j :: 0 <= j < i ==> Good(pages, ids[j])
      invariant blob == Joined(Chunks(pages, ids[..i]))
      decreases |ids| - i
    {
      if !Good(pages, p) { return None; }
      assert i + 1 < |ids| ==> Follows(pages, ids[i], ids[i + 1]);
      NextChunk(pages, ids, i);
      blob := blob + ChunkOf(pages, p);
      if NextOf(pages, p) == NO_PAGE {
        assert ids[..i + 1] == ids;
        return Some(blob);
      }
      p := NextOf(pages, p);
      i := i + 1;
    }
  }

  // ── the chain a blob is written to ─────────────────────────────────────────

  /** Page `i` of the chain that holds `chunks` on pages `first`, `first + 1`, ... */
  function ChainPage(first: nat, chunks: seq<Bytes>, i: nat): Bytes
    requires i < |chunks| && first + |chunks| <= NO_PAGE as int
  {
    Payload(if i + 1 < |chunks| then (first + i + 1) as PageId else NO_PAGE, chunks[i])
  }

  function ChainIds(first: nat, n: nat): seq<PageId>
    requires first + n <= NO_PAGE as int
  {
    seq(n, i requires 0 <= i < n => (first + i) as PageId)
  }

  predicate InPlace(pages: Store, first: nat, chunks: seq<Bytes>, i: nat) {
    && i < |chunks| && first + |chunks| <= NO_PAGE as int
    && (first + i) as PageId in pages && pages[(first + i) as PageId] == ChainPage(first, chunks, i)
  }

  /** Page `i` reads as link `i` of a chain. */
  predicate ReadsAs(pages: Store, ids: seq<PageId>, chunks: seq<Bytes>, i: nat) {
    && i < |ids| == |chunks| && Good(pages, ids[i]) && ChunkOf(pages, ids[i]) == chunks[i]
    && NextOf(pages, ids[i]) == if i + 1 < |chunks| then ids[i + 1] else NO_PAGE
  }

  lemma PageReads(pages: Store, first: nat, chunks: seq<Bytes>, i: nat)
    requires InPlace(pages, first, chunks, i)
    ensures ReadsAs(pages, ChainIds(first, |chunks|), chunks, i)
  {
    hide Good;
    hide NextOf;
    hide ChunkOf;
    hide Payload;
    PayloadParts(pages, (first + i) as PageId, if i + 1 < |chunks| then (first + i + 1) as PageId else NO_PAGE,
                 chunks[i]);
  }

  lemma WalkIntro(pages: Store, ids: seq<PageId>, chunks: seq<Bytes>)
    requires ids != [] && |ids| == |chunks|
    requires forall i :: 0 <= i < |ids| ==> ReadsAs(pages, ids, chunks, i) && ids[i] != NO_PAGE
    ensures Walk(pages, ids[0], ids) && Collected(pages, ids) == Some(Joined(chunks))
  {
    hide Good;
    hide NextOf;
    hide ChunkOf;
    hide Joined;
    forall i | 0 <= i < |ids| - 1 ensures Follows(pages, ids[i], ids[i + 1]) {
      assert ReadsAs(pages, ids, chunks, i);
    }
    assert ReadsAs(pages, ids, chunks, |ids| - 1);
    assert Chunks(pages, ids) == chunks;
  }

  lemma IdsReal(first: nat, n: nat)
    requires 0 < n && first + n <= NO_PAGE as int
    ensures ChainIds(first, n)[0] == first && forall i :: 0 <= i < n ==> ChainIds(first, n)[i] != NO_PAGE
  {
  }

  /** Where all its pages are in place, the chain reads back as the blob. */
  lemma ChainReads(pages: Store, first: nat, chunks: seq<Bytes>)
    requires chunks != [] && first + |chunks| <= NO_PAGE as int
    requires forall i :: 0 <= i < |chunks| ==> InPlace(pages, first, chunks, i)
    ensures var ids := ChainIds(first, |chunks|);
            Walk(pages, first as PageId, ids) && Collected(pages, ids) == Some(Joined(chunks))
  {
    hide *;
    var ids := ChainIds(first, |chunks|);
    IdsReal(first, |chunks|);
    LengthOfIds(first, |chunks|);
    forall i | 0 <= i < |ids| ensures ReadsAs(pages, ids, chunks, i) && ids[i] != NO_PAGE {
      PageReads(pages, first, chunks, i);
    }
    WalkIntro(pages, ids, chunks);
  }

  lemma LengthOfIds(first: nat, n: nat)
    requires first + n <= NO_PAGE as int
    ensures |ChainIds(first, n)| == n
  {
  }
}
