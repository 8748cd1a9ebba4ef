/**
  An inverted-file vector index: every row is posted under the cell of its nearest
  centroid, and a search ranks the rows of the cells nearest to the query.
 */
module Vectors {
  import opened Keys
  import opened Nodes
  import opened Shapes
  import opened Searches
  import opened Trees
  import opened Walks
  import opened Spelling
  import opened Sorting
  import opened Inserts
  import opened Accounts
  import opened BTree
  import opened Codec
  import opened Chains
  import opened Centroids

  type Distance = (Vector, Vector) -> real

  // ── cells ──────────────────────────────────────────────────────────────────

  /** Cell `c` is the first of the cells whose centroid is nearest to `v`. */
  ghost predicate InCell(dist: Distance, table: seq<Vector>, v: Vector, c: nat) {
    && c < |table|
    && (forall i :: 0 <= i < |table| ==> dist(table[c], v) <= dist(table[i], v))
    && (forall i :: 0 <= i < c ==> dist(table[c], v) < dist(table[i], v))
  }

  /** A vector has at most one cell. */
  lemma OneCell(dist: Distance, table: seq<Vector>, v: Vector, c: nat, d: nat)
    ensures InCell(dist, table, v, c) && InCell(dist, table, v, d) ==> c == d
  {
    if InCell(dist, table, v, c) && InCell(dist, table, v, d) {
      assert dist(table[c], v) <= dist(table[d], v) <= dist(table[c], v);
    }
  }

  /** `nearest_centroid`; an unset best stands for the infinite start value. */
  method NearestCentroid(dist: Distance, table: seq<Vector>, v: Vector) returns (best: nat)
    requires table != []
    ensures InCell(dist, table, v, best)
  {
    best := 0;
    var bestD: Option<real> := None;
    var i := 0;
    while i < |table|
      invariant i <= |table| && (i == 0 <==> bestD.None?) && (i > 0 ==> best < i && bestD == Some(dist(table[best], v)))
      invariant i > 0 ==> forall j :: 0 <= j < i ==> dist(table[best], v) <= dist(table[j], v)
      invariant i > 0 ==> forall j :: 0 <= j < best ==> dist(table[best], v) < dist(table[j], v)
    {
      var d := dist(table[i], v);
      if bestD.None? || d < bestD.value {
        bestD, best := Some(d), i;
      }
      i := i + 1;
    }
  }

  // ── postings ───────────────────────────────────────────────────────────────

  ghost predicate PostedRow(dist: Distance, table: seq<Vector>, stored: map<RowId, Vector>, r: Row) {
    r.rid in stored && r.key.IntKey? && r.key.n >= 0 && InCell(dist, table, stored[r.rid], r.key.n)
  }

  ghost predicate OncePerRid(rows: seq<Row>) {
    forall i, j :: 0 <= i < j < |rows| ==> rows[i].rid != rows[j].rid
  }

  /** The postings hold every stored row once, under its cell, and nothing else. */
  ghost predicate Posted(dist: Distance, table: seq<Vector>, stored: map<RowId, Vector>, rows: seq<Row>) {
    && (forall i :: 0 <= i < |rows| ==> PostedRow(dist, table, stored, rows[i]))
    && OncePerRid(rows)
    && (forall rid :: rid in stored ==> exists i :: 0 <= i < |rows| && rows[i].rid == rid)
  }

  function Rids(rows: seq<Row>): seq<RowId> {
    seq(|rows|, i requires 0 <= i < |rows| => rows[i].rid)
  }

  ghost predicate NoRepeats(rids: seq<RowId>) {
    forall i, j :: 0 <= i < j < |rids| ==> rids[i] != rids[j]
  }

  lemma {:induction false} AdmittedOnce(rows: seq<Row>, v: Key)
    requires OncePerRid(rows)
    ensures OncePerRid(Admitted(Eq, rows, v))
  {
    if rows != [] {
      var k := |rows| - 1;
      AdmittedOnce(rows[..k], v);
      forall r | r in Admitted(Eq, rows[..k], v) ensures r.rid != rows[k].rid {
        AdmittedIn(Eq, rows[..k], v, r);
      }
    }
  }

  /** A lookup of a cell gives the stored rows of that cell, each once. */
  ghost predicate CellRows(dist: Distance, table: seq<Vector>, stored: map<RowId, Vector>, c: nat, rids: seq<RowId>) {
    NoRepeats(rids) && forall rid :: rid in rids <==> rid in stored && InCell(dist, table, stored[rid], c)
  }

  lemma FoundInCell(dist: Distance, table: seq<Vector>, stored: map<RowId, Vector>, rows: seq<Row>, c: Int64, j: nat)
    requires Posted(dist, table, stored, rows) && j < |Admitted(Eq, rows, IntKey(c))|
    ensures PostedRow(dist, table, stored, Admitted(Eq, rows, IntKey(c))[j])
    ensures Admitted(Eq, rows, IntKey(c))[j].key == IntKey(c)
  {
    var hits := Admitted(Eq, rows, IntKey(c));
    AdmittedIn(Eq, rows, IntKey(c), hits[j]);
    hide Admitted;
    hide PostedRow;
    var i :| 0 <= i < |rows| && rows[i] == hits[j];
    assert PostedRow(dist, table, stored, rows[i]);
  }

  lemma CellFound(dist: Distance, table: seq<Vector>, stored: map<RowId, Vector>, rows: seq<Row>, c: nat, rid: RowId)
    returns (j: nat)
    requires Posted(dist, table, stored, rows) && c < 0x8000_0000_0000_0000
    requires rid in stored && InCell(dist, table, stored[rid], c)
    ensures j < |Admitted(Eq, rows, IntKey(c))| && Admitted(Eq, rows, IntKey(c))[j].rid == rid
  {
    hide InCell;
    hide Admitted;
    var hits := Admitted(Eq, rows, IntKey(c));
    var i :| 0 <= i < |rows| && rows[i].rid == rid;
    assert PostedRow(dist, table, stored, rows[i]);
    OneCell(dist, table, stored[rid], c, rows[i].key.n);
    AdmittedIn(Eq, rows, IntKey(c), rows[i]);
    j :| 0 <= j < |hits| && hits[j] == rows[i];
  }

  lemma LookupCell(dist: Distance, table: seq<Vector>, stored: map<RowId, Vector>, rows: seq<Row>, c: nat)
    requires Posted(dist, table, stored, rows) && c < 0x8000_0000_0000_0000
    ensures CellRows(dist, table, stored, c, Rids(Admitted(Eq, rows, IntKey(c))))
  {
    var hits := Admitted(Eq, rows, IntKey(c));
    AdmittedOnce(rows, IntKey(c));
    hide Admitted;
    hide Posted;
    hide InCell;
    forall rid | rid in Rids(hits) ensures rid in stored && InCell(dist, table, stored[rid], c) {
      var j :| 0 <= j < |Rids(hits)| && Rids(hits)[j] == rid;
      FoundInCell(dist, table, stored, rows, c, j);
    }
    forall rid | rid in stored && InCell(dist, table, stored[rid], c) ensures rid in Rids(hits) {
      var j := CellFound(dist, table, stored, rows, c, rid);
      assert Rids(hits)[j] == rid;
    }
  }

  lemma MoreRows(dist: Distance, table: seq<Vector>, stored: map<RowId, Vector>, rows: seq<Row>, k: nat, row: Row,
                 v: Vector)
    requires Posted(dist, table, stored, rows) && row.rid !in stored && k <= |rows|
    requires PostedRow(dist, table, stored[row.rid := v], row)
    ensures var rows' := Splice(rows, k, [row], k);
            forall i :: 0 <= i < |rows'| ==>
              PostedRow(dist, table, stored[row.rid := v], rows'[i]) && (i != k ==> rows'[i].rid != row.rid)
  {
    hide InCell;
    var rows' := Splice(rows, k, [row], k);
    forall i | 0 <= i < |rows'|
      ensures PostedRow(dist, table, stored[row.rid := v], rows'[i]) && (i != k ==> rows'[i].rid != row.rid)
    {
      if i != k {
        var j := if i < k then i else i - 1;
        assert rows'[i] == rows[j] && PostedRow(dist, table, stored, rows[j]);
      }
    }
  }

  lemma MoreOnce(rows: seq<Row>, k: nat, row: Row)
    requires OncePerRid(rows) && k <= |rows|
    requires forall i :: 0 <= i < |Splice(rows, k, [row], k)| && i != k ==> Splice(rows, k, [row], k)[i].rid != row.rid
    ensures OncePerRid(Splice(rows, k, [row], k))
  {
    var rows' := Splice(rows, k, [row], k);
    forall i, j | 0 <= i < j < |rows'| ensures rows'[i].rid != rows'[j].rid {
      if i != k && j != k {
        var a, b := if i < k then i else i - 1, if j < k then j else j - 1;
        assert rows'[i] == rows[a] && rows'[j] == rows[b];
      }
    }
  }

  lemma MoreAll(rows: seq<Row>, k: nat, row: Row, rids: set<RowId>)
    requires k <= |rows| && forall rid :: rid in rids ==> exists i :: 0 <= i < |rows| && rows[i].rid == rid
    ensures var rows' := Splice(rows, k, [row], k);
            forall rid :: rid in rids + {row.rid} ==> exists i :: 0 <= i < |rows'| && rows'[i].rid == rid
  {
    var rows' := Splice(rows, k, [row], k);
    forall rid | rid in rids + {row.rid} ensures exists i :: 0 <= i < |rows'| && rows'[i].rid == rid {
      if rid == row.rid {
        assert rows'[k].rid == rid;
      } else {
        var j :| 0 <= j < |rows| && rows[j].rid == rid;
        assert rows'[if j < k then j else j + 1].rid == rid;
      }
    }
  }

  /** Posting a new row under its cell keeps the postings exact. */
  lemma PostedMore(dist: Distance, table: seq<Vector>, stored: map<RowId, Vector>, rows: seq<Row>, rows': seq<Row>,
                   rid: RowId, v: Vector, c: nat)
    requires Posted(dist, table, stored, rows) && rid !in stored && InCell(dist, table, v, c)
    requires c < 0x8000_0000_0000_0000
    requires Inserted(rows, rows', Row(IntKey(c), rid, []))
    ensures Posted(dist, table, stored[rid := v], rows')
  {
    hide InCell;
    var row := Row(IntKey(c), rid, []);
    var k: nat :| k <= |rows| && rows' == Splice(rows, k, [row], k);
    MoreRows(dist, table, stored, rows, k, row, v);
    MoreOnce(rows, k, row);
    MoreAll(rows, k, row, stored.Keys);
    assert stored[rid := v].Keys == stored.Keys + {row.rid};
    hide PostedRow;
    hide OncePerRid;
    hide Splice;
  }

  /** A row id that is not stored is not posted. */
  lemma NotPosted(dist: Distance, table: seq<Vector>, stored: map<RowId, Vector>, rows: seq<Row>, key: Key, rid: RowId)
    requires Posted(dist, table, stored, rows) && rid !in stored
    ensures !HasPair(rows, key, rid)
  {
    forall i | 0 <= i < |rows| ensures rows[i].rid != rid {
      assert PostedRow(dist, table, stored, rows[i]);
    }
  }

  /** A posting added for a stored row id repeats it; a posting that is there names the row's own cell. */
  lemma PostedTwice(dist: Distance, table: seq<Vector>, stored: map<RowId, Vector>, rows: seq<Row>, rows': seq<Row>,
                    rid: RowId, c: nat)
    requires Posted(dist, table, stored, rows) && rid in stored && c < 0x8000_0000_0000_0000
    ensures Inserted(rows, rows', Row(IntKey(c), rid, [])) ==> !Posted(dist, table, stored, rows') && rows' != rows
    ensures HasPair(rows, IntKey(c), rid) ==> InCell(dist, table, stored[rid], c)
  {
    hide InCell;
    if Inserted(rows, rows', Row(IntKey(c), rid, [])) {
      var k: nat :| k <= |rows| && rows' == Splice(rows, k, [Row(IntKey(c), rid, [])], k);
      var i :| 0 <= i < |rows| && rows[i].rid == rid;
      RepeatedRid(rows, k, Row(IntKey(c), rid, []), i);
    }
    if HasPair(rows, IntKey(c), rid) {
      var i :| 0 <= i < |rows| && rows[i].key == IntKey(c) && rows[i].rid == rid;
      assert PostedRow(dist, table, stored, rows[i]);
    }
  }

  lemma RepeatedRid(rows: seq<Row>, k: nat, row: Row, i: nat)
    requires k <= |rows| && i < |rows| && rows[i].rid == row.rid
    ensures !OncePerRid(Splice(rows, k, [row], k)) && |Splice(rows, k, [row], k)| == |rows| + 1
  {
    var rows' := Splice(rows, k, [row], k);
    if i < k {
      assert rows'[i].rid == rows'[k].rid;
    } else {
      assert rows'[k].rid == rows'[i + 1].rid;
    }
  }

  // ── postings counted ───────────────────────────────────────────────────────

  /** The cell a posting names is one of these. */
  predicate Under(r: Row, cells: set<nat>) {
    r.key.IntKey? && r.key.n >= 0 && r.key.n as int in cells
  }

  /** How often a row id is posted under these cells. */
  function Times(rows: seq<Row>, rid: RowId, cells: set<nat>): nat {
    if rows == [] then 0
    else
      var k := |rows| - 1;
      Times(rows[..k], rid, cells) + if rows[k].rid == rid && Under(rows[k], cells) then 1 else 0
  }

  lemma {:induction false} TimesNone(rows: seq<Row>, rid: RowId)
    ensures Times(rows, rid, {}) == 0
  {
    if rows != [] { TimesNone(rows[..|rows| - 1], rid); }
  }

  lemma {:induction false} TimesMore(rows: seq<Row>, rid: RowId, cells: set<nat>, c: nat)
    requires c !in cells
    ensures Times(rows, rid, cells + {c}) == Times(rows, rid, cells) + Times(rows, rid, {c})
  {
    if rows != [] { TimesMore(rows[..|rows| - 1], rid, cells, c); }
  }

  lemma {:induction false} TimesJoin(a: seq<Row>, b: seq<Row>, rid: RowId, cells: set<nat>)
    ensures Times(a + b, rid, cells) == Times(a, rid, cells) + Times(b, rid, cells)
  {
    if b == [] {
      assert a + b == a;
    } else {
      var k := |b| - 1;
      assert (a + b)[..|a + b| - 1] == a + b[..k];
      TimesJoin(a, b[..k], rid, cells);
    }
  }

  /** A new posting is counted once under its own cell, and changes no other count. */
  lemma TimesInserted(rows: seq<Row>, rows': seq<Row>, row: Row, rid: RowId, cells: set<nat>)
    requires Inserted(rows, rows', row)
    ensures Times(rows', rid, cells) == Times(rows, rid, cells) + if row.rid == rid && Under(row, cells) then 1 else 0
  {
    var k: nat :| k <= |rows| && rows' == Splice(rows, k, [row], k);
    assert rows == rows[..k] + rows[k..];
    assert rows' == rows[..k] + ([row] + rows[k..]);
    TimesJoin(rows[..k], rows[k..], rid, cells);
    TimesJoin(rows[..k], [row] + rows[k..], rid, cells);
    TimesJoin([row], rows[k..], rid, cells);
    assert [row][..0] == [];
    assert Times([row], rid, cells) == if row.rid == rid && Under(row, cells) then 1 else 0;
  }

  /** A lookup of a cell returns a row id as often as it is posted there. */
  lemma {:induction false} LookupTimes(rows: seq<Row>, c: nat, rid: RowId)
    requires c < 0x8000_0000_0000_0000
    ensures multiset(Rids(Admitted(Eq, rows, IntKey(c))))[rid] == Times(rows, rid, {c})
  {
    if rows != [] {
      var k := |rows| - 1;
      LookupTimes(rows[..k], c, rid);
      var hits, last := Admitted(Eq, rows[..k], IntKey(c)), rows[k];
      assert Rids(hits + [last]) == Rids(hits) + [last.rid];
      assert hits + [] == hits;
    }
  }

  lemma {:induction false} TimesAbsent(rows: seq<Row>, rid: RowId, cells: set<nat>)
    requires forall i :: 0 <= i < |rows| ==> rows[i].rid != rid
    ensures Times(rows, rid, cells) == 0
  {
    if rows != [] { TimesAbsent(rows[..|rows| - 1], rid, cells); }
  }

  lemma TimesOne(rows: seq<Row>, i: nat, rid: RowId, cells: set<nat>)
    requires i < |rows| && rows[i].rid == rid && Under(rows[i], cells)
    requires forall j :: 0 <= j < |rows| && j != i ==> rows[j].rid != rid
    ensures Times(rows, rid, cells) == 1
  {
    hide Under;
    var a, b := rows[..i], rows[i + 1..];
    assert rows == a + ([rows[i]] + b);
    TimesJoin(a, [rows[i]] + b, rid, cells);
    TimesJoin([rows[i]], b, rid, cells);
    assert [rows[i]][..0] == [];
    assert Times([rows[i]], rid, cells) == 1;
    TimesAbsent(a, rid, cells);
    TimesAbsent(b, rid, cells);
  }

  /** With exact postings, a stored row is posted once in all. */
  lemma TimesExact(dist: Distance, table: seq<Vector>, stored: map<RowId, Vector>, rows: seq<Row>, rid: RowId,
                   cells: set<nat>)
    requires Posted(dist, table, stored, rows) && rid in stored && forall c :: 0 <= c < |table| ==> c in cells
    ensures Times(rows, rid, cells) == 1
  {
    hide InCell;
    hide Times;
    var i :| 0 <= i < |rows| && rows[i].rid == rid;
    assert PostedRow(dist, table, stored, rows[i]);
    InCellSmall(dist, table, stored[rid], rows[i].key.n);
    forall j | 0 <= j < |rows| && j != i ensures rows[j].rid != rid {
      if j < i { assert rows[j].rid != rows[i].rid; } else { assert rows[i].rid != rows[j].rid; }
    }
    TimesOne(rows, i, rid, cells);
  }

  lemma InCellSmall(dist: Distance, table: seq<Vector>, v: Vector, c: nat)
    requires InCell(dist, table, v, c)
    ensures c < |table|
  {
  }

  function CellSet(cells: seq<nat>, n: nat): set<nat>
    requires n <= |cells|
  {
    set i | 0 <= i < n :: cells[i]
  }

  /** `out` has every row id as often as it is posted under the first `n` of `cells`. */
  ghost predicate Tallied(rows: seq<Row>, cells: seq<nat>, n: nat, out: seq<RowId>) {
    n <= |cells| && forall rid :: multiset(out)[rid] == Times(rows, rid, CellSet(cells, n))
  }

  lemma TalliedNone(rows: seq<Row>, cells: seq<nat>)
    ensures Tallied(rows, cells, 0, [])
  {
    forall rid ensures Times(rows, rid, CellSet(cells, 0)) == 0 {
      assert CellSet(cells, 0) == {};
      TimesNone(rows, rid);
    }
  }

  lemma TallyNext(rows: seq<Row>, cells: seq<nat>, n: nat, out: seq<RowId>, hits: seq<RowId>)
    requires n < |cells| && Tallied(rows, cells, n, out) && cells[n] < 0x8000_0000_0000_0000
    requires hits == Rids(Admitted(Eq, rows, IntKey(cells[n])))
    requires forall i, j :: 0 <= i < j < |cells| ==> cells[i] != cells[j]
    ensures Tallied(rows, cells, n + 1, out + hits)
  {
    assert CellSet(cells, n + 1) == CellSet(cells, n) + {cells[n]};
    forall rid ensures multiset(out + hits)[rid] == Times(rows, rid, CellSet(cells, n + 1)) {
      LookupTimes(rows, cells[n], rid);
      TimesMore(rows, rid, CellSet(cells, n), cells[n]);
    }
  }

  // ── which cells are probed ─────────────────────────────────────────────────

  datatype RankedCell = RankedCell(cell: nat, d: real)

  predicate CloserCell(x: RankedCell, y: RankedCell) {
    x.d < y.d
  }

  function Ranking(dist: Distance, table: seq<Vector>, query: Vector): seq<RankedCell> {
    seq(|table|, i requires 0 <= i < |table| => RankedCell(i, dist(table[i], query)))
  }

  function CellsOf(xs: seq<RankedCell>): seq<nat> {
    seq(|xs|, i requires 0 <= i < |xs| => xs[i].cell)
  }

  ghost predicate Probes(dist: Distance, table: seq<Vector>, query: Vector, cells: seq<nat>) {
    && (forall i :: 0 <= i < |cells| ==> cells[i] < |table|)
    && (forall i, j :: 0 <= i < j < |cells| ==> cells[i] != cells[j])
    && (forall i, c :: 0 <= i < |cells| && 0 <= c < |table| && c !in cells ==>
          dist(table[cells[i]], query) <= dist(table[c], query))
  }

  lemma {:induction false} RankedOnce(dist: Distance, table: seq<Vector>, query: Vector, n: nat, x: RankedCell)
    requires n <= |table|
    ensures multiset(Ranking(dist, table, query)[..n])[x] <= 1
    ensures x in Ranking(dist, table, query)[..n] ==> x.cell < n
  {
    if n > 0 {
      var all := Ranking(dist, table, query);
      RankedOnce(dist, table, query, n - 1, x);
      assert all[..n] == all[..n - 1] + [all[n - 1]];
    }
  }

  ghost predicate HasCell(ys: seq<RankedCell>, n: nat, c: nat) {
    exists i :: n <= i < |ys| && ys[i].cell == c
  }

  /** Every cell once, with its distance, in some order. */
  ghost predicate AllRanked(dist: Distance, table: seq<Vector>, query: Vector, ys: seq<RankedCell>) {
    && |ys| == |table|
    && (forall i :: 0 <= i < |ys| ==> ys[i].cell < |table| && ys[i].d == dist(table[ys[i].cell], query))
    && (forall i, j :: 0 <= i < j < |ys| ==> ys[i].cell != ys[j].cell)
    && (forall c :: 0 <= c < |table| ==> HasCell(ys, 0, c))
  }

  lemma RankedAll(dist: Distance, table: seq<Vector>, query: Vector, ys: seq<RankedCell>)
    requires multiset(ys) == multiset(Ranking(dist, table, query))
    ensures AllRanked(dist, table, query, ys)
  {
    var all := Ranking(dist, table, query);
    assert |multiset(ys)| == |multiset(all)|;
    forall i | 0 <= i < |ys| ensures ys[i].cell < |table| && ys[i].d == dist(table[ys[i].cell], query) {
      assert ys[i] in multiset(ys);
      assert ys[i] in all;
    }
    forall i, j | 0 <= i < j < |ys| ensures ys[i].cell != ys[j].cell {
      assert all[..|table|] == all;
      RankedOnce(dist, table, query, |table|, ys[i]);
      NotTwice(ys, i, j);
    }
    forall c | 0 <= c < |table| ensures HasCell(ys, 0, c) {
      assert all[c] in multiset(all);
      var i :| 0 <= i < |ys| && ys[i] == all[c];
    }
  }

  lemma NotTwice<T>(s: seq<T>, i: nat, j: nat)
    requires i < j < |s| && multiset(s)[s[i]] <= 1
    ensures s[i] != s[j]
  {
    if s[i] == s[j] { Twice(s, i, j); }
  }

  /** Taking the first `n` of the ranking gives `n` different cells, none farther than a cell left out. */
  lemma NearestCells(dist: Distance, table: seq<Vector>, query: Vector, ys: seq<RankedCell>, n: nat)
    requires AllRanked(dist, table, query, ys) && InOrder(ys, CloserCell) && n <= |ys|
    ensures Probes(dist, table, query, CellsOf(ys[..n]))
    ensures n == |ys| ==> forall c :: 0 <= c < |table| ==> c in CellsOf(ys[..n])
  {
    var cells := CellsOf(ys[..n]);
    assert |cells| == n && forall i :: 0 <= i < n ==> cells[i] == ys[i].cell;
    assert forall i :: 0 <= i < n ==> ys[i].cell in cells;
    hide CellsOf;
    hide InOrder;
    forall c | 0 <= c < |table| && c !in cells ensures HasCell(ys, n, c) {
      assert HasCell(ys, 0, c);
      var j :| 0 <= j < |ys| && ys[j].cell == c;
      assert j >= n;
    }
    forall i, c | 0 <= i < n && 0 <= c < |table| && c !in cells
      ensures dist(table[cells[i]], query) <= dist(table[c], query)
    {
      assert HasCell(ys, n, c);
      var j :| n <= j < |ys| && ys[j].cell == c;
      NotCloser(ys, i, j);
    }
  }

  lemma NotCloser(ys: seq<RankedCell>, i: nat, j: nat)
    requires InOrder(ys, CloserCell) && i < j < |ys|
    ensures ys[i].d <= ys[j].d
  {
    assert !CloserCell(ys[j], ys[i]);
  }

  // ── gathering candidates ───────────────────────────────────────────────────

  /** The cell of `v` is one of the first `n` of `cells`. */
  ghost predicate CellAmong(dist: Distance, table: seq<Vector>, v: Vector, cells: seq<nat>, n: nat) {
    exists j :: 0 <= j < n && j < |cells| && InCell(dist, table, v, cells[j])
  }

  /** `rids` are the stored rows whose cell is one of the first `n` of `cells`, each once. */
  ghost predicate Gathered(dist: Distance, table: seq<Vector>, stored: map<RowId, Vector>, cells: seq<nat>, n: nat,
                           rids: seq<RowId>) {
    NoRepeats(rids) && forall rid :: rid in rids <==> rid in stored && CellAmong(dist, table, stored[rid], cells, n)
  }

  lemma GatherNext(dist: Distance, table: seq<Vector>, stored: map<RowId, Vector>, cells: seq<nat>, i: nat,
                   rids: seq<RowId>, more: seq<RowId>)
    requires i < |cells| && Gathered(dist, table, stored, cells, i, rids)
    requires CellRows(dist, table, stored, cells[i], more)
    requires forall i, j :: 0 <= i < j < |cells| ==> cells[i] != cells[j]
    ensures Gathered(dist, table, stored, cells, i + 1, rids + more)
  {
    hide InCell;
    forall rid | rid in rids ensures rid !in more {
      var j :| 0 <= j < i && InCell(dist, table, stored[rid], cells[j]);
      OneCell(dist, table, stored[rid], cells[j], cells[i]);
    }
    forall rid | rid in stored
      ensures CellAmong(dist, table, stored[rid], cells, i + 1)
              <==> CellAmong(dist, table, stored[rid], cells, i) || InCell(dist, table, stored[rid], cells[i])
    {
    }
    hide CellAmong;
    forall a, b | 0 <= a < b < |rids + more| ensures (rids + more)[a] != (rids + more)[b] {
      assert a < |rids| <= b ==> (rids + more)[a] in rids && (rids + more)[b] in more;
    }
  }

  /** Probing every cell leaves no stored row out. */
  lemma GatheredAll(dist: Distance, table: seq<Vector>, stored: map<RowId, Vector>, rows: seq<Row>, cells: seq<nat>,
                    rids: seq<RowId>)
    requires Posted(dist, table, stored, rows) && Gathered(dist, table, stored, cells, |cells|, rids)
    requires forall c :: 0 <= c < |table| ==> c in cells
    ensures forall rid :: rid in rids <==> rid in stored
  {
    forall rid | rid in stored ensures CellAmong(dist, table, stored[rid], cells, |cells|) {
      var i :| 0 <= i < |rows| && rows[i].rid == rid;
      assert PostedRow(dist, table, stored, rows[i]);
      var c: nat := rows[i].key.n;
      assert c in cells;
      var j :| 0 <= j < |cells| && cells[j] == c;
      assert InCell(dist, table, stored[rid], cells[j]);
    }
  }

  // ── scoring ────────────────────────────────────────────────────────────────

  datatype Scored = Scored(rid: RowId, d: real)

  predicate Closer(x: Scored, y: Scored) {
    x.d < y.d
  }

  /** The rows of the pool that can be fetched. */
  function Visible(pool: set<RowId>, fetch: RowId -> Option<Vector>): map<RowId, Vector> {
    map rid | rid in pool && fetch(rid).Some? :: fetch(rid).value
  }

  function RidsOf(xs: seq<Scored>): seq<RowId> {
    seq(|xs|, i requires 0 <= i < |xs| => xs[i].rid)
  }

  /** `xs` scores every row of `rows` once. */
  ghost predicate Scores(dist: Distance, query: Vector, rows: map<RowId, Vector>, xs: seq<Scored>) {
    && (forall i :: 0 <= i < |xs| ==> xs[i].rid in rows && xs[i].d == dist(query, rows[xs[i].rid]))
    && (forall i, j :: 0 <= i < j < |xs| ==> xs[i].rid != xs[j].rid)
    && (forall rid :: rid in rows ==> rid in RidsOf(xs))
  }

  /** The `k` rows nearest to the query, nearest first, with their distances; all of them if there are fewer. */
  ghost predicate KNearest(dist: Distance, query: Vector, rows: map<RowId, Vector>, k: nat, out: seq<Scored>) {
    && |out| == (if k <= |rows| then k else |rows|)
    && (forall i :: 0 <= i < |out| ==> out[i].rid in rows && out[i].d == dist(query, rows[out[i].rid]))
    && (forall i, j :: 0 <= i < j < |out| ==> out[i].rid != out[j].rid && out[i].d <= out[j].d)
    && (forall i, rid :: 0 <= i < |out| && rid in rows && rid !in RidsOf(out) ==> out[i].d <= dist(query, rows[rid]))
  }

  function FirstRids(rids: seq<RowId>, n: nat): set<RowId>
    requires n <= |rids|
  {
    set i | 0 <= i < n :: rids[i]
  }

  lemma {:induction false} CountRids(rids: seq<RowId>, n: nat)
    requires NoRepeats(rids) && n <= |rids|
    ensures |FirstRids(rids, n)| == n
  {
    if n > 0 {
      CountRids(rids, n - 1);
      assert FirstRids(rids, n) == FirstRids(rids, n - 1) + {rids[n - 1]};
    }
  }

  lemma ScoresCount(dist: Distance, query: Vector, rows: map<RowId, Vector>, xs: seq<Scored>)
    requires Scores(dist, query, rows, xs)
    ensures |xs| == |rows|
  {
    var rids := RidsOf(xs);
    CountRids(rids, |rids|);
    assert FirstRids(rids, |rids|) == rows.Keys;
  }

  /** Scoring the next candidate. */
  lemma ScoreNext(dist: Distance, query: Vector, fetch: RowId -> Option<Vector>, rids: seq<RowId>, i: nat,
                  xs: seq<Scored>)
    requires NoRepeats(rids) && i < |rids| && Scores(dist, query, Visible(FirstRids(rids, i), fetch), xs)
    ensures fetch(rids[i]).None? ==> Scores(dist, query, Visible(FirstRids(rids, i + 1), fetch), xs)
    ensures fetch(rids[i]).Some? ==>
              Scores(dist, query, Visible(FirstRids(rids, i + 1), fetch),
                     xs + [Scored(rids[i], dist(query, fetch(rids[i]).value))])
  {
    var old', new' := Visible(FirstRids(rids, i), fetch), Visible(FirstRids(rids, i + 1), fetch);
    assert FirstRids(rids, i + 1) == FirstRids(rids, i) + {rids[i]};
    assert rids[i] !in FirstRids(rids, i);
    if fetch(rids[i]).None? {
      assert new' == old';
    } else {
      assert new' == old'[rids[i] := fetch(rids[i]).value];
      ScoresMore(dist, query, old', xs, rids[i], fetch(rids[i]).value);
    }
  }

  lemma ScoresMore(dist: Distance, query: Vector, rows: map<RowId, Vector>, xs: seq<Scored>, rid: RowId, v: Vector)
    requires Scores(dist, query, rows, xs) && rid !in rows
    ensures Scores(dist, query, rows[rid := v], xs + [Scored(rid, dist(query, v))])
  {
    var xs' := xs + [Scored(rid, dist(query, v))];
    assert RidsOf(xs') == RidsOf(xs) + [rid];
  }

  /** Sorting keeps the scores. */
  lemma ScoresSorted(dist: Distance, query: Vector, rows: map<RowId, Vector>, xs: seq<Scored>, ys: seq<Scored>)
    requires Scores(dist, query, rows, xs) && multiset(xs) == multiset(ys)
    ensures Scores(dist, query, rows, ys)
  {
    forall i | 0 <= i < |ys| ensures ys[i] in xs {
      assert ys[i] in multiset(ys);
    }
    forall i, j | 0 <= i < j < |ys| ensures ys[i].rid != ys[j].rid {
      ScoredOnce(xs, ys[i]);
      NotTwice(ys, i, j);
      var a :| 0 <= a < |xs| && xs[a] == ys[i];
      var b :| 0 <= b < |xs| && xs[b] == ys[j];
    }
    forall rid | rid in rows ensures rid in RidsOf(ys) {
      var i :| 0 <= i < |RidsOf(xs)| && RidsOf(xs)[i] == rid;
      assert xs[i] in multiset(xs);
      var j :| 0 <= j < |ys| && ys[j] == xs[i];
      assert RidsOf(ys)[j] == rid;
    }
  }

  lemma {:induction false} ScoredOnce(xs: seq<Scored>, x: Scored)
    requires forall i, j :: 0 <= i < j < |xs| ==> xs[i].rid != xs[j].rid
    ensures multiset(xs)[x] <= 1
  {
    if xs != [] {
      var k := |xs| - 1;
      ScoredOnce(xs[..k], x);
      assert xs == xs[..k] + [xs[k]];
      assert forall a :: 0 <= a < k ==> xs[..k][a] == xs[a];
      assert xs[k] !in xs[..k];
    }
  }

  lemma LeftOut(ys: seq<Scored>, n: nat, rid: RowId) returns (j: nat)
    requires n <= |ys| && rid in RidsOf(ys) && rid !in RidsOf(ys[..n])
    ensures n <= j < |ys| && ys[j].rid == rid
  {
    j :| 0 <= j < |RidsOf(ys)| && RidsOf(ys)[j] == rid;
    assert forall i :: 0 <= i < n ==> RidsOf(ys[..n])[i] == ys[i].rid;
  }

  /** A prefix of the sorted scores is the nearest rows. */
  lemma TopIsNearest(dist: Distance, query: Vector, rows: map<RowId, Vector>, ys: seq<Scored>, k: nat)
    requires Scores(dist, query, rows, ys) && InOrder(ys, Closer)
    ensures KNearest(dist, query, rows, k, ys[..if k <= |ys| then k else |ys|])
  {
    ScoresCount(dist, query, rows, ys);
    var n := if k <= |ys| then k else |ys|;
    var out := ys[..n];
    forall i, j | 0 <= i < j < |ys| ensures ys[i].d <= ys[j].d {
      assert !Closer(ys[j], ys[i]);
    }
    hide InOrder;
    hide RidsOf;
    forall i, rid | 0 <= i < |out| && rid in rows && rid !in RidsOf(out) ensures out[i].d <= dist(query, rows[rid]) {
      var j := LeftOut(ys, n, rid);
    }
  }

  /** The candidates that can be fetched, with their distances, in the order they came in. */
  function Fetched(dist: Distance, query: Vector, fetch: RowId -> Option<Vector>, rids: seq<RowId>): seq<Scored> {
    if rids == [] then []
    else
      var last := rids[|rids| - 1];
      Fetched(dist, query, fetch, rids[..|rids| - 1])
      + (if fetch(last).Some? then [Scored(last, dist(query, fetch(last).value))] else [])
  }

  lemma FetchedNone(dist: Distance, query: Vector, fetch: RowId -> Option<Vector>)
    ensures Fetched(dist, query, fetch, []) == []
  {
  }

  lemma FetchedNext(dist: Distance, query: Vector, fetch: RowId -> Option<Vector>, rids: seq<RowId>, i: nat)
    requires i < |rids|
    ensures Fetched(dist, query, fetch, rids[..i + 1]) ==
              Fetched(dist, query, fetch, rids[..i])
              + (if fetch(rids[i]).Some? then [Scored(rids[i], dist(query, fetch(rids[i]).value))] else [])
    ensures i == 0 ==> rids[..i] == []
  {
    assert rids[..i + 1][..i] == rids[..i];
  }

  /** The first `k` of the fetched candidates by distance, repetitions included; all of them if there are fewer. */
  ghost predicate TopOf(dist: Distance, query: Vector, fetch: RowId -> Option<Vector>, rids: seq<RowId>, k: nat,
                        out: seq<Scored>) {
    var all := multiset(Fetched(dist, query, fetch, rids));
    && |out| == (if k <= |all| then k else |all|) && multiset(out) <= all
    && (forall i, j :: 0 <= i < j < |out| ==> out[i].d <= out[j].d)
    && (forall i, y :: 0 <= i < |out| && y in all - multiset(out) ==> out[i].d <= y.d)
  }

  /** Cutting a list in order: what is left of the multiset is what comes after. */
  lemma CutInOrder(ys: seq<Scored>, n: nat)
    requires InOrder(ys, Closer) && n <= |ys|
    ensures multiset(ys[..n]) <= multiset(ys)
    ensures forall i, j :: 0 <= i < j < n ==> ys[i].d <= ys[j].d
    ensures forall i, y :: 0 <= i < n && y in multiset(ys) - multiset(ys[..n]) ==> ys[i].d <= y.d
  {
    var rest := ys[n..];
    assert ys == ys[..n] + rest;
    forall i, j | 0 <= i < j < |ys| ensures ys[i].d <= ys[j].d {
      assert !Closer(ys[j], ys[i]);
    }
    forall i, y | 0 <= i < n && y in multiset(ys) - multiset(ys[..n]) ensures ys[i].d <= y.d {
      assert multiset(ys) - multiset(ys[..n]) == multiset(rest);
      assert y in rest;
      var j :| 0 <= j < |rest| && rest[j] == y;
      assert ys[i].d <= ys[n + j].d;
    }
  }

  lemma TopIsFirst(dist: Distance, query: Vector, fetch: RowId -> Option<Vector>, rids: seq<RowId>, ys: seq<Scored>,
                   k: nat)
    requires multiset(ys) == multiset(Fetched(dist, query, fetch, rids)) && InOrder(ys, Closer)
    ensures TopOf(dist, query, fetch, rids, k, ys[..if k <= |ys| then k else |ys|])
  {
    hide Fetched;
    hide InOrder;
    SameCount(ys, Fetched(dist, query, fetch, rids));
    CutInOrder(ys, if k <= |ys| then k else |ys|);
  }

  lemma SameCount(a: seq<Scored>, b: seq<Scored>)
    requires multiset(a) == multiset(b)
    ensures |a| == |b| == |multiset(b)|
  {
    assert |multiset(a)| == |a| && |multiset(b)| == |b|;
  }

  // ── the index ──────────────────────────────────────────────────────────────

  function Clamp(n: nat, hi: nat): (r: nat)
    requires hi >= 1
    ensures 1 <= r <= hi && (1 <= n <= hi ==> r == n)
  {
    if n < 1 then 1 else if n > hi then hi else n
  }

  class DiskIvf {
    const dist: Distance
    const nlist: nat
    const dim: nat
    const nprobe: nat
    const head: PageId
    const pages: Store
    const postings: DiskBTree
    ghost const fpp: nat
    ghost const ids: seq<PageId>
    /** The trained centroids. */
    ghost const table: seq<Vector>
    /** The rows inserted so far. */
    ghost var stored: map<RowId, Vector>

    /** The centroid chain on disk still holds the trained table. */
    ghost predicate TableOnDisk() {
      && ChainHolds(pages, ids, fpp, Joined(table)) && ids != [] && ids[0] == head
      && Rectangular(table, dim) && |table| == nlist && 1 <= nlist < 0x1_0000_0000
    }

    /** The postings are a sound tree of cell numbers, and the table is on disk. */
    ghost predicate Valid()
      reads this, postings
    {
      TableOnDisk() && postings.Valid() && postings.kind == IntKind
    }

    /** They hold every stored row once, under its cell, and nothing else. */
    ghost predicate Exact()
      requires Valid()
      reads this, postings
    {
      Posted(dist, table, stored, postings.Contents())
    }

    /** `create`, for centroids already trained. */
    constructor (dist: Distance, dim: nat, table: seq<Vector>, nprobe: nat, postings: DiskBTree, pages: Store,
                 ids: seq<PageId>, pageSize: nat)
      requires 4096 <= pageSize <= MAX_PAGE && Rectangular(table, dim) && 1 <= |table| < 0x1_0000_0000
      requires |ids| == PageCount(|Joined(table)|, FloatsPerPage(pageSize)) && AllDistinct(ids) && NO_PAGE !in ids
      requires postings.Valid() && postings.kind == IntKind && postings.Contents() == []
      ensures Valid() && Exact() && stored == map[] && this.table == table && this.dist == dist
      ensures this.postings == postings
      ensures this.nprobe == Clamp(nprobe, |table|)
      ensures forall p :: p in pages && p !in ids ==> p in this.pages && this.pages[p] == pages[p]
    {
      hide *;
      var flat := Joined(table);
      var after := LayOut(pages, ids, FloatsPerPage(pageSize), flat);
      this.dist, this.nlist, this.dim, this.nprobe := dist, |table|, dim, Clamp(nprobe, |table|);
      this.head, this.pages, this.postings := ids[0], after, postings;
      this.fpp, this.ids, this.table, this.stored := FloatsPerPage(pageSize), ids, table, map[];
      new;
      PostedNone(dist, table);
      TableWritten(this);
      CloseIndex(this);
    }

    /** Every operation reloads the table from its pages. */
    method Load() returns (cs: seq<Vector>)
      requires TableOnDisk()
      ensures cs == table
    {
      var r := LoadCentroids(pages, head, nlist, dim, ids, fpp, table);
      cs := r.value;
    }

    /**
      `insert`: post the row id under the vector's cell, unless the leaf the search lands on
      has that very posting. Exact postings stay exact for a row id not inserted before; for
      one inserted before they do exactly if the posting was met.
     */
    method Insert(rid: RowId, v: Vector) returns (ok: bool, ghost cell: nat)
      requires Valid()
      modifies this`stored, postings
      ensures InCell(dist, table, v, cell) && cell < 0x1_0000_0000 && (ok ==> Valid())
      ensures !ok ==>
                && stored == old(stored)
                && (postings.next >= NO_PAGE as int
                    || Burst(IntKind, postings.cap, postings.next, PairSet(old(postings.Contents())),
                             PairSet(old(postings.Contents())), multiset{Entry(IntKey(cell), rid)}))
      ensures Narrow(IntKind, postings.cap) && Bare(old(postings.pages), old(postings.g)) ==>
                Bare(postings.pages, postings.g) && (ok || postings.next >= NO_PAGE as int)
      ensures ok ==>
                if HitAt(old(postings.pages),
                         old(LandingInsert(postings.pages, postings.root, postings.Depth(), IntKey(cell))),
                         Entry(IntKey(cell), rid)) then postings.Contents() == old(postings.Contents())
                else Inserted(old(postings.Contents()), postings.Contents(), Row(IntKey(cell), rid, []))
      ensures ok ==> stored == if rid in old(stored) then old(stored) else old(stored)[rid := v]
      ensures ok && old(Exact()) && rid !in old(stored) ==> Exact()
      ensures ok && old(Exact()) && rid in old(stored) ==>
                (Exact() <==> HitAt(old(postings.pages),
                                    old(LandingInsert(postings.pages, postings.root, postings.Depth(), IntKey(cell))),
                                    Entry(IntKey(cell), rid)))
      ensures ok && old(Exact()) && rid in old(stored) && !InCell(dist, table, old(stored)[rid], cell) ==>
                Inserted(old(postings.Contents()), postings.Contents(), Row(IntKey(cell), rid, []))
    {
      hide *;
      OpenIndex(this);
      ghost var rows := postings.Contents();
      var cs := Load();
      var c := NearestCentroid(dist, cs, v);
      cell := c;
      CellFits(dist, cs, v, c);
      var end; ghost var full;
      end, full := postings.Insert(IntKey(c), rid, []);
      ok := end.Finished?;
      if !ok { return; }
      if rid in stored {
        CloseIndex(this);
        if Posted(dist, table, stored, rows) { PostedTwice(dist, table, stored, rows, postings.Contents(), rid, c); }
      } else {
        if Posted(dist, table, stored, rows) {
          NotPosted(dist, table, stored, rows, IntKey(c), rid);
          PostedMore(dist, table, stored, rows, postings.Contents(), rid, v, c);
        }
        stored := stored[rid := v];
        CloseIndex(this);
      }
    }

    /** Rank the cells by distance to the query. */
    method RankCells(cs: seq<Vector>, query: Vector) returns (ys: seq<RankedCell>)
      ensures AllRanked(dist, cs, query, ys) && InOrder(ys, CloserCell)
    {
      var xs: seq<RankedCell> := [];
      var i := 0;
      while i < |cs|
        invariant i <= |cs| && xs == Ranking(dist, cs, query)[..i]
      {
        xs := xs + [RankedCell(i, dist(cs[i], query))];
        i := i + 1;
      }
      assert xs == Ranking(dist, cs, query);
      ys := SortBy(xs, CloserCell);
      hide SortBy;
      SortByOrder(xs, CloserCell);
      RankedAll(dist, cs, query, ys);
    }

    /**
      `candidates`: the rows of the nearest cells, as many cells as asked for, each as often
      as it is posted there; with exact postings, each once.
     */
    method Candidates(query: Vector, probes: Option<nat>) returns (out: seq<RowId>, ghost cells: seq<nat>)
      requires Valid()
      ensures 1 <= nlist == |table| && |cells| == Clamp(if probes.Some? then probes.value else nprobe, nlist)
      ensures Probes(dist, table, query, cells) && Tallied(postings.Contents(), cells, |cells|, out)
      ensures |cells| == nlist ==> forall c :: 0 <= c < nlist ==> c in cells
      ensures Exact() ==> Gathered(dist, table, stored, cells, |cells|, out)
      ensures Exact() && |cells| == nlist ==> forall rid :: rid in out <==> rid in stored
    {
      hide *;
      OpenIndex(this);
      ghost var rows := postings.Contents();
      var cs := Load();
      var n := Clamp(if probes.Some? then probes.value else nprobe, nlist);
      var ys := RankCells(cs, query);
      RankedSize(dist, cs, query, ys);
      NearestCells(dist, table, query, ys, n);
      cells := CellsOf(ys[..n]);
      CellsAre(ys, n);
      ProbesParts(dist, table, query, cells);
      out := [];
      GatheredNone(dist, table, stored, cells);
      TalliedNone(rows, cells);
      var i := 0;
      while i < n
        invariant i <= n && Tallied(rows, cells, i, out)
        invariant Posted(dist, table, stored, rows) ==> Gathered(dist, table, stored, cells, i, out)
      {
        var hits := postings.Search(Eq, IntKey(ys[i].cell));
        TallyNext(rows, cells, i, out, Rids(hits));
        if Posted(dist, table, stored, rows) {
          LookupCell(dist, table, stored, rows, ys[i].cell);
          GatherNext(dist, table, stored, cells, i, out, Rids(hits));
        }
        out := out + Rids(hits);
        i := i + 1;
      }
      ExactIs(this);
      if n == nlist && Posted(dist, table, stored, rows) { GatheredAll(dist, table, stored, rows, cells, out); }
    }

    /**
      `search`: the nearest of the fetchable candidates, a row as often as it is a candidate;
      with exact postings, the nearest rows of the probed cells.
     */
    method Search(query: Vector, k: nat, probes: Option<nat>, fetch: RowId -> Option<Vector>)
      returns (out: seq<Scored>, ghost rids: seq<RowId>, ghost pool: set<RowId>, ghost cells: seq<nat>)
      requires Valid()
      ensures 1 <= nlist == |table| && |cells| == Clamp(if probes.Some? then probes.value else nprobe, nlist)
      ensures Probes(dist, table, query, cells) && Tallied(postings.Contents(), cells, |cells|, rids)
      ensures TopOf(dist, query, fetch, rids, k, out)
      ensures Exact() ==>
                forall rid :: rid in pool <==> rid in stored && CellAmong(dist, table, stored[rid], cells, |cells|)
      ensures Exact() ==> KNearest(dist, query, Visible(pool, fetch), k, out)
      ensures Exact() && |cells| == nlist ==> pool == stored.Keys
    {
      hide *;
      var found;
      found, cells := Candidates(query, probes);
      rids := found;
      if Exact() { GatheredParts(dist, table, stored, cells, rids); }
      var xs: seq<Scored> := [];
      ScoresNone(dist, query, rids, fetch);
      FetchedNone(dist, query, fetch);
      var i := 0;
      while i < |found|
        invariant i <= |found| && xs == Fetched(dist, query, fetch, found[..i])
        invariant Exact() ==> Scores(dist, query, Visible(FirstRids(rids, i), fetch), xs)
      {
        if Exact() { ScoreNext(dist, query, fetch, rids, i, xs); }
        FetchedNext(dist, query, fetch, found, i);
        var v := fetch(found[i]);
        if v.Some? {
          xs := xs + [Scored(found[i], dist(query, v.value))];
        }
        i := i + 1;
      }
      assert found[..i] == found;
      pool := FirstRids(rids, |rids|);
      FirstAll(rids);
      var ys := SortBy(xs, Closer);
      CloserOrder();
      SortByOrder(xs, Closer);
      TopIsFirst(dist, query, fetch, found, ys, k);
      if Exact() {
        ScoresSorted(dist, query, Visible(pool, fetch), xs, ys);
        TopIsNearest(dist, query, Visible(pool, fetch), ys, k);
      }
      out := ys[..if k <= |ys| then k else |ys|];
    }

    /** With every cell probed and every row fetched as stored, the result is the true nearest rows. */
    method SearchAll(query: Vector, k: nat, n: nat, fetch: RowId -> Option<Vector>) returns (out: seq<Scored>)
      requires Valid() && Exact() && n >= nlist && forall rid :: rid in stored ==> fetch(rid) == Some(stored[rid])
      ensures KNearest(dist, query, stored, k, out)
    {
      hide KNearest;
      hide Valid;
      hide Exact;
      hide Probes;
      hide CellAmong;
      hide Tallied;
      hide TopOf;
      ghost var rids, pool, cells;
      out, rids, pool, cells := Search(query, k, Some(n), fetch);
      assert Visible(pool, fetch) == stored;
    }
  }

  lemma OpenIndex(x: DiskIvf)
    requires x.Valid()
    ensures x.TableOnDisk() && x.postings.Valid() && x.postings.kind == IntKind
    ensures 1 <= x.nlist == |x.table| < 0x1_0000_0000
    ensures x.Exact() <==> Posted(x.dist, x.table, x.stored, x.postings.Contents())
  {
    hide Posted;
    hide ChainHolds;
  }

  lemma ExactIs(x: DiskIvf)
    requires x.Valid()
    ensures x.Exact() <==> Posted(x.dist, x.table, x.stored, x.postings.Contents())
  {
    hide Posted;
    hide ChainHolds;
  }

  lemma PostedNone(dist: Distance, table: seq<Vector>)
    ensures Posted(dist, table, map[], [])
  {
  }

  lemma TableWritten(x: DiskIvf)
    requires ChainHolds(x.pages, x.ids, x.fpp, Joined(x.table)) && x.ids != [] && x.ids[0] == x.head
    requires Rectangular(x.table, x.dim) && |x.table| == x.nlist && 1 <= x.nlist < 0x1_0000_0000
    ensures x.TableOnDisk()
  {
  }

  lemma CloseIndex(x: DiskIvf)
    requires x.TableOnDisk() && x.postings.Valid() && x.postings.kind == IntKind
    ensures x.Valid() && (x.Exact() <==> Posted(x.dist, x.table, x.stored, x.postings.Contents()))
  {
    hide Posted;
    hide ChainHolds;
  }

  lemma CellFits(dist: Distance, table: seq<Vector>, v: Vector, c: nat)
    requires InCell(dist, table, v, c) && |table| < 0x1_0000_0000
    ensures c < 0x1_0000_0000 && KindOf(IntKey(c)) == IntKind
  {
  }

  lemma RankedSize(dist: Distance, table: seq<Vector>, query: Vector, ys: seq<RankedCell>)
    requires AllRanked(dist, table, query, ys)
    ensures |ys| == |table| && forall i :: 0 <= i < |ys| ==> ys[i].cell < |table|
  {
  }

  lemma CellsAre(ys: seq<RankedCell>, n: nat)
    requires n <= |ys|
    ensures |CellsOf(ys[..n])| == n && forall i :: 0 <= i < n ==> CellsOf(ys[..n])[i] == ys[i].cell
  {
  }

  lemma ProbesParts(dist: Distance, table: seq<Vector>, query: Vector, cells: seq<nat>)
    requires Probes(dist, table, query, cells)
    ensures forall i, j :: 0 <= i < j < |cells| ==> cells[i] != cells[j]
  {
  }

  lemma GatheredNone(dist: Distance, table: seq<Vector>, stored: map<RowId, Vector>, cells: seq<nat>)
    ensures Gathered(dist, table, stored, cells, 0, [])
  {
  }

  lemma GatheredParts(dist: Distance, table: seq<Vector>, stored: map<RowId, Vector>, cells: seq<nat>, rids: seq<RowId>)
    requires Gathered(dist, table, stored, cells, |cells|, rids)
    ensures NoRepeats(rids)
    ensures forall rid :: rid in rids <==> rid in stored && CellAmong(dist, table, stored[rid], cells, |cells|)
  {
  }

  lemma ScoresNone(dist: Distance, query: Vector, rids: seq<RowId>, fetch: RowId -> Option<Vector>)
    ensures Scores(dist, query, Visible(FirstRids(rids, 0), fetch), [])
  {
  }

  lemma FirstAll(rids: seq<RowId>)
    ensures forall rid :: rid in FirstRids(rids, |rids|) <==> rid in rids
  {
  }

  lemma CloserOrder()
    ensures Preorder(Closer)
  {
  }

  // ── a row that comes back twice ────────────────────────────────────────────

  /** In every exact index: a stored row inserted again with a vector of another cell comes back twice. */
  method InsertAgain(x: DiskIvf, rid: RowId, v: Vector, query: Vector) returns (ok: bool, out: seq<RowId>)
    requires x.Valid() && x.Exact() && rid in x.stored
    requires forall c :: !(InCell(x.dist, x.table, v, c) && InCell(x.dist, x.table, x.stored[rid], c))
    modifies x`stored, x.postings
    ensures ok ==> multiset(out)[rid] == 2
  {
    hide *;
    OpenIndex(x);
    ghost var rows, was := x.postings.Contents(), x.stored[rid];
    ghost var cell, cells;
    ok, cell := x.Insert(rid, v);
    out := [];
    if ok {
      assert !InCell(x.dist, x.table, was, cell);
      out, cells := x.Candidates(query, Some(x.nlist));
      ghost var all := CellSet(cells, |cells|);
      InCellSmall(x.dist, x.table, v, cell);
      AllCells(cells, x.nlist);
      UnderCell(cell, rid, all);
      TimesExact(x.dist, x.table, x.stored, rows, rid, all);
      TimesInserted(rows, x.postings.Contents(), Row(IntKey(cell), rid, []), rid, all);
      TalliedAt(x.postings.Contents(), cells, out, rid);
    }
  }

  lemma AllCells(cells: seq<nat>, n: nat)
    requires forall c :: 0 <= c < n ==> c in cells
    ensures forall c :: 0 <= c < n ==> c in CellSet(cells, |cells|)
  {
    forall c: nat | c < n ensures c in CellSet(cells, |cells|) {
      assert c in cells;
      var i :| 0 <= i < |cells| && cells[i] == c;
    }
  }

  lemma UnderCell(c: nat, rid: RowId, cells: set<nat>)
    requires c < 0x1_0000_0000 && c in cells
    ensures Under(Row(IntKey(c), rid, []), cells)
  {
  }

  lemma TalliedAt(rows: seq<Row>, cells: seq<nat>, out: seq<RowId>, rid: RowId)
    requires Tallied(rows, cells, |cells|, out)
    ensures multiset(out)[rid] == Times(rows, rid, CellSet(cells, |cells|))
  {
  }

  function Discrete(a: Vector, b: Vector): real {
    if a == b then 0.0 else 1.0
  }

  lemma TwoCellsApart(table: seq<Vector>, a: Vector, b: Vector)
    requires table == [a, b] && a != b
    ensures forall c :: !(InCell(Discrete, table, a, c) && InCell(Discrete, table, b, c))
  {
    forall c | 0 <= c < 2 ensures !(InCell(Discrete, table, a, c) && InCell(Discrete, table, b, c)) {
      assert Discrete(table[0], a) == 0.0 && Discrete(table[1], b) == 0.0;
    }
  }

  /** Such an index: two centroids, and one row id inserted with the vector of each. */
  method TwoCells(postings: DiskBTree, pages: Store, ids: seq<PageId>, pageSize: nat, a: Vector, b: Vector, rid: RowId)
    returns (ok: bool, out: seq<RowId>)
    requires 4096 <= pageSize <= MAX_PAGE && |a| == |b| == 2 && a != b
    requires |ids| == PageCount(|Joined([a, b])|, FloatsPerPage(pageSize)) && AllDistinct(ids) && NO_PAGE !in ids
    requires postings.Valid() && postings.kind == IntKind && postings.Contents() == []
    modifies postings
    ensures ok ==> multiset(out)[rid] == 2
  {
    hide *;
    TwoRows(a, b);
    var x := new DiskIvf(Discrete, 2, [a, b], 2, postings, pages, ids, pageSize);
    ghost var cell;
    out := [];
    ok, cell := x.Insert(rid, a);
    if ok {
      TwoCellsApart(x.table, a, b);
      ok, out := InsertAgain(x, rid, b, a);
    }
  }

  lemma TwoRows(a: Vector, b: Vector)
    requires |a| == |b| == 2
    ensures Rectangular([a, b], 2)
  {
  }
}
