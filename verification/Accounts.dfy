/**
  What operations on the tree add and take away, pairs counted as often as they are stored,
  and what a panic on the way is due to.
 */
module Accounts {
  import opened Keys
  import opened Nodes
  import opened Shapes
  import opened Steps
  import opened Searches
  import opened Trees
  import opened Spelling
  import opened Crabbing
  import opened Merges
  import opened Overflows

  // ── pairs with multiplicity ────────────────────────────────────────────────

  function PairsOf(rows: seq<Row>): seq<Entry> {
    seq(|rows|, i requires 0 <= i < |rows| => Entry(rows[i].key, rows[i].rid))
  }

  /** The pairs of the rows, each as often as there is a row for it. */
  function PairBag(rows: seq<Row>): multiset<Entry> {
    multiset(PairsOf(rows))
  }

  lemma BagConcat(a: seq<Row>, b: seq<Row>)
    ensures PairBag(a + b) == PairBag(a) + PairBag(b)
  {
    assert PairsOf(a + b) == PairsOf(a) + PairsOf(b);
  }

  lemma BagSize(rows: seq<Row>)
    ensures |PairBag(rows)| == |rows|
  {
  }

  lemma LeafBag(n: Node)
    requires n.Leaf?
    ensures PairBag(LeafRows(n)) == multiset(n.entries)
  {
    assert PairsOf(LeafRows(n)) == n.entries;
  }

  /** Replacing one stretch of rows. */
  lemma BagSplice(rows: seq<Row>, k: nat, leaf: seq<Row>, leaf': seq<Row>)
    requires k + |leaf| <= |rows| && rows[k..k + |leaf|] == leaf
    ensures PairBag(Splice(rows, k, leaf', k + |leaf|)) + PairBag(leaf) == PairBag(rows) + PairBag(leaf')
  {
    hide PairBag;
    var a, c := rows[..k], rows[k + |leaf|..];
    assert rows == a + leaf + c;
    BagConcat(a + leaf, c);
    BagConcat(a, leaf);
    BagConcat(a + leaf', c);
    BagConcat(a, leaf');
  }

  lemma BagInsert(rows: seq<Row>, k: nat, row: Row)
    requires k <= |rows|
    ensures PairBag(Splice(rows, k, [row], k)) == PairBag(rows) + multiset{Entry(row.key, row.rid)}
  {
    assert PairsOf([row]) == [Entry(row.key, row.rid)] && PairsOf([]) == [];
    assert rows[k..k] == [];
    BagSplice(rows, k, [], [row]);
  }

  /** A pair is among the rows exactly if it is counted. */
  lemma BagIsSet(rows: seq<Row>, e: Entry)
    ensures e in PairSet(rows) <==> PairBag(rows)[e] > 0
  {
    if e in PairSet(rows) {
      var r :| r in rows && e == Entry(r.key, r.rid);
      var i :| 0 <= i < |rows| && rows[i] == r;
      assert PairsOf(rows)[i] == e;
    }
    if PairBag(rows)[e] > 0 {
      assert e in PairsOf(rows);
      var i :| 0 <= i < |rows| && PairsOf(rows)[i] == e;
      assert rows[i] in rows;
    }
  }

  /** Nothing is lost, and what is added is among `es`, no more often than there. */
  ghost predicate Grown(rows: seq<Row>, rows': seq<Row>, es: multiset<Entry>) {
    PairBag(rows) <= PairBag(rows') <= PairBag(rows) + es
  }

  lemma GrownSame(rows: seq<Row>, es: multiset<Entry>)
    ensures Grown(rows, rows, es)
  {
  }

  lemma GrownJoin(a: seq<Row>, b: seq<Row>, c: seq<Row>, es: multiset<Entry>, fs: multiset<Entry>, all: multiset<Entry>)
    requires Grown(a, b, es) && Grown(b, c, fs) && es + fs <= all
    ensures Grown(a, c, all)
  {
    hide PairBag;
    forall e ensures PairBag(a)[e] <= PairBag(c)[e] <= PairBag(a)[e] + all[e] {
      assert PairBag(a)[e] <= PairBag(b)[e] <= (PairBag(a) + es)[e];
      assert PairBag(b)[e] <= PairBag(c)[e] <= (PairBag(b) + fs)[e];
      assert (es + fs)[e] <= all[e];
    }
  }

  lemma BagPart<T>(s: seq<T>, i: nat, j: nat)
    requires i <= j <= |s|
    ensures multiset(s[..i]) + multiset(s[i..j]) == multiset(s[..j]) && multiset(s[i..j]) <= multiset(s)
  {
    assert s[..j] == s[..i] + s[i..j];
    assert s == s[..j] + s[j..];
  }

  /** A leaf in which nothing was lost replaces the one before. */
  lemma GrownSplice(rows: seq<Row>, k: nat, n: Node, n': Node, es: multiset<Entry>)
    requires n.Leaf? && n'.Leaf? && k + |LeafRows(n)| <= |rows| && rows[k..k + |LeafRows(n)|] == LeafRows(n)
    requires multiset(n.entries) <= multiset(n'.entries) <= multiset(n.entries) + es
    ensures Grown(rows, Splice(rows, k, LeafRows(n'), k + |LeafRows(n)|), es)
  {
    var rows' := Splice(rows, k, LeafRows(n'), k + |LeafRows(n)|);
    BagSplice(rows, k, LeafRows(n), LeafRows(n'));
    LeafBag(n);
    LeafBag(n');
    hide PairBag;
    BagsGrow(PairBag(rows), PairBag(rows'), multiset(n.entries), multiset(n'.entries), es);
  }

  lemma BagsGrow(all: multiset<Entry>, all': multiset<Entry>, leaf: multiset<Entry>, leaf': multiset<Entry>,
                 es: multiset<Entry>)
    requires all' + leaf == all + leaf' && leaf <= leaf' <= leaf + es
    ensures all <= all' <= all + es
  {
    forall e ensures all[e] <= all'[e] <= all[e] + es[e] {
      assert (all' + leaf)[e] == (all + leaf')[e];
      assert leaf[e] <= leaf'[e] <= (leaf + es)[e];
    }
  }

  /** The merge loses nothing and takes from the new run only. */
  lemma MergedGrows(old': seq<Entry>, new': seq<Entry>)
    ensures multiset(old') <= multiset(Merged(old', new')) <= multiset(old') + multiset(new')
  {
    MergedBag(old', new');
    FreshInside(old', new');
  }

  // ── where a panic comes from ───────────────────────────────────────────────

  /**
    A put in progress: a tree and its allocator, the pair for which the path was taken, and the
    leaf that is to replace the one at the end of the path.
   */
  datatype Attempt = Attempt(pages: Pages, root: PageId, g: Shape, next: nat, rows: seq<Row>, job: Job, early: bool,
                             full: Node)

  ghost function PathOf(a: Attempt, cap: nat): (path: seq<Frame>)
    ensures path != []
  {
    Descent(a.pages, a.root, if a.root in a.g.spans then a.g.spans[a.root].level else 0, a.job, a.early, cap)
  }

  /** `full` has the rows of `n`, and beyond these only payload-free ones for `es`. */
  ghost predicate Enlarged(n: Node, full: Node, es: multiset<Entry>) {
    forall r :: multiset(LeafRows(full))[r] <=
                multiset(LeafRows(n))[r] + if r.payload == [] then es[Entry(r.key, r.rid)] else 0
  }

  /** The tree is sound and holds pairs between the bounds, the put is for pairs of `es`, and it bursts a page. */
  ghost predicate BurstAt(a: Attempt, kind: Kind, cap: nat, next: nat, least: set<Entry>, most: set<Entry>,
                          es: multiset<Entry>) {
    && TreeInv(a.pages, a.root, a.g, {}, kind) && Spells(a.pages, a.g, a.rows) && least <= PairSet(a.rows) <= most
    && Entry(a.job.key, a.job.rid) in es && Enlarged(Top(PathOf(a, cap)).node, a.full, es)
    && a.next <= next && PutBursts(PathOf(a, cap), a.full, a.root, a.next, cap)
  }

  /** Some half, or a node above, was larger than its page, for a tree with such pairs and a put of such entries. */
  ghost predicate Burst(kind: Kind, cap: nat, next: nat, least: set<Entry>, most: set<Entry>, es: multiset<Entry>) {
    exists a :: BurstAt(a, kind, cap, next, least, most, es)
  }

  lemma BurstIntro(a: Attempt, kind: Kind, cap: nat, next: nat, es: multiset<Entry>)
    requires TreeInv(a.pages, a.root, a.g, {}, kind) && Spells(a.pages, a.g, a.rows)
    requires Entry(a.job.key, a.job.rid) in es && Enlarged(Top(PathOf(a, cap)).node, a.full, es)
    requires a.next <= next && PutBursts(PathOf(a, cap), a.full, a.root, a.next, cap)
    ensures Burst(kind, cap, next, PairSet(a.rows), PairSet(a.rows), es)
  {
    hide *;
    BurstAtIntro(a, kind, cap, next, es);
    BurstAtIs(a, kind, cap, next, PairSet(a.rows), PairSet(a.rows), es);
  }

  lemma BurstAtIntro(a: Attempt, kind: Kind, cap: nat, next: nat, es: multiset<Entry>)
    requires TreeInv(a.pages, a.root, a.g, {}, kind) && Spells(a.pages, a.g, a.rows)
    requires Entry(a.job.key, a.job.rid) in es && Enlarged(Top(PathOf(a, cap)).node, a.full, es)
    requires a.next <= next && PutBursts(PathOf(a, cap), a.full, a.root, a.next, cap)
    ensures BurstAt(a, kind, cap, next, PairSet(a.rows), PairSet(a.rows), es)
  {
    hide TreeInv;
    hide Spells;
    hide PathOf;
    hide Enlarged;
    hide PutBursts;
    hide PairSet;
  }

  lemma BurstAtIs(a: Attempt, kind: Kind, cap: nat, next: nat, least: set<Entry>, most: set<Entry>, es: multiset<Entry>)
    requires BurstAt(a, kind, cap, next, least, most, es)
    ensures Burst(kind, cap, next, least, most, es)
  {
    hide BurstAt;
  }

  lemma EnlargedMore(n: Node, full: Node, es: multiset<Entry>, es': multiset<Entry>)
    requires Enlarged(n, full, es) && es <= es'
    ensures Enlarged(n, full, es')
  {
    hide LeafRows;
    forall r ensures multiset(LeafRows(full))[r] <=
                     multiset(LeafRows(n))[r] + if r.payload == [] then es'[Entry(r.key, r.rid)] else 0
    {
      assert es[Entry(r.key, r.rid)] <= es'[Entry(r.key, r.rid)];
    }
  }

  lemma BurstWiden(kind: Kind, cap: nat, next: nat, least: set<Entry>, most: set<Entry>, es: multiset<Entry>,
                   next': nat, least': set<Entry>, most': set<Entry>, es': multiset<Entry>)
    requires Burst(kind, cap, next, least, most, es)
    requires next <= next' && least' <= least && most <= most' && es <= es'
    ensures Burst(kind, cap, next', least', most', es')
  {
    hide TreeInv;
    hide Spells;
    hide PathOf;
    hide Enlarged;
    hide PutBursts;
    hide PairSet;
    var a :| BurstAt(a, kind, cap, next, least, most, es);
    EnlargedMore(Top(PathOf(a, cap)).node, a.full, es, es');
    assert BurstAt(a, kind, cap, next', least', most', es');
  }

  /** One row put in. */
  lemma EnlargedOne(n: Node, pos: nat, e: Entry)
    requires n.Leaf? && PayloadsAligned(n) && pos <= |n.entries|
    ensures Enlarged(n, LeafInsert(n, pos, e, []), multiset{e})
  {
    var full, rows, row := LeafInsert(n, pos, e, []), LeafRows(n), Row(e.key, e.rid, []);
    LeafInsertRows(n, pos, e, []);
    assert LeafRows(full) == rows[..pos] + [row] + rows[pos..];
    hide LeafRows;
    hide LeafInsert;
    assert rows == rows[..pos] + rows[pos..];
    assert multiset(LeafRows(full)) == multiset(rows) + multiset{row};
  }

  /** Payload-free rows are counted like their entries. */
  lemma {:induction false} BareCount(es: seq<Entry>, r: Row)
    ensures multiset(RowsOf(es, []))[r] == if r.payload == [] then multiset(es)[Entry(r.key, r.rid)] else 0
  {
    if es != [] {
      var last := es[|es| - 1];
      BareCount(es[..|es| - 1], r);
      assert es == es[..|es| - 1] + [last];
      assert RowsOf(es, []) == RowsOf(es[..|es| - 1], []) + [Row(last.key, last.rid, [])];
    }
  }

  lemma EnlargedBare(n: Node, full: Node, es: multiset<Entry>)
    requires n.Leaf? && full.Leaf? && n.payloads == [] && full.payloads == []
    requires multiset(full.entries) <= multiset(n.entries) + es
    ensures Enlarged(n, full, es)
  {
    forall r ensures multiset(LeafRows(full))[r] <=
                     multiset(LeafRows(n))[r] + if r.payload == [] then es[Entry(r.key, r.rid)] else 0
    {
      BareCount(n.entries, r);
      BareCount(full.entries, r);
      assert multiset(full.entries)[Entry(r.key, r.rid)] <= (multiset(n.entries) + es)[Entry(r.key, r.rid)];
    }
  }
}
