/**
  Rewriting one leaf without changing its keys' bounds: dropping an entry, or giving
  an entry another row id. Neither moves any other row.
 */
module Edits {
  import opened Keys
  import opened Nodes
  import opened Shapes
  import opened Steps
  import opened Searches
  import opened Trees
  import opened Spelling

  function Without<T>(s: seq<T>, i: nat): seq<T> {
    if i < |s| then s[..i] + s[i + 1..] else s
  }

  /** The leaf without its `i`-th entry and that entry's payload. */
  function DropAt(n: Node, i: nat): Node {
    if n.Leaf? then Leaf(Without(n.entries, i), Without(n.payloads, i), n.next) else n
  }

  /** The leaf with another row id in its `i`-th entry. */
  function SetRid(n: Node, i: nat, rid: RowId): Node {
    if n.Leaf? && i < |n.entries| then n.(entries := n.entries[i := Entry(n.entries[i].key, rid)]) else n
  }

  lemma DropIsLeaf(n: Node, at: nat)
    requires n.Leaf?
    ensures DropAt(n, at).Leaf?
  {
  }

  lemma DropRows(n: Node, i: nat)
    requires n.Leaf? && PayloadsAligned(n) && i < |n.entries|
    ensures |LeafRows(n)| == |n.entries|
    ensures LeafRows(DropAt(n, i)) == Splice(LeafRows(n), i, [], i + 1)
  {
    assert LeafRows(DropAt(n, i)) == Splice(LeafRows(n), i, [], i + 1);
  }

  lemma DropOk(n: Node, p: PageId, g: Shape, kind: Kind, i: nat)
    requires LeafOk(n, p, g) && NodeKind(n, kind) && i < |n.entries|
    ensures LeafOk(DropAt(n, i), p, g) && NodeKind(DropAt(n, i), kind)
  {
  }

  lemma SetRows(n: Node, i: nat, rid: RowId)
    requires n.Leaf? && i < |n.entries|
    ensures |LeafRows(n)| == |n.entries|
    ensures LeafRows(SetRid(n, i, rid)) == LeafRows(n)[i := Row(n.entries[i].key, rid, LeafRows(n)[i].payload)]
  {
  }

  lemma SetOk(n: Node, p: PageId, g: Shape, kind: Kind, i: nat, rid: RowId)
    requires LeafOk(n, p, g) && NodeKind(n, kind) && i < |n.entries|
    ensures LeafOk(SetRid(n, i, rid), p, g) && NodeKind(SetRid(n, i, rid), kind)
  {
  }

  lemma SpliceDrop(rows: seq<Row>, k: nat, leaf: seq<Row>, i: nat)
    requires k + |leaf| <= |rows| && rows[k..k + |leaf|] == leaf && i < |leaf|
    ensures Splice(rows, k, Splice(leaf, i, [], i + 1), k + |leaf|) == Splice(rows, k + i, [], k + i + 1)
    ensures rows[k + i] == leaf[i]
  {
    assert rows[k..k + |leaf|][i] == rows[k + i];
    assert rows[..k + i] == rows[..k] + leaf[..i];
    assert rows[k + i + 1..] == leaf[i + 1..] + rows[k + |leaf|..];
  }

  lemma SpliceSet(rows: seq<Row>, k: nat, leaf: seq<Row>, i: nat, row: Row)
    requires k + |leaf| <= |rows| && rows[k..k + |leaf|] == leaf && i < |leaf|
    ensures Splice(rows, k, leaf[i := row], k + |leaf|) == rows[k + i := row]
    ensures rows[k + i] == leaf[i]
  {
    assert rows[k..k + |leaf|][i] == rows[k + i];
    assert rows == rows[..k] + leaf + rows[k + |leaf|..];
  }

  /** A leaf of the tree, ready to be edited. */
  lemma LeafPageOf(pages: Pages, root: PageId, g: Shape, kind: Kind, p: PageId)
    requires TreeInv(pages, root, g, {}, kind) && p in g.spans && g.spans[p].level == 0
    ensures p in pages && LeafOk(pages[p], p, g) && NodeKind(pages[p], kind) && pages[p].Leaf?
    ensures PayloadsAligned(pages[p])
    ensures ShapeOk(g) && g.spans.Keys <= pages.Keys
  {
    hide TreeInv;
    TreePage(pages, root, g, {}, kind, p);
    ShapeParts(pages, root, g, {}, kind);
  }

  /** Dropping an entry of a leaf drops exactly that row. */
  lemma DropWrite(pages: Pages, root: PageId, g: Shape, kind: Kind, p: PageId, i: nat, rows: seq<Row>) returns (k: nat)
    requires TreeInv(pages, root, g, {}, kind) && Spells(pages, g, rows) && p in g.spans && g.spans[p].level == 0
    requires p in pages && pages[p].Leaf? && i < |pages[p].entries|
    ensures TreeInv(pages[p := DropAt(pages[p], i)], root, g, {}, kind)
    ensures k < |rows| && rows[k].key == pages[p].entries[i].key && rows[k].rid == pages[p].entries[i].rid
    ensures Spells(pages[p := DropAt(pages[p], i)], g, Splice(rows, k, [], k + 1))
    ensures i <= k && StartsRows(pages, g, p, k - i)
  {
    hide *;
    var n := pages[p];
    LeafPageOf(pages, root, g, kind, p);
    DropOk(n, p, g, kind, i);
    RewriteLeaf(pages, root, g, {}, kind, p, DropAt(n, i));
    var k0 := SpellsLeaf(pages, g, rows, p, DropAt(n, i));
    StretchOf(pages, g, p, rows, k0);
    DropRows(n, i);
    RowOf(n, i);
    SpliceDrop(rows, k0, LeafRows(n), i);
    k := k0 + i;
  }

  /** Setting the row id of an entry changes exactly that row. */
  lemma SetWrite(pages: Pages, root: PageId, g: Shape, kind: Kind, p: PageId, i: nat, rid: RowId, rows: seq<Row>)
    returns (k: nat)
    requires TreeInv(pages, root, g, {}, kind) && Spells(pages, g, rows) && p in g.spans && g.spans[p].level == 0
    requires p in pages && pages[p].Leaf? && i < |pages[p].entries|
    ensures TreeInv(pages[p := SetRid(pages[p], i, rid)], root, g, {}, kind)
    ensures k < |rows| && rows[k].key == pages[p].entries[i].key && rows[k].rid == pages[p].entries[i].rid
    ensures Spells(pages[p := SetRid(pages[p], i, rid)], g, rows[k := rows[k].(rid := rid)])
    ensures i <= k && StartsRows(pages, g, p, k - i)
  {
    hide *;
    var n := pages[p];
    LeafPageOf(pages, root, g, kind, p);
    SetOk(n, p, g, kind, i, rid);
    RewriteLeaf(pages, root, g, {}, kind, p, SetRid(n, i, rid));
    var k0 := SpellsLeaf(pages, g, rows, p, SetRid(n, i, rid));
    StretchOf(pages, g, p, rows, k0);
    SetRows(n, i, rid);
    RowOf(n, i);
    SpliceSet(rows, k0, LeafRows(n), i, Row(n.entries[i].key, rid, LeafRows(n)[i].payload));
    k := k0 + i;
  }

  lemma StretchOf(pages: Pages, g: Shape, p: PageId, rows: seq<Row>, k: nat)
    requires LeafSpells(pages, g, p, rows, k)
    ensures p in pages && k + |LeafRows(pages[p])| <= |rows| && rows[k..k + |LeafRows(pages[p])|] == LeafRows(pages[p])
  {
    hide LeafRows;
  }

  lemma RowOf(n: Node, i: nat)
    requires n.Leaf? && i < |n.entries|
    ensures |LeafRows(n)| == |n.entries| && LeafRows(n)[i].key == n.entries[i].key
    ensures LeafRows(n)[i].rid == n.entries[i].rid
  {
  }
}
