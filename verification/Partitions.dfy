/**
  Dealing the row ids of a range scan into slices, one per worker.
 */
module Partitions {
  import opened Keys
  import opened Nodes

  function Concat(parts: seq<seq<RowId>>): seq<RowId> {
    if parts == [] then [] else Concat(parts[..|parts| - 1]) + parts[|parts| - 1]
  }

  function RidsOf(rows: seq<Row>): (rids: seq<RowId>)
    ensures |rids| == |rows|
  {
    seq(|rows|, i requires 0 <= i < |rows| => rows[i].rid)
  }

  lemma RidsConcat(a: seq<Row>, b: seq<Row>)
    ensures RidsOf(a + b) == RidsOf(a) + RidsOf(b)
  {
  }

  function CeilDiv(total: nat, n: nat): nat
    requires n > 0
  {
    (total + n - 1) / n
  }

  lemma ConcatAppend(parts: seq<seq<RowId>>, last: seq<RowId>)
    ensures Concat(parts + [last]) == Concat(parts) + last
  {
    assert (parts + [last])[..|parts|] == parts;
  }

  lemma {:induction false} ConcatPad(parts: seq<seq<RowId>>, k: nat)
    ensures Concat(parts + seq(k, _ => [])) == Concat(parts)
  {
    if k == 0 {
      assert parts + seq(0, _ => []) == parts;
    } else {
      ConcatPad(parts, k - 1);
      assert parts + seq(k, _ => []) == (parts + seq(k - 1, _ => [])) + [[]];
      ConcatAppend(parts + seq(k - 1, _ => []), []);
    }
  }

  /** Full slices so far, and one being filled; only the last slice may take more than its share. */
  ghost predicate Dealt(parts: seq<seq<RowId>>, current: seq<RowId>, per: nat, n: nat, dealt: seq<RowId>) {
    && |parts| < n && Concat(parts) + current == dealt
    && (forall i :: 0 <= i < |parts| ==> |parts[i]| == per)
    && (|current| < per || |parts| + 1 == n)
    && |dealt| == |parts| * per + |current|
  }

  lemma DealOne(parts: seq<seq<RowId>>, current: seq<RowId>, per: nat, n: nat, dealt: seq<RowId>, rid: RowId)
    requires Dealt(parts, current, per, n, dealt) && per > 0
    ensures var full := current + [rid];
            if |full| >= per && |parts| + 1 < n then Dealt(parts + [full], [], per, n, dealt + [rid])
            else Dealt(parts, full, per, n, dealt + [rid])
  {
    var full := current + [rid];
    assert Concat(parts) + full == dealt + [rid];
    ConcatAppend(parts, full);
    if |full| >= per && |parts| + 1 < n {
      Succ(|parts|, per);
      assert Concat(parts + [full]) + [] == dealt + [rid];
    }
  }

  lemma Succ(a: nat, b: nat)
    ensures (a + 1) * b == a * b + b
  {
  }

  /** Deal one leaf's row ids. */
  method DealLeaf(leaf: seq<RowId>, parts: seq<seq<RowId>>, current: seq<RowId>, per: nat, n: nat,
                  ghost dealt: seq<RowId>)
    returns (parts': seq<seq<RowId>>, current': seq<RowId>)
    requires Dealt(parts, current, per, n, dealt) && per > 0
    ensures Dealt(parts', current', per, n, dealt + leaf)
  {
    hide Dealt;
    parts', current' := parts, current;
    var j := 0;
    assert dealt + leaf[..0] == dealt;
    while j < |leaf|
      invariant j <= |leaf| && Dealt(parts', current', per, n, dealt + leaf[..j])
    {
      DealtRoom(parts', current', per, n, dealt + leaf[..j]);
      DealOne(parts', current', per, n, dealt + leaf[..j], leaf[j]);
      assert dealt + leaf[..j] + [leaf[j]] == dealt + leaf[..j + 1];
      current' := current' + [leaf[j]];
      if |current'| >= per && |parts'| + 1 < n {
        parts', current' := parts' + [current'], [];
      }
      j := j + 1;
    }
    assert leaf[..j] == leaf;
  }

  lemma DealtRoom(parts: seq<seq<RowId>>, current: seq<RowId>, per: nat, n: nat, dealt: seq<RowId>)
    requires Dealt(parts, current, per, n, dealt)
    ensures |parts| < n
  {
  }

  /** Exactly `n` slices, in order, none longer than its fair share. */
  ghost predicate Fair(parts: seq<seq<RowId>>, n: nat, all: seq<RowId>) {
    && n > 0 && |parts| == n && Concat(parts) == all
    && (forall i :: 0 <= i < n ==> |parts[i]| <= CeilDiv(|all|, n))
  }

  lemma ShareCovers(total: nat, n: nat)
    requires n > 0
    ensures total <= (n - 1) * CeilDiv(total, n) + CeilDiv(total, n)
    ensures total > 0 ==> CeilDiv(total, n) > 0
  {
    var per := CeilDiv(total, n);
    assert total + n - 1 == per * n + (total + n - 1) % n;
    Succ(n - 1, per);
  }

  /** Close the last slice and pad with empty ones. */
  lemma DealtFair(parts: seq<seq<RowId>>, current: seq<RowId>, n: nat, all: seq<RowId>)
    requires n > 0 && |all| > 0 && Dealt(parts, current, CeilDiv(|all|, n), n, all)
    ensures var closed := if current == [] then parts else parts + [current];
            |closed| <= n && Fair(closed + seq(n - |closed|, _ => []), n, all)
  {
    var per := CeilDiv(|all|, n);
    ShareCovers(|all|, n);
    var closed := if current == [] then parts else parts + [current];
    if |parts| + 1 == n {
      assert |current| <= per;
    }
    ConcatAppend(parts, current);
    assert Concat(closed) == all;
    ConcatPad(closed, n - |closed|);
  }

  /** Nothing admitted: `n` empty slices. */
  lemma EmptyFair(n: nat)
    requires n > 0
    ensures Fair(seq(n, _ => []), n, [])
  {
    var none: seq<seq<RowId>> := [];
    ConcatPad(none, n);
    assert none + seq(n, _ => []) == seq(n, _ => []);
  }

  /** Deal the per-leaf slices of a scan into exactly `n` slices. */
  method Distribute(leaves: seq<seq<RowId>>, total: nat, n: nat) returns (parts: seq<seq<RowId>>)
    requires n > 0 && total == |Concat(leaves)|
    ensures Fair(parts, n, Concat(leaves))
  {
    hide Dealt;
    hide Fair;
    ghost var all := Concat(leaves);
    if total == 0 {
      EmptyFair(n);
      return seq(n, _ => []);
    }
    var per := CeilDiv(total, n);
    ShareCovers(total, n);
    parts := [];
    var current: seq<RowId> := [];
    var a := 0;
    DealtStart(per, n);
    assert leaves[..0] == [];
    while a < |leaves|
      invariant a <= |leaves| && Dealt(parts, current, per, n, Concat(leaves[..a]))
    {
      parts, current := DealLeaf(leaves[a], parts, current, per, n, Concat(leaves[..a]));
      assert leaves[..a + 1] == leaves[..a] + [leaves[a]];
      ConcatAppend(leaves[..a], leaves[a]);
      a := a + 1;
    }
    assert leaves[..a] == leaves;
    DealtFair(parts, current, n, all);
    if current != [] { parts := parts + [current]; }
    parts := parts + seq(n - |parts|, _ => []);
  }

  lemma DealtStart(per: nat, n: nat)
    requires per > 0 && n > 0
    ensures Dealt([], [], per, n, [])
  {
  }
}
