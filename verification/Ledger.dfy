/**
  An exact account of what concurrent writers do to the stored pairs: each step's additions
  and removals, counted with multiplicity, are the difference of what the leaves hold.
 */
module Ledger {
  import opened Keys
  import opened Nodes
  import opened Shapes
  import opened Steps
  import opened Merges
  import opened Searches
  import opened Trees
  import opened Edits
  import opened Rewrites
  import opened Crabbing
  import opened CrabbingFrames
  import opened CrabbingSafety
  import opened CrabbingSteps
  import opened CrabbingLeaves
  import opened CrabbingWrites
  import opened CrabbingRuns

  // ── what leaves hold ───────────────────────────────────────────────────────

  function Bag(n: Node): multiset<Entry> {
    if n.Leaf? then multiset(n.entries) else multiset{}
  }

  function BagAt(pages: Pages, p: PageId): multiset<Entry> {
    if p in pages then Bag(pages[p]) else multiset{}
  }

  /** The entries of a set of pages, each as often as it is stored. */
  ghost function Stored(pages: Pages, leaves: set<PageId>): multiset<Entry>
    decreases |leaves|
  {
    if leaves == {} then multiset{}
    else
      var p :| p in leaves;
      BagAt(pages, p) + Stored(pages, leaves - {p})
  }

  lemma {:induction false} StoredTake(pages: Pages, leaves: set<PageId>, p: PageId)
    requires p in leaves
    ensures Stored(pages, leaves) == BagAt(pages, p) + Stored(pages, leaves - {p})
    decreases |leaves|
  {
    hide BagAt;
    var q :| q in leaves && Stored(pages, leaves) == BagAt(pages, q) + Stored(pages, leaves - {q});
    if q != p {
      StoredTake(pages, leaves - {q}, p);
      StoredTake(pages, leaves - {p}, q);
      assert leaves - {q} - {p} == leaves - {p} - {q};
    }
  }

  lemma {:induction false} StoredSame(pages: Pages, pages': Pages, leaves: set<PageId>)
    requires forall p :: p in leaves ==> BagAt(pages', p) == BagAt(pages, p)
    ensures Stored(pages', leaves) == Stored(pages, leaves)
    decreases |leaves|
  {
    hide BagAt;
    if leaves != {} {
      var p :| p in leaves;
      StoredTake(pages, leaves, p);
      StoredTake(pages', leaves, p);
      StoredSame(pages, pages', leaves - {p});
    }
  }

  /** A page write exchanges what one page holds. */
  lemma StoredWrite(pages: Pages, leaves: set<PageId>, p: PageId, n: Node)
    ensures p in leaves ==> Stored(pages[p := n], leaves) + BagAt(pages, p) == Stored(pages, leaves) + Bag(n)
    ensures p !in leaves || BagAt(pages, p) == Bag(n) ==> Stored(pages[p := n], leaves) == Stored(pages, leaves)
  {
    var pages' := pages[p := n];
    hide Bag;
    StoredSame(pages, pages', leaves - {p});
    if p in leaves {
      StoredTake(pages, leaves, p);
      StoredTake(pages', leaves, p);
    } else {
      assert leaves - {p} == leaves;
    }
  }

  /** A pair is held exactly if some leaf has it. */
  lemma {:induction false} StoredIn(pages: Pages, leaves: set<PageId>, e: Entry)
    ensures e in Stored(pages, leaves) <==> exists p :: p in leaves && e in BagAt(pages, p)
    decreases |leaves|
  {
    hide BagAt;
    if leaves != {} {
      var p :| p in leaves;
      StoredTake(pages, leaves, p);
      StoredIn(pages, leaves - {p}, e);
    }
  }

  lemma BagRows(n: Node, e: Entry)
    ensures e in Bag(n) <==> e in Pairs(RowSet(n))
  {
    if n.Leaf? { BarePairs(n); }
  }

  /** So what the leaves of a tree hold are the pairs it stores. */
  lemma StoredPairs(pages: Pages, root: PageId, g: Shape, pend: set<PageId>, kind: Kind, e: Entry)
    requires TreeInv(pages, root, g, pend, kind)
    ensures e in Stored(pages, LeafPages(g)) <==> e in Pairs(Rows(pages, g))
  {
    StoredIn(pages, LeafPages(g), e);
    if e in Pairs(Rows(pages, g)) {
      var r :| r in Rows(pages, g) && e == Entry(r.key, r.rid);
      var p :| p in g.spans && p in pages && r in RowSet(pages[p]);
      BagRows(pages[p], e);
      TreePage(pages, root, g, pend, kind, p);
      assert p in LeafPages(g);
      assert e in BagAt(pages, p);
    }
    if p :| p in LeafPages(g) && e in BagAt(pages, p) {
      BagRows(pages[p], e);
      var r :| r in RowSet(pages[p]) && e == Entry(r.key, r.rid);
      assert r in Rows(pages, g);
    }
  }

  // ── what a step adds and removes ───────────────────────────────────────────

  function NewOne(ed: Edit): multiset<Entry> {
    match ed
    case Drop(_) => multiset{}
    case Patch(_, now) => multiset{now}
    case Add(_, e) => multiset{e}
  }

  function OldOne(n: Node, ed: Edit): multiset<Entry> {
    if n.Leaf? && !ed.Add? && ed.at < |n.entries| then multiset{n.entries[ed.at]} else multiset{}
  }

  function NewBag(edits: seq<Edit>): multiset<Entry> {
    if edits == [] then multiset{} else NewOne(edits[0]) + NewBag(edits[1..])
  }

  function OldBag(n: Node, edits: seq<Edit>): multiset<Entry>
    decreases |edits|
  {
    if edits == [] then multiset{} else OldOne(n, edits[0]) + OldBag(EditOne(n, edits[0]), edits[1..])
  }

  /** The leaf a job's leaf write makes of the one it has latched. */
  function PutResult(pc: Pc, a: Action): Node
    requires pc.Apply? && pc.frames != []
  {
    var n := Top(pc.frames).node;
    if a.InsertAtPos? then LeafInsert(n, a.pos, EntryOf(pc.job), pc.job.payload)
    else if n.Leaf? && pc.job.task.PutRun? then
      Leaf(Merged(n.entries, pc.job.task.run[..RunFor(n, pc.job.task.run)]), [], n.next)
    else n
  }

  /** That leaf fits its page, so that one page write puts it there. */
  predicate InPlace(c: Config, pc: Pc, a: Action) {
    && pc.Apply? && pc.frames != [] && BodyLen(PutResult(pc, a)) <= c.cap
    && var n := Top(pc.frames).node;
       a.InsertAtPos? || (a.MergeRun? && n.Leaf? && n.payloads == [] && pc.job.task.PutRun?
                          && RunFor(n, pc.job.task.run) > 0)
  }

  /** What a step adds: the job's gain at its leaf write, or what a rewrite brings in. */
  function Brought(c: Config, s: State, t: Tid, a: Action): multiset<Entry> {
    if t !in s.threads then multiset{}
    else
      var pc := s.threads[t].pc;
      match a
      case Rewrite(edits) => NewBag(edits)
      case Go =>
        if pc.WriteLeft? && pc.frames != [] && pc.full.Leaf? then Gain(pc.job, Top(pc.frames).node) else multiset{}
      case _ => if InPlace(c, pc, a) then Gain(pc.job, Top(pc.frames).node) else multiset{}
  }

  /** What a step removes: what a rewrite drops or replaces. */
  function Took(s: State, t: Tid, a: Action): multiset<Entry> {
    if a.Rewrite? && t in s.threads && s.threads[t].pc.Latched? && s.threads[t].pc.pid in s.pages then
      OldBag(s.pages[s.threads[t].pc.pid], a.edits)
    else multiset{}
  }

  // ── one rewrite ────────────────────────────────────────────────────────────

  lemma DropBag(n: Node, at: nat)
    requires n.Leaf? && at < |n.entries|
    ensures DropAt(n, at).Leaf? && Bag(DropAt(n, at)) + multiset{n.entries[at]} == Bag(n)
  {
    var es := n.entries;
    assert es == es[..at] + [es[at]] + es[at + 1..];
  }

  lemma PatchBag(n: Node, at: nat, rid: RowId)
    requires n.Leaf? && at < |n.entries|
    ensures SetRid(n, at, rid).Leaf?
    ensures Bag(SetRid(n, at, rid)) + multiset{n.entries[at]} == Bag(n) + multiset{Entry(n.entries[at].key, rid)}
  {
    var es, now := n.entries, Entry(n.entries[at].key, rid);
    assert es == es[..at] + [es[at]] + es[at + 1..];
    assert SetRid(n, at, rid).entries == es[..at] + [now] + es[at + 1..];
  }

  lemma AddBag(n: Node, pos: nat, e: Entry)
    requires n.Leaf? && pos <= |n.entries|
    ensures LeafInsert(n, pos, e, []).Leaf? && Bag(LeafInsert(n, pos, e, [])) == Bag(n) + multiset{e}
  {
    hide InsertPayload;
    var es := n.entries;
    assert es == es[..pos] + es[pos..];
  }

  lemma EditOneBag(kind: Kind, home: Node, n: Node, ed: Edit)
    requires EditOk(kind, home, n, ed)
    ensures EditOne(n, ed).Leaf? && Bag(EditOne(n, ed)) + OldOne(n, ed) == Bag(n) + NewOne(ed)
  {
    hide EntryLess;
    hide Spanned;
    hide DropAt;
    hide SetRid;
    hide LeafInsert;
    match ed
    case Drop(at) => DropBag(n, at);
    case Patch(at, now) => PatchBag(n, at, now.rid);
    case Add(pos, e) => AddBag(n, pos, e);
  }

  lemma BagChain(a: multiset<Entry>, b: multiset<Entry>, c: multiset<Entry>, took: multiset<Entry>,
                 new': multiset<Entry>,
                 took': multiset<Entry>, new'': multiset<Entry>)
    requires b + took == a + new' && c + took' == b + new''
    ensures c + (took + took') == a + (new' + new'')
  {
    forall e ensures (c + (took + took'))[e] == (a + (new' + new''))[e] {
      assert (b + took)[e] == (a + new')[e] && (c + took')[e] == (b + new'')[e];
    }
  }

  lemma {:induction false} EditAllBag(kind: Kind, home: Node, n: Node, edits: seq<Edit>)
    requires n.Leaf? && EditAll(kind, home, n, edits).Some?
    ensures EditAll(kind, home, n, edits).value.Leaf?
    ensures Bag(EditAll(kind, home, n, edits).value) + OldBag(n, edits) == Bag(n) + NewBag(edits)
    decreases |edits|
  {
    hide EditOk;
    hide EditOne;
    hide Bag;
    hide OldOne;
    hide NewOne;
    if edits != [] {
      var m := EditOne(n, edits[0]);
      EditOneBag(kind, home, n, edits[0]);
      EditAllBag(kind, home, m, edits[1..]);
      BagChain(Bag(n), Bag(m), Bag(EditAll(kind, home, m, edits[1..]).value), OldOne(n, edits[0]), NewOne(edits[0]),
               OldBag(m, edits[1..]), NewBag(edits[1..]));
    }
  }

  // ── every step ─────────────────────────────────────────────────────────────

  /** What the leaves hold changes by exactly what the step adds and removes. */
  ghost predicate Balanced(s: State, s': State, g: Shape, g': Shape, brought: multiset<Entry>, took: multiset<Entry>) {
    Stored(s'.pages, LeafPages(g')) + took == Stored(s.pages, LeafPages(g)) + brought
  }

  lemma BagCancel(x: multiset<Entry>, h: multiset<Entry>, old': multiset<Entry>, gain: multiset<Entry>)
    requires x + old' == h + (old' + gain)
    ensures x == h + gain
  {
    assert forall e :: (x + old')[e] == x[e] + old'[e];
  }

  /** What inserting or merging does to the pages. */
  lemma PutEffect(c: Config, s: State, s': State, t: Tid, a: Action)
    requires Next(c, s, t, a) == Some(s') && (a.InsertAtPos? || a.MergeRun?)
    ensures t in s.threads && s.threads[t].pc.Apply? && s.threads[t].pc.frames != [] && s.threads[t].pc.pending.None?
    ensures var pc := s.threads[t].pc;
            var f := Top(pc.frames);
            && f.node.Leaf? && s'.pages == (if InPlace(c, pc, a) then s.pages[f.pid := PutResult(pc, a)] else s.pages)
            && (a.InsertAtPos? ==> pc.job.task.PutOne? && IsInsertPos(f.node.entries, EntryOf(pc.job), a.pos))
            && (a.MergeRun? ==> pc.job.task.PutRun?)
  {
    hide PcHeld;
    hide LeafInsert;
    hide IsInsertPos;
    hide BodyLen;
    hide Merged;
    hide RunFor;
    hide Taken;
  }

  lemma PutGains(pc: Pc, a: Action)
    requires pc.Apply? && pc.frames != [] && Top(pc.frames).node.Leaf? && (a.InsertAtPos? || a.MergeRun?)
    requires a.InsertAtPos? ==> pc.job.task.PutOne? && IsInsertPos(Top(pc.frames).node.entries, EntryOf(pc.job), a.pos)
    requires a.MergeRun? ==> pc.job.task.PutRun?
    ensures Bag(PutResult(pc, a)) == Bag(Top(pc.frames).node) + Gain(pc.job, Top(pc.frames).node)
  {
    hide IsInsertPos;
    hide LeafInsert;
    hide Gain;
    hide Merged;
    hide RunFor;
    if a.InsertAtPos? { GainsOne(Top(pc.frames).node, a.pos, pc.job, PutResult(pc, a)); }
    else { GainsRun(Top(pc.frames).node, pc.job, PutResult(pc, a)); }
  }

  lemma LeafIn(g: Shape, p: PageId)
    requires p in g.spans
    ensures p in LeafPages(g) <==> g.spans[p].level == 0
  {
  }

  lemma InsertBalanced(c: Config, s: State, s': State, t: Tid, a: Action, g: Shape, pend: set<PageId>, base: set<Entry>)
    requires Inv(c, s, g, pend, base) && Next(c, s, t, a) == Some(s') && (a.InsertAtPos? || a.MergeRun?)
    ensures Balanced(s, s', g, g, Brought(c, s, t, a), multiset{})
  {
    hide Inv;
    hide Gain;
    hide PutResult;
    hide InPlace;
    hide LeafPages;
    hide Bag;
    PutEffect(c, s, s', t, a);
    hide Next;
    AtLeaf(c, s, g, pend, base, t);
    hide FramesOk;
    hide LeafOk;
    hide NodeKind;
    var pc := s.threads[t].pc;
    var f := Top(pc.frames);
    if InPlace(c, pc, a) {
      PutGains(pc, a);
      LeafIn(g, f.pid);
      StoredWrite(s.pages, LeafPages(g), f.pid, PutResult(pc, a));
      BagCancel(Stored(s'.pages, LeafPages(g)), Stored(s.pages, LeafPages(g)), Bag(f.node), Gain(pc.job, f.node));
    }
  }

  /** What a latched rewrite does to the pages. */
  lemma RewriteBalanced(c: Config, s: State, s': State, t: Tid, edits: seq<Edit>, g: Shape, pend: set<PageId>,
                        base: set<Entry>)
    requires Inv(c, s, g, pend, base) && Next(c, s, t, Rewrite(edits)) == Some(s')
    ensures Balanced(s, s', g, g, Brought(c, s, t, Rewrite(edits)), Took(s, t, Rewrite(edits)))
  {
    hide *;
    RewriteKnows(c, s, s', t, edits);
    var pc := s.threads[t].pc;
    var n := RewriteEffect(c, s, s', t, edits);
    InvParts(c, s, g, pend, base, t);
    ThreadParts(c, s, g, pend, t);
    LeafWriterParts(c, s.pages, s.root, g, pend, pc);
    TreePage(s.pages, s.root, g, pend, c.kind, pc.pid);
    var home := s.pages[pc.pid];
    LeafIsLeaf(home, pc.pid, g);
    EditAllBag(c.kind, home, home, edits);
    LeafIn(g, pc.pid);
    BagIs(s.pages, pc.pid);
    StoredWrite(s.pages, LeafPages(g), pc.pid, n);
    BagShift(Stored(s'.pages, LeafPages(g)), Stored(s.pages, LeafPages(g)), Bag(home), Bag(n), OldBag(home, edits),
             NewBag(edits));
    RewriteAccount(c, s, s', t, edits, g);
  }

  lemma RewriteAccount(c: Config, s: State, s': State, t: Tid, edits: seq<Edit>, g: Shape)
    requires t in s.threads && s.threads[t].pc.Latched? && s.threads[t].pc.pid in s.pages
    requires Stored(s'.pages, LeafPages(g)) + OldBag(s.pages[s.threads[t].pc.pid], edits) ==
               Stored(s.pages, LeafPages(g)) + NewBag(edits)
    ensures Balanced(s, s', g, g, Brought(c, s, t, Rewrite(edits)), Took(s, t, Rewrite(edits)))
  {
    hide NewBag;
    hide OldBag;
    hide Stored;
  }

  lemma BagIs(pages: Pages, p: PageId)
    requires p in pages
    ensures BagAt(pages, p) == Bag(pages[p])
  {
  }

  lemma LeafIsLeaf(n: Node, p: PageId, g: Shape)
    requires LeafOk(n, p, g)
    ensures n.Leaf?
  {
  }

  lemma BagShift(x: multiset<Entry>, h: multiset<Entry>, old': multiset<Entry>, new': multiset<Entry>,
                 took: multiset<Entry>, brought: multiset<Entry>)
    requires x + old' == h + new' && new' + took == old' + brought
    ensures x + took == h + brought
  {
    forall e ensures (x + took)[e] == (h + brought)[e] {
      assert (x + old')[e] == (h + new')[e] && (new' + took)[e] == (old' + brought)[e];
    }
  }

  lemma RewriteKnows(c: Config, s: State, s': State, t: Tid, edits: seq<Edit>)
    requires Next(c, s, t, Rewrite(edits)) == Some(s')
    ensures t in s.threads && s.threads[t].drop == {} && s.threads[t].pc.Latched?
    ensures RewriteStep(c, s, t, s.threads[t].pc, edits) == Some(s')
  {
    hide RewriteStep;
  }

  // ── splits and the way up ──────────────────────────────────────────────────

  lemma HalvesBag(full: Node, right: PageId)
    requires full.Leaf?
    ensures Bag(LeafLeft(full, right)) + Bag(LeafRight(full)) == Bag(full)
  {
    var es, h := full.entries, |full.entries| / 2;
    assert es == es[..h] + es[h..];
  }

  /** The left half of a leaf is written: the right half joins the tree. */
  lemma LeftBalanced(c: Config, s: State, s': State, t: Tid, g: Shape, g': Shape, pend: set<PageId>, base: set<Entry>)
    requires Inv(c, s, g, pend, base) && t in s.threads && s.threads[t].pc.WriteLeft? && Next(c, s, t, Go) == Some(s')
    requires LeafPages(g') == LeafPages(g) + NewLeaf(s, t, Go)
    ensures Balanced(s, s', g, g', Brought(c, s, t, Go), multiset{})
  {
    hide *;
    var pc := s.threads[t].pc;
    InvParts(c, s, g, pend, base, t);
    ThreadParts(c, s, g, pend, t);
    ShapeParts(s.pages, s.root, g, pend, c.kind);
    SplitPcParts(c, s.pages, s.root, g, pend, pc);
    TopIsSound(c, s.pages, s.root, g, pend, pc.job, pc.meta, pc.frames);
    NewPageOutside(s, g, t);
    NewLeafParts(s, t, Go);
    LeftEffect(c, s, s', t);
    var f := Top(pc.frames);
    BagIs(s.pages, f.pid);
    BagIs(s.pages, pc.right);
    if pc.full.Leaf? {
      FullLeafParts(c, g, pend, pc);
      SoundLeaf(c, s, g, pend, f.pid, f.node);
      LeafIn(g, f.pid);
      NotLeaf(g, pc.right);
      HalvesBag(pc.full, pc.right);
      GainsBag(f.node, pc.full, pc.job);
      SplitStored(s.pages, LeafPages(g), f.pid, pc.right, LeafLeft(pc.full, pc.right), pc.full, Gain(pc.job, f.node));
      LeftAccount(c, s, s', t, g, g');
    } else {
      FullInnerParts(c, g, pend, pc);
      InnerHalf(f.node, pc.full);
      StoredWrite(s.pages, LeafPages(g), f.pid, InternalLeft(pc.full));
      assert LeafPages(g) + {} == LeafPages(g);
      LeftAccountInner(c, s, s', t, g, g');
    }
  }

  lemma LeftEffect(c: Config, s: State, s': State, t: Tid)
    requires t in s.threads && s.threads[t].pc.WriteLeft? && s.threads[t].pc.frames != []
    requires Next(c, s, t, Go) == Some(s')
    ensures var pc := s.threads[t].pc; s'.pages == s.pages[Top(pc.frames).pid := LeftHalf(pc.full, pc.right)]
  {
    hide LeftHalf;
    hide SepOf;
    hide Taken;
  }

  lemma SoundLeaf(c: Config, s: State, g: Shape, pend: set<PageId>, p: PageId, n: Node)
    requires TreeInv(s.pages, s.root, g, pend, c.kind) && p in g.spans && p in s.pages && s.pages[p] == n && n.Leaf?
    ensures g.spans[p].level == 0
  {
    hide LeafOk;
    hide NodeKind;
    TreePage(s.pages, s.root, g, pend, c.kind, p);
  }

  lemma NotLeaf(g: Shape, p: PageId)
    requires p !in g.spans
    ensures p !in LeafPages(g)
  {
  }

  lemma GainsBag(n: Node, full: Node, job: Job)
    requires Gains(n, full, job)
    ensures Bag(full) == Bag(n) + Gain(job, n)
  {
  }

  lemma InnerHalf(n: Node, full: Node)
    requires n.Internal? && full.Internal?
    ensures Bag(n) == multiset{} && Bag(InternalLeft(full)) == multiset{}
  {
  }

  /** A leaf is replaced by its left half while the right half is added. */
  lemma SplitStored(pages: Pages, leaves: set<PageId>, p: PageId, q: PageId, left: Node, full: Node,
                    gain: multiset<Entry>)
    requires p in leaves && q !in leaves
    requires Bag(left) + BagAt(pages, q) == Bag(full) && Bag(full) == BagAt(pages, p) + gain
    ensures Stored(pages[p := left], leaves + {q}) == Stored(pages, leaves) + gain
  {
    hide *;
    var pages' := pages[p := left];
    StoredTake(pages', leaves + {q}, q);
    assert leaves + {q} - {q} == leaves;
    StoredWrite(pages, leaves, p, left);
    BagElsewhere(pages, p, left, q);
    SplitSum(Stored(pages', leaves), Stored(pages, leaves), Bag(left), BagAt(pages, q), BagAt(pages, p), gain);
  }

  lemma BagElsewhere(pages: Pages, p: PageId, n: Node, q: PageId)
    requires p != q
    ensures BagAt(pages[p := n], q) == BagAt(pages, q)
  {
  }

  lemma SplitSum(x: multiset<Entry>, h: multiset<Entry>, left: multiset<Entry>, right: multiset<Entry>,
                 old': multiset<Entry>,
                 gain: multiset<Entry>)
    requires x + old' == h + left && left + right == old' + gain
    ensures right + x == h + gain
  {
    forall e ensures (right + x)[e] == (h + gain)[e] {
      assert (x + old')[e] == (h + left)[e] && (left + right)[e] == (old' + gain)[e];
    }
  }

  lemma LeftAccount(c: Config, s: State, s': State, t: Tid, g: Shape, g': Shape)
    requires t in s.threads && s.threads[t].pc.WriteLeft? && s.threads[t].pc.frames != [] && s.threads[t].pc.full.Leaf?
    requires var pc := s.threads[t].pc;
             Stored(s'.pages, LeafPages(g')) == Stored(s.pages, LeafPages(g)) + Gain(pc.job, Top(pc.frames).node)
    ensures Balanced(s, s', g, g', Brought(c, s, t, Go), multiset{})
  {
    hide Gain;
    hide Stored;
    hide LeafPages;
  }

  lemma LeftAccountInner(c: Config, s: State, s': State, t: Tid, g: Shape, g': Shape)
    requires t in s.threads && s.threads[t].pc.WriteLeft? && !s.threads[t].pc.full.Leaf?
    requires Stored(s'.pages, LeafPages(g')) == Stored(s.pages, LeafPages(g))
    ensures Balanced(s, s', g, g', Brought(c, s, t, Go), multiset{})
  {
    hide Gain;
    hide Stored;
    hide LeafPages;
  }

  /** The page another step of a thread writes, if it writes one. */
  lemma GoEffect(c: Config, s: State, s': State, t: Tid)
    requires t in s.threads && Next(c, s, t, Go) == Some(s') && !s.threads[t].pc.WriteLeft?
    ensures var pc := s.threads[t].pc;
            || s'.pages == s.pages
            || (pc.WriteRight? && s'.pages == s.pages[pc.right := RightHalf(pc.full)])
            || (pc.WriteTop? && s'.pages == s.pages[pc.top := Internal([pc.sep.key], [pc.root, pc.sep.child])])
            || (pc.Apply? && pc.frames != [] && pc.pending.Some?
                && s'.pages == s.pages[Top(pc.frames).pid := InternalInsert(Top(pc.frames).node, Top(pc.frames).route,
                                                                            pc.pending.value.key,
                                                                            pc.pending.value.child)])
  {
    hide PcHeld;
    hide RightHalf;
    hide InternalInsert;
    hide BodyLen;
    hide RouteInsert;
    hide RouteRead;
    hide InsertSafe;
    hide FrameLatches;
  }

  lemma GoBalanced(c: Config, s: State, s': State, t: Tid, g: Shape, g': Shape, pend: set<PageId>, base: set<Entry>)
    requires Inv(c, s, g, pend, base) && t in s.threads && !s.threads[t].pc.WriteLeft? && Next(c, s, t, Go) == Some(s')
    requires LeafPages(g') == LeafPages(g)
    ensures Balanced(s, s', g, g', Brought(c, s, t, Go), multiset{})
  {
    hide *;
    var pc := s.threads[t].pc;
    InvParts(c, s, g, pend, base, t);
    ThreadParts(c, s, g, pend, t);
    ShapeParts(s.pages, s.root, g, pend, c.kind);
    NewPageOutside(s, g, t);
    GoEffect(c, s, s', t);
    if s'.pages == s.pages {
    } else if pc.WriteRight? {
      SplitPcParts(c, s.pages, s.root, g, pend, pc);
      NotLeaf(g, pc.right);
      StoredWrite(s.pages, LeafPages(g), pc.right, RightHalf(pc.full));
    } else if pc.WriteTop? {
      TopPcParts(c, s.pages, s.root, g, pend, pc);
      NotLeaf(g, pc.top);
      StoredWrite(s.pages, LeafPages(g), pc.top, Internal([pc.sep.key], [pc.root, pc.sep.child]));
    } else {
      AbsorbParts(c, s.pages, s.root, g, pend, pc);
      var f, sep := Top(pc.frames), pc.pending.value;
      TopIsSound(c, s.pages, s.root, g, pend, pc.job, pc.meta, pc.frames);
      BagIs(s.pages, f.pid);
      InnerBags(f.node, f.route, sep.key, sep.child);
      StoredWrite(s.pages, LeafPages(g), f.pid, InternalInsert(f.node, f.route, sep.key, sep.child));
    }
    GoAccount(c, s, s', t, g, g');
  }

  lemma AbsorbParts(c: Config, pages: Pages, root: PageId, g: Shape, pend: set<PageId>, pc: Pc)
    requires PcOk(c, pages, root, g, pend, pc) && pc.Apply? && pc.pending.Some?
    ensures FramesOk(c, pages, root, g, pc.job, pc.meta, pc.frames) && pc.frames != [] && Top(pc.frames).node.Internal?
  {
    hide Waiting;
  }

  lemma InnerBags(n: Node, at: nat, key: Key, child: PageId)
    requires n.Internal?
    ensures Bag(n) == multiset{} && Bag(InternalInsert(n, at, key, child)) == multiset{}
  {
  }

  lemma GoAccount(c: Config, s: State, s': State, t: Tid, g: Shape, g': Shape)
    requires t in s.threads && !s.threads[t].pc.WriteLeft?
    requires Stored(s'.pages, LeafPages(g')) == Stored(s.pages, LeafPages(g))
    ensures Balanced(s, s', g, g', Brought(c, s, t, Go), multiset{})
  {
    hide Gain;
    hide Stored;
    hide LeafPages;
    hide InPlace;
  }

  /** Steps that write no page. */
  lemma QuietBalanced(c: Config, s: State, s': State, t: Tid, a: Action, g: Shape)
    requires Next(c, s, t, a) == Some(s') && !a.Go? && !a.InsertAtPos? && !a.MergeRun? && !a.Rewrite?
    ensures Balanced(s, s', g, g, Brought(c, s, t, a), multiset{})
  {
    hide Stored;
    hide LeafPages;
    hide PcHeld;
    hide PutResult;
  }

  lemma TookNothing(s: State, t: Tid, a: Action)
    requires !a.Rewrite?
    ensures Took(s, t, a) == multiset{}
  {
  }

  /** Every step of every thread changes what the leaves hold by exactly what it adds and removes. */
  lemma StepConserves(c: Config, s: State, s': State, t: Tid, a: Action, g: Shape, pend: set<PageId>, base: set<Entry>,
                      g': Shape)
    requires Inv(c, s, g, pend, base) && Next(c, s, t, a) == Some(s')
    requires LeafPages(g') == LeafPages(g) + NewLeaf(s, t, a)
    ensures Balanced(s, s', g, g', Brought(c, s, t, a), Took(s, t, a))
  {
    hide *;
    NextKnows(c, s, t, a);
    NewLeafParts(s, t, a);
    if a.Go? && s.threads[t].pc.WriteLeft? {
      TookNothing(s, t, a);
      LeftBalanced(c, s, s', t, g, g', pend, base);
    } else {
      assert LeafPages(g) + {} == LeafPages(g);
      match a
      case InsertAtPos(_) =>
        TookNothing(s, t, a);
        InsertBalanced(c, s, s', t, a, g, pend, base);
        SameLeaves(s, s', g, g', Brought(c, s, t, a), Took(s, t, a));
      case MergeRun =>
        TookNothing(s, t, a);
        InsertBalanced(c, s, s', t, a, g, pend, base);
        SameLeaves(s, s', g, g', Brought(c, s, t, a), Took(s, t, a));
      case Rewrite(edits) =>
        RewriteBalanced(c, s, s', t, edits, g, pend, base);
        SameLeaves(s, s', g, g', Brought(c, s, t, a), Took(s, t, a));
      case Go =>
        TookNothing(s, t, a);
        GoBalanced(c, s, s', t, g, g', pend, base);
      case _ =>
        TookNothing(s, t, a);
        QuietBalanced(c, s, s', t, a, g);
        SameLeaves(s, s', g, g', Brought(c, s, t, a), Took(s, t, a));
    }
  }

  lemma SameLeaves(s: State, s': State, g: Shape, g': Shape, brought: multiset<Entry>, took: multiset<Entry>)
    requires Balanced(s, s', g, g, brought, took) && LeafPages(g') == LeafPages(g)
    ensures Balanced(s, s', g, g', brought, took)
  {
    hide Stored;
    hide LeafPages;
  }

  // ── whole runs ─────────────────────────────────────────────────────────────

  function BroughtIn(c: Config, s: State, steps: Schedule): multiset<Entry>
    decreases |steps|
  {
    if steps == [] then multiset{}
    else
      match Next(c, s, steps[0].0, steps[0].1)
      case None => multiset{}
      case Some(s') => Brought(c, s, steps[0].0, steps[0].1) + BroughtIn(c, s', steps[1..])
  }

  function TookIn(c: Config, s: State, steps: Schedule): multiset<Entry>
    decreases |steps|
  {
    if steps == [] then multiset{}
    else
      match Next(c, s, steps[0].0, steps[0].1)
      case None => multiset{}
      case Some(s') => Took(s, steps[0].0, steps[0].1) + TookIn(c, s', steps[1..])
  }

  lemma BalancedOn(s: State, m: State, s': State, g: Shape, gm: Shape, g': Shape, b: multiset<Entry>,
                   k: multiset<Entry>,
                   b': multiset<Entry>, k': multiset<Entry>)
    requires Balanced(s, m, g, gm, b, k) && Balanced(m, s', gm, g', b', k')
    ensures Balanced(s, s', g, g', b + b', k + k')
  {
    hide Stored;
    hide LeafPages;
    BagChain(Stored(s.pages, LeafPages(g)), Stored(m.pages, LeafPages(gm)), Stored(s'.pages, LeafPages(g')), k, b, k',
             b');
  }

  /** What the leaves hold after a schedule is what they held before, plus all additions, minus all removals. */
  lemma {:induction false} RunConserves(c: Config, s: State, s': State, steps: Schedule, g: Shape, pend: set<PageId>,
                                        base: set<Entry>)
    returns (g': Ghosts)
    requires Inv(c, s, g, pend, base) && Run(c, s, steps) == Some(s')
    ensures Inv(c, s', g'.g, g'.pend, base)
    ensures Balanced(s, s', g, g'.g, BroughtIn(c, s, steps), TookIn(c, s, steps)) && LeafPages(g) <= LeafPages(g'.g)
    decreases |steps|
  {
    hide Inv;
    hide Next;
    hide Brought;
    hide Took;
    hide Stored;
    hide LeafPages;
    hide NewLeaf;
    if steps == [] {
      g' := Ghosts(g, pend);
    } else {
      var t, a := steps[0].0, steps[0].1;
      var mid := Next(c, s, t, a).value;
      var gm := StepKeeps(c, s, mid, t, a, g, pend, base);
      StepConserves(c, s, mid, t, a, g, pend, base, gm.g);
      assert Inv(c, mid, gm.g, gm.pend, base);
      g' := RunConserves(c, mid, s', steps[1..], gm.g, gm.pend, base);
      BalancedOn(s, mid, s', g, gm.g, g'.g, Brought(c, s, t, a), Took(s, t, a), BroughtIn(c, mid, steps[1..]),
                 TookIn(c, mid, steps[1..]));
    }
  }

  /**
    From a tree at rest, after any schedule of any threads: each pair is stored exactly as
    often as it was, plus the times it was added, minus the times it was removed; and it is
    found in the tree exactly if that is more than zero.
   */
  lemma ExactAccount(c: Config, s: State, s': State, steps: Schedule, g: Shape, e: Entry) returns (g': Ghosts)
    requires AtRest(c, s, g) && Run(c, s, steps) == Some(s')
    ensures TreeInv(s'.pages, s'.root, g'.g, g'.pend, c.kind)
    ensures Stored(s'.pages, LeafPages(g'.g))[e] + TookIn(c, s, steps)[e] ==
              Stored(s.pages, LeafPages(g))[e] + BroughtIn(c, s, steps)[e]
    ensures e in Pairs(Rows(s'.pages, g'.g)) <==>
              TookIn(c, s, steps)[e] < Stored(s.pages, LeafPages(g))[e] + BroughtIn(c, s, steps)[e]
  {
    hide *;
    var base := Pairs(Rows(s.pages, g));
    AtRestInv(c, s, g);
    g' := RunConserves(c, s, s', steps, g, {}, base);
    TreeCovers(c, s', g'.g, g'.pend, base);
    StoredPairs(s'.pages, s'.root, g'.g, g'.pend, c.kind, e);
    BalancedAt(s, s', g, g'.g, BroughtIn(c, s, steps), TookIn(c, s, steps), e);
  }

  lemma BalancedAt(s: State, s': State, g: Shape, g': Shape, brought: multiset<Entry>, took: multiset<Entry>, e: Entry)
    requires Balanced(s, s', g, g', brought, took)
    ensures Stored(s'.pages, LeafPages(g'))[e] + took[e] == Stored(s.pages, LeafPages(g))[e] + brought[e]
    ensures e in Stored(s'.pages, LeafPages(g')) <==> Stored(s'.pages, LeafPages(g'))[e] > 0
  {
    hide Stored;
    hide LeafPages;
    assert (Stored(s'.pages, LeafPages(g')) + took)[e] == (Stored(s.pages, LeafPages(g)) + brought)[e];
  }

  /**
    From a new tree, once every job has returned, the tree holds exactly the pairs that were
    added more often than they were removed: a pair taken away and written again is there.
   */
  lemma FreshAccount(c: Config, s: State, s': State, root: PageId, threads: set<Tid>, steps: Schedule)
    returns (depth: nat, rows: seq<Row>)
    requires FreshStart(s, root, threads) && Run(c, s, steps) == Some(s') && Quiet(s')
    ensures WellFormed(s'.pages, s'.root, depth, rows)
    ensures forall e :: e in PairSet(rows) <==> TookIn(c, s, steps)[e] < BroughtIn(c, s, steps)[e]
  {
    hide *;
    var g := FreshRest(c, s, root, threads);
    AtRestInv(c, s, g);
    var base := Pairs(Rows(s.pages, g));
    var gg := RunConserves(c, s, s', steps, g, {}, base);
    TreeCovers(c, s', gg.g, gg.pend, base);
    NothingOwed(s', gg.pend);
    depth, rows := ShapeMeansTree(s'.pages, s'.root, gg.g, c.kind);
    forall e ensures e in PairSet(rows) <==> TookIn(c, s, steps)[e] < BroughtIn(c, s, steps)[e] {
      StoredPairs(s'.pages, s'.root, gg.g, {}, c.kind, e);
      BalancedAt(s, s', g, gg.g, BroughtIn(c, s, steps), TookIn(c, s, steps), e);
      RowsArePairs(s'.pages, gg.g, rows);
    }
  }

  lemma RowsArePairs(pages: Pages, g: Shape, rows: seq<Row>)
    requires Rows(pages, g) == set r | r in rows
    ensures Pairs(Rows(pages, g)) == PairSet(rows)
  {
    hide Rows;
  }

  lemma FreshRest(c: Config, s: State, root: PageId, threads: set<Tid>) returns (g: Shape)
    requires FreshStart(s, root, threads)
    ensures AtRest(c, s, g) && Stored(s.pages, LeafPages(g)) == multiset{}
  {
    hide TreeInv;
    g := FreshShape(root);
    FreshTree(root, c.kind);
    forall e ensures e !in Stored(s.pages, LeafPages(g)) {
      StoredIn(s.pages, LeafPages(g), e);
    }
  }
}
