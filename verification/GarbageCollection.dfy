/** `gc` of src/domain/recovery.ts, on any commit table: rows may be missing and chains may be cyclic. */
module GarbageCollection {
  import opened Prelude
  import opened Storage
  import opened Protocol
  import opened RepositoryModel
  import opened Recovery

  type Rows = map<CommitId, CommitRow>

  // ---------------------------------------------------------------- what is reachable

  /** `listGcRoots`: the heads of all refs and the base commits of runtimes that are not settled. */
  function Roots(db: Tables): set<CommitId> {
    (set w | w in db.refs :: db.refs[w]) +
    (set i | i in db.instances && !Settled(db.instances[i].state) :: db.instances[i].base)
  }

  predicate Settled(state: InstanceState) {
    state.Terminated? || state.Broken? || state.Lost?
  }

  /** Some root leads to the commit along parent columns. */
  ghost predicate Kept(rows: Rows, roots: set<CommitId>, c: CommitId) {
    exists r :: r in roots && OnHistory(rows, r, c)
  }

  function Parents(rows: Rows): set<CommitId> {
    set c | c in rows && rows[c].parent.Some? :: rows[c].parent.value
  }

  ghost predicate ClosedUnderParents(rows: Rows, marked: set<CommitId>) {
    forall c :: c in marked && c in rows && rows[c].parent.Some? ==> rows[c].parent.value in marked
  }

  lemma {:induction false} ClosedContainsHistory(rows: Rows, marked: set<CommitId>, r: CommitId, n: nat)
    requires ClosedUnderParents(rows, marked) && r in marked && Nth(rows, r, n).Some?
    ensures Nth(rows, r, n).value in marked
  {
    if n > 0 { ClosedContainsHistory(rows, marked, r, n - 1); }
  }

  lemma RootIsKept(rows: Rows, roots: set<CommitId>, r: CommitId)
    requires r in roots
    ensures Kept(rows, roots, r)
  {
    assert Nth(rows, r, 0) == Some(r);
  }

  lemma KeptParent(rows: Rows, roots: set<CommitId>, c: CommitId)
    requires Kept(rows, roots, c) && c in rows && rows[c].parent.Some?
    ensures Kept(rows, roots, rows[c].parent.value)
  {
    var r :| r in roots && OnHistory(rows, r, c);
    var n: nat :| Nth(rows, r, n) == Some(c);
    assert Nth(rows, r, n + 1) == rows[c].parent;
  }

  /** Everything the roots lead to, that the roots and the parent column mention. */
  ghost function KeptSet(rows: Rows, roots: set<CommitId>): (kept: set<CommitId>)
    ensures roots <= kept <= roots + Parents(rows)
    ensures forall c {:trigger Next(rows, c)} {:trigger Kept(rows, roots, c)} :: c in kept ==>
      Kept(rows, roots, c) && Next(rows, c) <= kept
  {
    var kept := set c | c in roots + Parents(rows) && Kept(rows, roots, c);
    assert roots <= kept by {
      forall r | r in roots ensures Kept(rows, roots, r) { RootIsKept(rows, roots, r); }
    }
    assert forall c {:trigger Next(rows, c)} :: c in kept ==> Next(rows, c) <= kept by {
      forall c | c in kept && Next(rows, c) != {} ensures Next(rows, c) <= kept { KeptParent(rows, roots, c); }
    }
    kept
  }

  function Next(rows: Rows, id: CommitId): set<CommitId> {
    if id in rows && rows[id].parent.Some? then {rows[id].parent.value} else {}
  }

  /** The worklist invariant: only kept commits are marked or pending, and no parent of a marked commit is forgotten. */
  ghost predicate Marking(rows: Rows, roots: set<CommitId>, kept: set<CommitId>, pending: set<CommitId>,
                          marked: set<CommitId>) {
    pending + marked <= kept && roots <= pending + marked &&
    forall c {:trigger Next(rows, c)} :: c in marked ==> Next(rows, c) <= pending + marked
  }

  lemma MarkOne(rows: Rows, roots: set<CommitId>, kept: set<CommitId>, pending: set<CommitId>, marked: set<CommitId>,
                id: CommitId)
    requires Marking(rows, roots, kept, pending + {id}, marked) && Next(rows, id) <= kept
    ensures Marking(rows, roots, kept, pending + Next(rows, id), marked + {id})
    ensures id in marked ==> Marking(rows, roots, kept, pending, marked)
  {
    if id in marked {
      assert pending + {id} + marked == pending + marked;
    }
  }

  lemma MarkedAll(rows: Rows, roots: set<CommitId>, marked: set<CommitId>, c: CommitId)
    requires Marking(rows, roots, KeptSet(rows, roots), {}, marked)
    ensures c in marked <==> Kept(rows, roots, c)
  {
    if Kept(rows, roots, c) {
      var r :| r in roots && OnHistory(rows, r, c);
      var n: nat :| Nth(rows, r, n) == Some(c);
      forall d | d in marked && d in rows && rows[d].parent.Some? ensures rows[d].parent.value in marked {
        assert Next(rows, d) == {rows[d].parent.value};
      }
      ClosedContainsHistory(rows, marked, r, n);
    }
  }

  function Elements(xs: seq<CommitId>): set<CommitId> {
    set x | x in xs
  }

  lemma PoppedElements(xs: seq<CommitId>)
    requires |xs| > 0
    ensures Elements(xs) == Elements(xs[..|xs| - 1]) + {xs[|xs| - 1]}
  {
    assert xs == xs[..|xs| - 1] + [xs[|xs| - 1]];
  }

  /** The parent of the commit, if it has one, goes on the worklist. */
  function Pushed(rows: Rows, pending: seq<CommitId>, id: CommitId): (r: seq<CommitId>)
    ensures Elements(r) == Elements(pending) + Next(rows, id)
  {
    if id in rows && rows[id].parent.Some? then
      var r := pending + [rows[id].parent.value];
      assert forall c :: c in r <==> c in pending || c == rows[id].parent.value;
      r
    else pending
  }

  /** The worklist loop. It ends on every table, whatever commits `kept` it moves among. */
  method Mark(rows: Rows, roots: set<CommitId>, ghost kept: set<CommitId>) returns (marked: set<CommitId>)
    requires roots <= kept && forall c {:trigger Next(rows, c)} :: c in kept ==> Next(rows, c) <= kept
    ensures Marking(rows, roots, kept, {}, marked)
  {
    var pending: seq<CommitId> := SetToSeq(roots);
    marked := {};
    ghost var queue := roots;
    while |pending| > 0
      invariant Elements(pending) == queue
      invariant Marking(rows, roots, kept, queue, marked)
      decreases |kept - marked|, |pending|
    {
      var id := pending[|pending| - 1];
      PoppedElements(pending);
      pending := pending[..|pending| - 1];
      MarkOne(rows, roots, kept, Elements(pending), marked, id);
      if id in marked {
        queue := Elements(pending);
      } else {
        SmallerSet(kept - (marked + {id}), kept - marked);
        queue := Elements(pending) + Next(rows, id);
        marked := marked + {id};
        pending := Pushed(rows, pending, id);
      }
    }
  }

  /** What `gc` marks: exactly what the roots lead to. */
  method MarkReachable(rows: Rows, roots: set<CommitId>) returns (marked: set<CommitId>)
    ensures forall c :: c in marked <==> Kept(rows, roots, c)
  {
    marked := Mark(rows, roots, KeptSet(rows, roots));
    forall c ensures c in marked <==> Kept(rows, roots, c) {
      MarkedAll(rows, roots, marked, c);
    }
  }

  method SetToSeq<T>(s: set<T>) returns (xs: seq<T>)
    ensures forall x :: x in xs <==> x in s
    ensures forall i, j :: 0 <= i < j < |xs| ==> xs[i] != xs[j]
  {
    xs := [];
    var rest := s;
    while rest != {}
      invariant rest <= s
      invariant forall x :: x in xs <==> x in s && x !in rest
      invariant forall i, j :: 0 <= i < j < |xs| ==> xs[i] != xs[j]
      decreases |rest|
    {
      var x :| x in rest;
      rest := rest - {x};
      xs := xs + [x];
    }
  }

  // ---------------------------------------------------------------- the deletion order

  ghost predicate Acyclic(rows: Rows) {
    forall c, n: nat :: n > 0 ==> Nth(rows, c, n) != Some(c)
  }

  /** The number of ancestors: the chain of `c` ends after that many parents. */
  ghost predicate IsDepth(rows: Rows, c: CommitId, d: nat) {
    Nth(rows, c, d).Some? && Nth(rows, c, d + 1).None?
  }

  lemma DepthUnique(rows: Rows, c: CommitId, d: nat, e: nat)
    requires IsDepth(rows, c, d) && IsDepth(rows, c, e)
    ensures d == e
  {
    if d < e { EndedStays(rows, c, d + 1, e); }
    if e < d { EndedStays(rows, c, e + 1, d); }
  }

  /** A child is one deeper than its parent. */
  lemma ParentIsShallower(rows: Rows, c: CommitId, d: nat, e: nat)
    requires c in rows && rows[c].parent.Some? && IsDepth(rows, c, d) && IsDepth(rows, rows[c].parent.value, e)
    ensures d == e + 1
  {
    var p := rows[c].parent.value;
    NthShift(rows, c, p, e);
    NthShift(rows, c, p, e + 1);
    DepthUnique(rows, c, d, e + 1);
  }

  lemma {:induction false} NthAdd(rows: Rows, a: CommitId, m: nat, b: CommitId, n: nat)
    requires Nth(rows, a, m) == Some(b)
    ensures Nth(rows, a, m + n) == Nth(rows, b, n)
  {
    if n > 0 { NthAdd(rows, a, m, b, n - 1); } else { assert Nth(rows, b, 0) == Some(b); }
  }

  /** `depthOf`; the seen set ends the walk on a cyclic chain. */
  method DepthOf(rows: Rows, id: CommitId) returns (depth: nat)
    ensures Acyclic(rows) ==> IsDepth(rows, id, depth)
  {
    depth := 0;
    var current := if id in rows then rows[id].parent else None;
    var seen: set<CommitId> := {};
    assert Nth(rows, id, 0) == Some(id);
    while current.Some? && current.value !in seen
      invariant current == Nth(rows, id, depth + 1)
      invariant forall j: nat :: j <= depth ==> Nth(rows, id, j).Some?
      invariant forall c :: c in seen ==> exists j: nat :: 0 < j <= depth && Nth(rows, id, j) == Some(c)
      invariant seen <= Parents(rows)
      decreases |Parents(rows) - seen|
    {
      ghost var before := seen;
      seen := seen + {current.value};
      depth := depth + 1;
      current := if current.value in rows then rows[current.value].parent else None;
      assert Nth(rows, id, depth).value in Parents(rows) by { assert Nth(rows, id, depth - 1).value in rows; }
      SmallerSet(Parents(rows) - seen, Parents(rows) - before);
    }
    if current.Some? {
      var j: nat :| 0 < j <= depth && Nth(rows, id, j) == current;
      NthAdd(rows, id, j, current.value, depth + 1 - j);
    }
  }

  method InsertByDepth(depths: map<CommitId, nat>, order: seq<CommitId>, id: CommitId) returns (longer: seq<CommitId>)
    requires Descending(depths, order) && id in depths
    ensures Descending(depths, longer) && Elements(longer) == Elements(order) + {id} && |longer| == |order| + 1
  {
    var at := 0;
    while at < |order| && depths[order[at]] >= depths[id]
      invariant 0 <= at <= |order|
      invariant forall i :: 0 <= i < at ==> depths[order[i]] >= depths[id]
    {
      at := at + 1;
    }
    InsertElements(order, at, id);
    longer := order[..at] + [id] + order[at..];
  }

  /** `depthOf` of every commit in the set. */
  method Depths(rows: Rows, commits: set<CommitId>) returns (depths: map<CommitId, nat>)
    ensures depths.Keys == commits
    ensures Acyclic(rows) ==> DepthsOk(rows, depths)
  {
    depths := map[];
    var rest := commits;
    while rest != {}
      invariant rest <= commits && depths.Keys == commits - rest
      invariant Acyclic(rows) ==> DepthsOk(rows, depths)
      decreases |rest|
    {
      var id :| id in rest;
      rest := rest - {id};
      var depth := DepthOf(rows, id);
      depths := depths[id := depth];
    }
  }

  /** `sort` by descending depth: every commit once, deepest first. */
  method SortByDepth(depths: map<CommitId, nat>) returns (order: seq<CommitId>)
    ensures Elements(order) == depths.Keys && |order| == |depths.Keys|
    ensures Descending(depths, order)
  {
    var rest := depths.Keys;
    order := [];
    while rest != {}
      invariant rest <= depths.Keys && Elements(order) == depths.Keys - rest && |order| == |depths.Keys| - |rest|
      invariant Descending(depths, order)
      decreases |rest|
    {
      var id :| id in rest;
      rest := rest - {id};
      order := InsertByDepth(depths, order, id);
    }
  }

  ghost predicate DepthsOk(rows: Rows, depths: map<CommitId, nat>) {
    forall c :: c in depths ==> IsDepth(rows, c, depths[c])
  }

  predicate Descending(depths: map<CommitId, nat>, order: seq<CommitId>) {
    (forall i :: 0 <= i < |order| ==> order[i] in depths) &&
    forall i, j :: 0 <= i < j < |order| ==> depths[order[i]] >= depths[order[j]]
  }

  ghost predicate DeepestFirst(rows: Rows, order: seq<CommitId>) {
    forall i, j, d: nat, e: nat :: 0 <= i < j < |order| && IsDepth(rows, order[i], d) && IsDepth(rows, order[j], e) ==>
      d >= e
  }

  lemma InsertElements(xs: seq<CommitId>, at: nat, x: CommitId)
    requires at <= |xs|
    ensures Elements(xs[..at] + [x] + xs[at..]) == Elements(xs) + {x}
  {
    assert xs == xs[..at] + xs[at..];
  }

  lemma DescendingIsDeepestFirst(rows: Rows, depths: map<CommitId, nat>, order: seq<CommitId>)
    requires Descending(depths, order) && DepthsOk(rows, depths)
    ensures DeepestFirst(rows, order)
  {
    forall i, j, d: nat, e: nat | 0 <= i < j < |order| && IsDepth(rows, order[i], d) && IsDepth(rows, order[j], e)
      ensures d >= e
    {
      DepthUnique(rows, order[i], d, depths[order[i]]);
      DepthUnique(rows, order[j], e, depths[order[j]]);
    }
  }

  // ---------------------------------------------------------------- deleting under foreign keys

  /** A runtime row or a turn row names the commit. */
  predicate Pinned(db: Tables, id: CommitId) {
    (exists i :: i in db.instances && db.instances[i].base == id) ||
    (exists k :: k in db.turns && db.turns[k].expectedHead == Some(id))
  }

  predicate HasChild(rows: Rows, id: CommitId) {
    exists c :: c in rows && c != id && rows[c].parent == Some(id)
  }

  /** SQLite refuses to delete a commit another row refers to. */
  predicate DeleteRefused(db: Tables, id: CommitId) {
    HasChild(db.commits, id) || (exists w :: w in db.refs && db.refs[w] == id) || Pinned(db, id)
  }

  /** What the garbage collector has when it starts to delete commits. */
  ghost predicate Plan(rows: Rows, roots: set<CommitId>, depths: map<CommitId, nat>, order: seq<CommitId>) {
    (forall c :: c in depths <==> c in rows && !Kept(rows, roots, c)) &&
    Elements(order) == depths.Keys && |order| == |depths.Keys| && Descending(depths, order)
  }

  /** Deepest first, no remaining row names the next victim as its parent. */
  lemma NoChildRemains(rows: Rows, roots: set<CommitId>, depths: map<CommitId, nat>, order: seq<CommitId>, n: nat)
    requires Plan(rows, roots, depths, order) && DepthsOk(rows, depths) && n < |order|
    ensures !HasChild(rows - Elements(order[..n]), order[n])
  {
    var id := order[n];
    forall c | c in rows && c !in Elements(order[..n]) && c != id ensures rows[c].parent != Some(id) {
      if rows[c].parent == Some(id) {
        assert id in Elements(order);
        if Kept(rows, roots, c) { KeptParent(rows, roots, c); }
        assert c in Elements(order);
        var m :| 0 <= m < |order| && order[m] == c;
        assert m >= n;
        ParentIsShallower(rows, c, depths[c], depths[id]);
      }
    }
  }

  lemma TakeOneMore(order: seq<CommitId>, n: nat)
    requires n < |order|
    ensures Elements(order[..n + 1]) == Elements(order[..n]) + {order[n]}
  {
    assert order[..n + 1] == order[..n] + [order[n]];
  }

  /** The n-th deletion is refused when the ones before it were carried out. */
  ghost predicate RefusedAt(db: Tables, order: seq<CommitId>, n: nat)
    requires n < |order|
  {
    DeleteRefused(db.(commits := db.commits - Elements(order[..n])), order[n])
  }

  /** All of `order` was deleted, or everything before the first refusal. */
  ghost predicate Deleted(was: Tables, now: Tables, order: seq<CommitId>, refused: Option<CommitId>) {
    now == was.(commits := now.commits) &&
    match refused
    case None =>
      now.commits == was.commits - Elements(order) &&
      (forall n :: 0 <= n < |order| ==> !RefusedAt(was, order, n))
    case Some(id) =>
      exists n ::
        0 <= n < |order| && id == order[n] && RefusedAt(was, order, n) &&
        now.commits == was.commits - Elements(order[..n])
  }

  lemma RefusedOnlyWhenPinned(db: Tables, depths: map<CommitId, nat>, order: seq<CommitId>, n: nat)
    requires Plan(db.commits, Roots(db), depths, order) && DepthsOk(db.commits, depths) && n < |order|
    ensures RefusedAt(db, order, n) <==> Pinned(db, order[n])
  {
    NoChildRemains(db.commits, Roots(db), depths, order, n);
    var id := order[n];
    assert id in Elements(order);
    forall w | w in db.refs ensures db.refs[w] != id {
      RootIsKept(db.commits, Roots(db), db.refs[w]);
    }
  }

  lemma RefusedIffPinned(db: Tables, now: Tables, depths: map<CommitId, nat>, order: seq<CommitId>,
                         refused: Option<CommitId>)
    requires Plan(db.commits, Roots(db), depths, order) && DepthsOk(db.commits, depths)
    requires Deleted(db, now, order, refused)
    ensures refused.None? <==> PinsKept(db.commits, db)
  {
    forall n | 0 <= n < |order| ensures RefusedAt(db, order, n) <==> Pinned(db, order[n]) {
      RefusedOnlyWhenPinned(db, depths, order, n);
    }
    forall n | 0 <= n < |order| ensures order[n] in db.commits && !Kept(db.commits, Roots(db), order[n]) {
      assert order[n] in Elements(order);
    }
    forall c | c in db.commits && !Kept(db.commits, Roots(db), c)
      ensures exists n :: 0 <= n < |order| && order[n] == c
    {
      assert c in Elements(order);
    }
  }

  /** Every foreign key that leads to a commit finds it. */
  ghost predicate ForeignKeysOk(db: Tables) {
    (forall c :: c in db.commits && db.commits[c].parent.Some? ==> db.commits[c].parent.value in db.commits) &&
    (forall w :: w in db.refs ==> db.refs[w] in db.commits) &&
    (forall i :: i in db.instances ==> db.instances[i].base in db.commits) &&
    (forall k :: k in db.turns && db.turns[k].expectedHead.Some? ==> db.turns[k].expectedHead.value in db.commits)
  }

  /** A deletion that is not refused leaves no foreign key without its commit. */
  lemma DeleteKeepsForeignKeys(db: Tables, id: CommitId)
    requires ForeignKeysOk(db) && !DeleteRefused(db, id)
    ensures ForeignKeysOk(db.(commits := db.commits - {id}))
  {
  }

  class GarbageCollector {
    const repository: Repository
    /** The files under the tree directory, by path. */
    var treeFiles: set<TreeDigest>

    constructor (r: Repository, files: set<TreeDigest>)
      ensures repository == r && treeFiles == files
    {
      repository := r;
      treeFiles := files;
    }

    /** Deletes the commits in order; the first refusal throws and ends the collection. */
    method DeleteCommits(order: seq<CommitId>) returns (refused: Option<CommitId>)
      modifies repository
      ensures Deleted(old(repository.db), repository.db, order, refused)
      ensures ForeignKeysOk(old(repository.db)) ==> ForeignKeysOk(repository.db)
    {
      hide ForeignKeysOk;
      ghost var was := repository.db;
      var n := 0;
      while n < |order|
        invariant 0 <= n <= |order| && (ForeignKeysOk(was) ==> ForeignKeysOk(repository.db))
        invariant repository.db == was.(commits := was.commits - Elements(order[..n]))
        invariant forall m :: 0 <= m < n ==> !RefusedAt(was, order, m)
      {
        if DeleteRefused(repository.db, order[n]) {
          return Some(order[n]);
        }
        TakeOneMore(order, n);
        if ForeignKeysOk(repository.db) { DeleteKeepsForeignKeys(repository.db, order[n]); }
        repository.db := repository.db.(commits := repository.db.commits - {order[n]});
        assert was.commits - Elements(order[..n]) - {order[n]} == was.commits - Elements(order[..n + 1]);
        n := n + 1;
      }
      assert order[..n] == order;
      return None;
    }

    /** Files no tree row tracks, then tree rows of no marked commit and their files. */
    method CollectTrees(marked: set<CommitId>)
      modifies this, repository
      ensures repository.db == old(repository.db).(trees := MarkedTrees(old(repository.db), marked))
      ensures treeFiles == old(treeFiles) * Paths(old(repository.db.trees)) -
                           Paths(old(repository.db.trees) - repository.db.trees.Keys)
    {
      var db := repository.db;
      treeFiles := treeFiles * Paths(db.trees);
      var doomed := set t | t in db.trees && t !in TreesOf(db.commits, marked);
      treeFiles := treeFiles - Paths(map t | t in doomed :: db.trees[t]);
      repository.db := db.(trees := db.trees - doomed);
      assert db.trees - repository.db.trees.Keys == map t | t in doomed :: db.trees[t];
    }

    /** Unmarked commit rows go, deepest first. */
    method CollectCommits(marked: set<CommitId>) returns (refused: Option<CommitId>)
      requires forall c :: c in marked <==> Kept(repository.db.commits, Roots(repository.db), c)
      modifies repository
      ensures CommitsCollected(old(repository.db), repository.db, marked, refused)
      ensures Acyclic(old(repository.db.commits)) ==>
        (refused.None? <==> PinsKept(old(repository.db.commits), old(repository.db)))
      ensures ForeignKeysOk(old(repository.db)) ==> ForeignKeysOk(repository.db)
    {
      hide ForeignKeysOk;
      ghost var was := repository.db;
      var rows := repository.db.commits;
      var depths := Depths(rows, rows.Keys - marked);
      var order := SortByDepth(depths);
      refused := DeleteCommits(order);
      DeletedIsCollected(was, repository.db, marked, order, refused);
      if Acyclic(rows) { RefusedIffPinned(was, repository.db, depths, order, refused); }
    }

    /** The whole collection. Kept commits and their trees stay; on an acyclic table the deletions succeed
        exactly when no runtime or turn row names a commit that is not kept. */
    method Gc() returns (refused: Option<CommitId>)
      modifies this, repository
      ensures Collects(old(repository.db), repository.db, refused)
      ensures KeepsLive(old(repository.db), repository.db)
      ensures refused.None? ==> OnlyNeeded(old(repository.db), repository.db)
      ensures ForeignKeysOk(old(repository.db)) ==> ForeignKeysOk(repository.db)
      ensures treeFiles == old(treeFiles) * Paths(old(repository.db.trees)) -
                           Paths(old(repository.db.trees) - repository.db.trees.Keys)
    {
      hide CleanedUp, Kept, Acyclic, PinsKept, CommitsCollected, Collects, Roots, MarkedTrees, ForeignKeysOk, KeepsLive;
      hide OnlyNeeded, Collection;
      var manager := new RecoveryManager(repository);
      manager.CleanupFinishedTurnRuntimes();
      ghost var cleaned := repository.db;
      var marked := MarkReachable(repository.db.commits, Roots(repository.db));
      CollectTrees(marked);
      ghost var pruned := repository.db;
      SameRoots(cleaned, pruned);
      if ForeignKeysOk(old(repository.db)) { CleanedForeignKeys(old(repository.db), cleaned, pruned); }
      refused := CollectCommits(marked);
      CollectedAsPlanned(cleaned, pruned, repository.db, marked, refused);
      PinsOfRows(pruned, repository.db);
      CollectionOfCleaned(old(repository.db), cleaned, repository.db, refused);
      CollectionKeepsLive(old(repository.db), repository.db, refused);
    }
  }

  function TreesOf(rows: Rows, marked: set<CommitId>): set<TreeDigest> {
    set c | c in rows && c in marked :: rows[c].tree
  }

  function MarkedTrees(db: Tables, marked: set<CommitId>): map<TreeDigest, TreeRow> {
    map t | t in db.trees && t in TreesOf(db.commits, marked) :: db.trees[t]
  }

  /** Marked rows stay, nothing is added, and without a refusal only marked rows stay. */
  ghost predicate CommitsCollected(was: Tables, now: Tables, marked: set<CommitId>, refused: Option<CommitId>) {
    now == was.(commits := now.commits) &&
    (forall c :: c in now.commits ==>
     c in was.commits && now.commits[c] == was.commits[c] && (refused.None? ==> c in marked)) &&
    (forall c :: c in was.commits && c in marked ==> c in now.commits) &&
    (refused.Some? ==> refused.value in was.commits && refused.value !in marked)
  }

  lemma DeletedIsCollected(was: Tables, now: Tables, marked: set<CommitId>, order: seq<CommitId>,
                           refused: Option<CommitId>)
    requires Deleted(was, now, order, refused) && Elements(order) == was.commits.Keys - marked
    ensures CommitsCollected(was, now, marked, refused)
  {
    if refused.Some? {
      var n :| 0 <= n < |order| && refused.value == order[n] &&
        now.commits == was.commits - Elements(order[..n]);
      assert Elements(order[..n]) <= Elements(order) && refused.value in Elements(order);
    }
  }

  lemma SameRoots(db: Tables, db': Tables)
    requires db'.refs == db.refs && db'.instances == db.instances
    ensures Roots(db') == Roots(db)
  {
  }

  lemma PinsOfRows(was: Tables, now: Tables)
    requires now == was.(commits := now.commits)
    ensures PinsKept(was.commits, now) <==> PinsKept(was.commits, was)
  {
    assert Roots(now) == Roots(was);
    hide Kept;
    assert forall c :: Pinned(now, c) == Pinned(was, c);
  }

  lemma CollectedAsPlanned(was: Tables, pruned: Tables, now: Tables, marked: set<CommitId>, refused: Option<CommitId>)
    requires pruned == was.(trees := MarkedTrees(was, marked)) && CommitsCollected(pruned, now, marked, refused)
    requires forall c :: c in marked <==> Kept(was.commits, Roots(was), c)
    ensures Collection(was, now, refused) && now == pruned.(commits := now.commits)
  {
    hide Kept;
    SameRoots(was, now);
  }

  lemma CollectionOfCleaned(was: Tables, cleaned: Tables, now: Tables, refused: Option<CommitId>)
    requires cleaned == was.(instances := cleaned.instances) && Collection(cleaned, now, refused)
    requires CleanedUp(was.turns, was.instances, cleaned.instances) && now.instances == cleaned.instances
    requires Acyclic(was.commits) ==> (refused.None? <==> PinsKept(was.commits, now))
    ensures Collects(was, now, refused)
  {
    hide CleanedUp, Kept, Acyclic, PinsKept, Roots;
  }

  /** What `gc` promises of the tables. */
  ghost predicate Collects(was: Tables, now: Tables, refused: Option<CommitId>) {
    CleanedUp(was.turns, was.instances, now.instances) && Collection(was, now, refused) &&
    (Acyclic(was.commits) ==> (refused.None? <==> PinsKept(was.commits, now)))
  }

  /** The outcome of a collection, in terms of what the roots lead to. */
  ghost predicate Collection(was: Tables, now: Tables, refused: Option<CommitId>) {
    now == was.(instances := now.instances, commits := now.commits, trees := now.trees) &&
    (forall c :: c in now.commits ==>
       c in was.commits && now.commits[c] == was.commits[c] && (refused.None? ==> Kept(was.commits, Roots(now), c))) &&
    (forall c :: c in was.commits && Kept(was.commits, Roots(now), c) ==> c in now.commits) &&
    (refused.Some? ==> refused.value in was.commits && !Kept(was.commits, Roots(now), refused.value)) &&
    (forall t :: t in now.trees <==> t in was.trees && KeptTree(was.commits, Roots(now), t)) &&
    (forall t :: t in now.trees ==> now.trees[t] == was.trees[t])
  }

  /** A runtime in one of the states PROVISIONING, READY, RUNNING, COMMITTING and TERMINATING. */
  predicate InUse(row: Instance) {
    row.state.Provisioning? || row.state.Ready? || row.state.Running? || row.state.Committing? || row.state.Terminating?
  }

  /** From here the commit is needed: a ref or a runtime in use leads to it along parent columns. */
  ghost predicate Needed(rows: Rows, db: Tables, c: CommitId) {
    (exists w :: w in db.refs && OnHistory(rows, db.refs[w], c)) ||
    (exists i :: i in db.instances && InUse(db.instances[i]) && OnHistory(rows, db.instances[i].base, c))
  }

  /** Every needed commit stays with its row and its tree. */
  ghost predicate KeepsLive(was: Tables, now: Tables) {
    forall c :: c in was.commits && Needed(was.commits, now, c) ==>
      c in now.commits && now.commits[c] == was.commits[c] &&
      (was.commits[c].tree in was.trees ==> was.commits[c].tree in now.trees)
  }

  /** No other commit is left. */
  ghost predicate OnlyNeeded(was: Tables, now: Tables) {
    forall c :: c in now.commits ==> Needed(was.commits, now, c)
  }

  lemma NeededIsKept(rows: Rows, db: Tables, c: CommitId)
    ensures Needed(rows, db, c) <==> Kept(rows, Roots(db), c)
  {
    hide OnHistory;
    if Kept(rows, Roots(db), c) {
      var r :| r in Roots(db) && OnHistory(rows, r, c);
    }
    if w :| w in db.refs && OnHistory(rows, db.refs[w], c) {
      assert db.refs[w] in Roots(db);
    }
    if i :| i in db.instances && InUse(db.instances[i]) && OnHistory(rows, db.instances[i].base, c) {
      assert db.instances[i].base in Roots(db);
    }
  }

  lemma CollectionKeepsLive(was: Tables, now: Tables, refused: Option<CommitId>)
    requires Collects(was, now, refused)
    ensures KeepsLive(was, now)
    ensures refused.None? ==> OnlyNeeded(was, now)
  {
    hide Needed, Kept, CleanedUp, Acyclic, PinsKept;
    forall c | c in was.commits && Needed(was.commits, now, c)
      ensures c in now.commits && now.commits[c] == was.commits[c]
      ensures was.commits[c].tree in was.trees ==> was.commits[c].tree in now.trees
    {
      NeededIsKept(was.commits, now, c);
      assert KeptTree(was.commits, Roots(now), was.commits[c].tree);
    }
    if refused.None? {
      forall c | c in now.commits ensures Needed(was.commits, now, c) { NeededIsKept(was.commits, now, c); }
    }
  }

  lemma CleanedForeignKeys(was: Tables, cleaned: Tables, pruned: Tables)
    requires ForeignKeysOk(was) && CleanedUp(was.turns, was.instances, cleaned.instances)
    requires cleaned == was.(instances := cleaned.instances) && pruned == cleaned.(trees := pruned.trees)
    ensures ForeignKeysOk(pruned)
  {
    forall i | i in pruned.instances ensures pruned.instances[i].base in pruned.commits {
      assert CleanedRow(was.turns, i, was.instances[i], cleaned.instances[i]);
    }
  }

  function Paths(trees: map<TreeDigest, TreeRow>): set<TreeDigest> {
    set t | t in trees :: trees[t].path
  }

  ghost predicate KeptTree(rows: Rows, roots: set<CommitId>, t: TreeDigest) {
    exists c :: c in rows && Kept(rows, roots, c) && rows[c].tree == t
  }

  /** Every commit of the table that a runtime or turn row names is kept. */
  ghost predicate PinsKept(rows: Rows, db: Tables) {
    forall c :: c in rows && Pinned(db, c) ==> Kept(rows, Roots(db), c)
  }

  // ---------------------------------------------------------------- collection in the turn protocol

  ghost predicate CanonicalRows(rows: Rows) {
    forall c :: c in rows ==> rows[c] == RowOf(c)
  }

  lemma {:induction false} ShallowerAlongChain(rows: Rows, c: CommitId, n: nat)
    requires CanonicalRows(rows) && Nth(rows, c, n).Some?
    ensures Depth(Nth(rows, c, n).value) + n == Depth(c)
  {
    if n > 0 { ShallowerAlongChain(rows, c, n - 1); }
  }

  /** Rows that say what their digests say cannot form a cycle. */
  lemma CanonicalRowsAcyclic(rows: Rows)
    requires CanonicalRows(rows)
    ensures Acyclic(rows)
  {
    forall c, n: nat | n > 0 && Nth(rows, c, n).Some? ensures Nth(rows, c, n) != Some(c) {
      ShallowerAlongChain(rows, c, n);
    }
  }

  lemma {:induction false} KeptChainStored(was: Tables, now: Tables, refused: Option<CommitId>, c: CommitId)
    requires CanonicalRows(was.commits) && Collection(was, now, refused)
    requires Stored(was.commits, was.trees, c) && Kept(was.commits, Roots(now), c)
    ensures Stored(now.commits, now.trees, c)
    decreases c
  {
    assert KeptTree(was.commits, Roots(now), c.tree);
    if c.parent.Some? {
      KeptParent(was.commits, Roots(now), c);
      KeptChainStored(was, now, refused, c.parent.value);
    }
  }

  /** A collection, refused or not, keeps every commit and tree of every main chain. */
  lemma CollectionKeepsHeads(was: Tables, now: Tables, refused: Option<CommitId>)
    requires CanonicalRows(was.commits) && Collection(was, now, refused) && HeadsStored(was)
    ensures HeadsStored(now)
  {
    forall w | w in now.refs ensures Stored(now.commits, now.trees, now.refs[w]) {
      RootIsKept(was.commits, Roots(now), now.refs[w]);
      KeptChainStored(was, now, refused, now.refs[w]);
    }
  }

  /** It is the `Collect` step of the turn protocol, after runtime rows have changed. */
  lemma CollectionIsCollect(was: Tables, now: Tables, refused: Option<CommitId>)
    requires Collection(was, now, refused)
    ensures now == Collected(was, now.commits.Keys, now.trees.Keys).(instances := now.instances)
  {
    var same := Collected(was, now.commits.Keys, now.trees.Keys);
    assert forall c :: c in same.commits <==> c in now.commits;
    assert forall t :: t in same.trees <==> t in now.trees;
    assert now.commits == same.commits;
    assert now.trees == same.trees;
  }

  const INSTANT_KEY := TurnKey(1, 1)

  /** The tables after a single instant turn that finished: its runtime 7 is TERMINATED, and no thread has a
      workspace. */
  const AFTER_INSTANT := Tables(
    map[EMPTY_COMMIT := RowOf(EMPTY_COMMIT)], map[EMPTY_TREE := TreeRowOf(EMPTY_TREE)], {}, map[], map[],
    map[INSTANT_KEY := Turn(Instant, Finished, 0, Some(7), None, None, None)],
    map[7 := Instance(Instant, Terminated, None, EMPTY_COMMIT, false)], map[])

  /** The base commit of a terminated runtime is not a root, but its row still names the commit. With no thread on the
      empty commit, the collection tries to delete it and is refused. */
  lemma TerminatedRuntimePinsItsBase(now: Tables, refused: Option<CommitId>)
    requires Collects(AFTER_INSTANT, now, refused)
    ensures refused == Some(EMPTY_COMMIT)
  {
    CanonicalRowsAcyclic(AFTER_INSTANT.commits);
    hide Acyclic, Kept;
    assert CleanedRow(AFTER_INSTANT.turns, 7, AFTER_INSTANT.instances[7], now.instances[7]);
    assert now.instances[7].base == EMPTY_COMMIT && now.turns == AFTER_INSTANT.turns;
    assert Roots(now) == {};
    NothingKept(AFTER_INSTANT.commits, EMPTY_COMMIT);
    assert Pinned(now, EMPTY_COMMIT);
  }

  /** Without roots nothing is kept. */
  lemma NothingKept(rows: Rows, c: CommitId)
    ensures !Kept(rows, {}, c)
  {
  }
}
