/** The operations of src/storage/repository.ts that loop or run several statements, on the tables they update. */
module RepositoryModel {
  import opened Prelude
  import opened Storage
  import opened Protocol

  // ---------------------------------------------------------------- the parent chain of any commit table

  /** The n-th identifier on the chain that starts at `head`. The table is arbitrary: rows may be missing or form a
      cycle. */
  function Nth(rows: map<CommitId, CommitRow>, head: CommitId, n: nat): Option<CommitId> {
    if n == 0 then Some(head)
    else
      match Nth(rows, head, n - 1)
      case None => None
      case Some(c) => if c in rows then rows[c].parent else None
  }

  ghost predicate OnHistory(rows: map<CommitId, CommitRow>, head: CommitId, candidate: CommitId) {
    exists n: nat :: Nth(rows, head, n) == Some(candidate)
  }

  /** A chain that returns to a commit it has passed never leaves the commits passed since. */
  lemma {:induction false} CycleRepeats(rows: map<CommitId, CommitRow>, head: CommitId, j: nat, i: nat, n: nat)
    requires j < i <= n && Nth(rows, head, j) == Nth(rows, head, i)
    ensures exists m :: j <= m < i && Nth(rows, head, m) == Nth(rows, head, n)
  {
    if n == i {
      assert Nth(rows, head, j) == Nth(rows, head, n);
    } else {
      CycleRepeats(rows, head, j, i, n - 1);
      var m :| j <= m < i && Nth(rows, head, m) == Nth(rows, head, n - 1);
      assert Nth(rows, head, m + 1) == Nth(rows, head, n);
      if m + 1 == i { assert Nth(rows, head, j) == Nth(rows, head, n); }
    }
  }

  lemma {:induction false} EndedStays(rows: map<CommitId, CommitRow>, head: CommitId, i: nat, n: nat)
    requires i <= n && Nth(rows, head, i) == None
    ensures Nth(rows, head, n) == None
  {
    if i < n { EndedStays(rows, head, i, n - 1); }
  }

  lemma {:induction false} NthShift(rows: map<CommitId, CommitRow>, head: CommitId, next: CommitId, n: nat)
    requires head in rows && rows[head].parent == Some(next)
    ensures Nth(rows, head, n + 1) == Nth(rows, next, n)
  {
    if n == 0 { assert Nth(rows, head, 0) == Some(head); } else { NthShift(rows, head, next, n - 1); }
  }

  /** On rows that say what their identifiers say, the table walk decides ancestry. */
  lemma {:induction false} HistoryIsAncestry(commits: map<CommitId, CommitRow>, trees: map<TreeDigest, TreeRow>,
                                             head: CommitId, candidate: CommitId)
    requires Stored(commits, trees, head) && forall c :: c in commits ==> commits[c] == RowOf(c)
    ensures OnHistory(commits, head, candidate) <==> Ancestor(candidate, head)
    decreases head
  {
    assert Nth(commits, head, 0) == Some(head);
    if candidate == head {
    } else if head.parent.None? {
      forall n: nat ensures Nth(commits, head, n) != Some(candidate) {
        assert Nth(commits, head, 1) == None;
        if n > 1 { EndedStays(commits, head, 1, n); }
      }
    } else {
      var next := head.parent.value;
      HistoryIsAncestry(commits, trees, next, candidate);
      if n: nat :| Nth(commits, next, n) == Some(candidate) {
        NthShift(commits, head, next, n);
      }
      if n: nat :| Nth(commits, head, n) == Some(candidate) {
        NthShift(commits, head, next, n - 1);
      }
    }
  }

  /** The first `i` identifiers of the chain are those in `visited`. */
  ghost predicate Walked(rows: map<CommitId, CommitRow>, head: CommitId, i: nat, visited: set<CommitId>) {
    (forall j: nat :: j < i ==> Nth(rows, head, j).Some? && Nth(rows, head, j).value in visited) &&
    (forall c :: c in visited ==> exists j: nat :: j < i && Nth(rows, head, j) == Some(c))
  }

  /** A walk that stopped at the end of the chain, or at a commit it had passed, has passed the whole chain. */
  lemma WalkedAll(rows: map<CommitId, CommitRow>, head: CommitId, i: nat, visited: set<CommitId>, candidate: CommitId)
    requires Walked(rows, head, i, visited)
    requires Nth(rows, head, i).Some? ==> Nth(rows, head, i).value in visited
    ensures OnHistory(rows, head, candidate) <==> candidate in visited
  {
    if n: nat :| Nth(rows, head, n) == Some(candidate) {
      if i <= n {
        if Nth(rows, head, i).None? {
          EndedStays(rows, head, i, n);
        } else {
          var j: nat :| j < i && Nth(rows, head, j) == Nth(rows, head, i);
          CycleRepeats(rows, head, j, i, n);
        }
      }
    }
  }

  class Repository {
    var db: Tables

    constructor (tables: Tables)
      ensures db == tables
    {
      db := tables;
    }

    /** Walks the parent column from `head`; `visited` ends the walk on a cyclic table. */
    method CommitBelongsToHistory(head: CommitId, candidate: CommitId) returns (found: bool)
      ensures found <==> OnHistory(db.commits, head, candidate)
    {
      var current := Some(head);
      var visited: set<CommitId> := {};
      ghost var i: nat := 0;
      while current.Some? && current.value !in visited
        invariant current == Nth(db.commits, head, i)
        invariant Walked(db.commits, head, i, visited)
        invariant candidate !in visited
        invariant current.Some? ==> visited <= db.commits.Keys
        decreases current.Some?, |db.commits.Keys - visited|
      {
        if current.value == candidate { return true; }
        ghost var before := visited;
        visited := visited + {current.value};
        current := if current.value in db.commits then db.commits[current.value].parent else None;
        i := i + 1;
        if current.Some? { SmallerSet(db.commits.Keys - visited, db.commits.Keys - before); }
      }
      WalkedAll(db.commits, head, i, visited, candidate);
      return false;
    }

    /** The two inserts that do nothing when the row is there; the parent column has to name a stored commit. */
    method InsertRows(p: PublishInput) returns (ok: bool)
      modifies this
      ensures ok <==> p.commit in old(db).commits || p.parent in old(db).commits || p.parent == p.commit
      ensures ok ==> db == WithCommit(old(db), p)
    {
      if p.tree !in db.trees {
        db := db.(trees := db.trees[p.tree := TreeRow(p.tree, p.sizeBytes)]);
      }
      if p.commit !in db.commits {
        db := db.(commits := db.commits[p.commit := CommitRow(p.tree, p.contract, Some(p.parent))]);
        return p.parent in db.commits;
      }
      return true;
    }

    /** One transaction: every statement runs, or the tables are as before. */
    method PublishTurnCommit(p: PublishInput) returns (outcome: PublishOutcome)
      modifies this
      ensures outcome == PublishStatus(old(db), p)
      ensures db == if outcome.Published? then PublishedTables(old(db), p) else old(db)
      ensures outcome.ConstraintFailed? <==>
        p.commit !in old(db).commits && p.parent !in old(db).commits && p.parent != p.commit
      ensures outcome.RefConflict? <==>
        !outcome.ConstraintFailed? && !(p.workspace in old(db).refs && old(db).refs[p.workspace] == p.expectedHead)
      ensures outcome.Published? <==>
        !outcome.ConstraintFailed? && !outcome.RefConflict? && p.key in old(db).turns &&
        var t := old(db).turns[p.key];
        t.state.Finishing? && t.instance == Some(p.instance) && t.workspace == Some(p.workspace) &&
        t.expectedHead == Some(p.expectedHead)
      ensures outcome.Published? ==>
        var was := old(db);
        db.refs == was.refs[p.workspace := p.commit] && db.threads == was.threads && db.workspaces == was.workspaces &&
        db.turns == was.turns[p.key := was.turns[p.key].(state := Finished, result := Some(p.commit))] &&
        db.instances == (if p.instance in was.instances
          then was.instances[p.instance := was.instances[p.instance].(state := Ready)] else was.instances) &&
        db.operations == (if p.key in was.operations then was.operations[p.key := OpSucceeded] else was.operations) &&
        db.commits == (if p.commit in was.commits then was.commits
          else was.commits[p.commit := CommitRow(p.tree, p.contract, Some(p.parent))]) &&
        db.trees == (if p.tree in was.trees then was.trees else was.trees[p.tree := TreeRow(p.tree, p.sizeBytes)])
    {
      var saved := db;
      var inserted := InsertRows(p);
      if !inserted {
        db := saved;
        return ConstraintFailed;
      }
      if p.workspace !in db.refs || db.refs[p.workspace] != p.expectedHead {
        db := saved;
        return RefConflict;
      }
      db := db.(refs := db.refs[p.workspace := p.commit]);
      if p.key !in db.turns || !db.turns[p.key].state.Finishing? || db.turns[p.key].instance != Some(p.instance) ||
         db.turns[p.key].workspace != Some(p.workspace) || db.turns[p.key].expectedHead != Some(p.expectedHead)
      {
        db := saved;
        return TurnClosed;
      }
      db := db.(turns := db.turns[p.key := db.turns[p.key].(state := Finished, result := Some(p.commit))]);
      if p.instance in db.instances {
        db := db.(instances := db.instances[p.instance := db.instances[p.instance].(state := Ready)]);
      }
      if p.key in db.operations {
        db := db.(operations := db.operations[p.key := OpSucceeded]);
      }
      return Published;
    }
  }

  lemma SmallerSet<T>(a: set<T>, b: set<T>)
    requires a < b
    ensures |a| < |b|
  {
    assert b == a + (b - a);
  }
}
