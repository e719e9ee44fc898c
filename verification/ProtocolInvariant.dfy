/** What every step of the turn protocol keeps. */
module ProtocolInvariant {
  import opened Prelude
  import opened Storage
  import opened Protocol

  // ---------------------------------------------------------------- tables

  ghost predicate RowsCanonical(db: Tables) {
    (forall c :: c in db.commits ==> db.commits[c] == RowOf(c)) &&
    (forall t :: t in db.trees ==> db.trees[t] == TreeRowOf(t))
  }

  ghost predicate WorkspacesOk(db: Tables) {
    db.refs.Keys == db.workspaces &&
    (forall h :: h in db.threads ==> db.threads[h] in db.workspaces) &&
    (forall g, h :: g in db.threads && h in db.threads && db.threads[g] == db.threads[h] ==> g == h) &&
    HeadsStored(db)
  }

  predicate Active(db: Tables, k: TurnKey) {
    k in db.turns && ActiveTurnState(db.turns[k].state)
  }

  /** The partial unique index on active turns. */
  ghost predicate OneActiveTurn(db: Tables) {
    forall j, k :: Active(db, j) && Active(db, k) && j.thread == k.thread ==> j == k
  }

  // ---------------------------------------------------------------- bindings

  /** The runtime of the turn exists and was made for the turn's mode, workspace and expected head. */
  ghost predicate Bound(db: Tables, k: TurnKey, t: Turn) {
    t.instance.Some? && t.instance.value in db.instances &&
    (var row := db.instances[t.instance.value];
     row.mode == t.mode &&
     (t.mode.Durable? ==>
        t.expectedHead.Some? && k.thread in db.threads && t.workspace == Some(db.threads[k.thread]) &&
        row.workspace == t.workspace && row.base == t.expectedHead.value))
  }

  ghost predicate TurnOk(db: Tables, k: TurnKey, t: Turn) {
    (t.instance.Some? ==> t.instance.value in db.instances) &&
    (t.state.Starting? ==> t.instance.None? && t.workspace.None? && t.expectedHead.None?) &&
    (t.state.Open? || t.state.Finishing? ==> Bound(db, k, t)) &&
    (ActiveTurnState(t.state) ==> t.result.None?) &&
    ((t.state.Open? || t.state.Finishing?) && t.mode.Durable? ==>
       t.workspace.value in db.refs && t.expectedHead.value == db.refs[t.workspace.value])
  }

  ghost predicate TurnsOk(db: Tables) {
    forall k :: k in db.turns ==> TurnOk(db, k, db.turns[k])
  }

  ghost predicate Owns(db: Tables, k: TurnKey, i: InstanceId) {
    k in db.turns && db.turns[k].instance == Some(i)
  }

  /** No runtime serves two turns. */
  ghost predicate Owners(s: State) {
    (forall i, j, k :: Owns(s.db, j, i) && Owns(s.db, k, i) ==> j == k) &&
    (forall j, k :: j in s.mem.starts ==> !Owns(s.db, k, s.mem.starts[j].instance)) &&
    (forall j, k :: j in s.mem.starts && k in s.mem.starts && s.mem.starts[j].instance == s.mem.starts[k].instance ==>
     j == k)
  }

  ghost predicate Usable(row: Instance) {
    row.handle && (row.state.Ready? || row.state.Running?)
  }

  ghost predicate Served(db: Tables, t: Turn) {
    t.instance.Some? && t.instance.value in db.instances && Usable(db.instances[t.instance.value])
  }

  ghost predicate StartOk(s: State, k: TurnKey, task: StartTask) {
    k in s.db.turns && s.db.turns[k].state.Starting? && s.db.turns[k].mode == task.mode &&
    (task.pc.Preparing? ==> task.instance !in s.db.instances && Stored(s.db.commits, s.db.trees, task.base)) &&
    (!task.pc.Preparing? ==>
       task.instance in s.db.instances &&
       (var row := s.db.instances[task.instance];
        row.mode == task.mode && row.workspace == task.workspace && row.base == task.base &&
        (task.pc.RuntimeReady? ==> Usable(row)))) &&
    (task.mode.Durable? ==>
       k.thread in s.db.threads && task.workspace == Some(s.db.threads[k.thread]) &&
       s.db.threads[k.thread] in s.db.refs && task.base == s.db.refs[s.db.threads[k.thread]])
  }

  ghost predicate FinishOk(s: State, k: TurnKey, task: FinishTask) {
    k in s.db.turns &&
    (var t := s.db.turns[k];
     task.rec.mode == t.mode && task.rec.workspace == t.workspace && task.rec.expectedHead == t.expectedHead &&
     task.rec.instance == t.instance && t.instance.Some? && t.instance.value in s.db.instances &&
     (match task.pc
      case Deleting(AfterCommit, _) => t.state.Finished? && t.mode.Durable?
      case Deleting(AfterInstant, _) => t.state.Finishing? && t.mode.Instant?
      case Closing(i, _, _) => t.state.Finishing? && i == t.instance.value
      case Closed(i) => t.state.Finishing? && i == t.instance.value
      case Snapshotting(i, w, head) =>
        t.state.Finishing? && t.mode.Durable? && i == t.instance.value && t.workspace == Some(w) &&
        t.expectedHead == Some(head) &&
        k in s.db.operations && s.db.operations[k].OpRunning?
      case _ => t.state.Finishing?) &&
     (var row := s.db.instances[t.instance.value];
      match task.pc
      case Deleting(_, _) => true
      case Closed(_) => row.handle && row.state.Ready?
      case Snapshotting(_, _, _) => row.handle && row.state.Committing?
      case _ => Usable(row)))
  }

  ghost predicate TasksOk(s: State) {
    (forall k :: k in s.mem.starts ==> StartOk(s, k, s.mem.starts[k])) &&
    (forall k :: k in s.mem.finishes ==> FinishOk(s, k, s.mem.finishes[k])) &&
    (s.phase.Up? ==> forall k :: k in s.db.turns && s.db.turns[k].state.Open? ==> Served(s.db, s.db.turns[k]))
  }

  // ---------------------------------------------------------------- leases and sessions

  function HeldBy(leases: map<LeaseId, Lease>, k: TurnKey): set<LeaseId> {
    set l | l in leases && leases[l].key == k
  }

  /** `leaseCounts` holds exactly the turns with live leases, each with the number of them. */
  ghost predicate CountsExact(leases: map<LeaseId, Lease>, counts: map<TurnKey, nat>) {
    (forall k :: k in counts ==> counts[k] == |HeldBy(leases, k)| && counts[k] > 0) &&
    (forall l :: l in leases ==> leases[l].key in counts)
  }

  /** The counts are exact, and a registered waiter implies a positive count. */
  ghost predicate LeaseCountsOk(mem: Memory) {
    CountsExact(mem.leases, mem.counts) &&
    (forall k :: k in mem.waiters <==> k in mem.finishes && mem.finishes[k].pc.WaitLeases?) &&
    mem.waiters <= mem.counts.Keys
  }

  ghost predicate LeaseOk(s: State, lease: Lease) {
    lease.key in s.db.turns && s.db.turns[lease.key].instance == Some(lease.instance) &&
    (s.db.turns[lease.key].state.Open? ||
     (lease.key in s.mem.finishes && s.mem.finishes[lease.key].pc.WaitLeases?))
  }

  ghost predicate LeasesOk(s: State) {
    (forall l :: l in s.mem.leases ==> LeaseOk(s, s.mem.leases[l])) &&
    (forall x :: x in s.mem.execs ==>
       s.mem.execs[x].lease in s.mem.leases && s.mem.leases[s.mem.execs[x].lease].instance == s.mem.execs[x].instance)
  }

  ghost predicate Quiet(mem: Memory, i: InstanceId) {
    forall x :: x in mem.sessions && mem.sessions[x].instance == i ==> !mem.sessions[x].active
  }

  ghost predicate SessionClause(mem: Memory, pc: FinishPc) {
    match pc
    case Closing(i, remaining, failed) =>
      failed || forall x :: x in mem.sessions && mem.sessions[x].instance == i && mem.sessions[x].active ==>
        x in remaining
    case Closed(i) => Quiet(mem, i)
    case Snapshotting(i, _, _) => Quiet(mem, i)
    case _ => true
  }

  ghost predicate SessionsOk(mem: Memory) {
    forall k :: k in mem.finishes ==> SessionClause(mem, mem.finishes[k].pc)
  }

  // ---------------------------------------------------------------- chains and operations

  ghost predicate PublicationOk(db: Tables, w: WorkspaceId, c: Chain, n: nat)
    requires n < |c.published|
  {
    var k := c.published[n].key;
    k in db.turns && db.turns[k].state.Finished? && db.turns[k].mode.Durable? && db.turns[k].workspace == Some(w) &&
    k.thread in db.threads && db.threads[k.thread] == w &&
    db.turns[k].expectedHead == Some(Head(c.initial, c.published[..n])) &&
    db.turns[k].result == Some(Head(c.initial, c.published[..n + 1]))
  }

  ghost predicate PublishedOn(c: Chain, k: TurnKey) {
    exists n :: 0 <= n < |c.published| && c.published[n].key == k
  }

  ghost predicate ChainsOk(db: Tables, chains: map<WorkspaceId, Chain>) {
    chains.Keys == db.workspaces &&
    (forall w :: w in chains ==> w in db.refs && db.refs[w] == Head(chains[w].initial, chains[w].published)) &&
    (forall w, n :: w in chains && 0 <= n < |chains[w].published| ==> PublicationOk(db, w, chains[w], n)) &&
    (forall k :: k in db.turns && db.turns[k].state.Finished? && db.turns[k].mode.Durable? ==>
       db.turns[k].workspace.Some? && db.turns[k].workspace.value in chains &&
       PublishedOn(chains[db.turns[k].workspace.value], k))
  }

  /** A daemon that is not down has a RUNNING operation only while the snapshot of its turn is taken. */
  ghost predicate OperationOk(s: State, k: TurnKey) {
    k in s.db.operations ==>
      k in s.db.turns && !s.db.turns[k].state.Starting? && !s.db.turns[k].state.Open? &&
      (k in s.mem.finishes ==> s.mem.finishes[k].pc.Snapshotting? || s.mem.finishes[k].pc.Deleting?) &&
      (s.db.operations[k].OpRunning? ==>
         s.phase.Down? || (k in s.mem.finishes && s.mem.finishes[k].pc.Snapshotting?))
  }

  ghost predicate OperationsOk(s: State) {
    forall k :: k in s.db.operations ==> OperationOk(s, k)
  }

  ghost predicate PhaseOk(s: State) {
    (!s.phase.Up? ==> s.mem == EMPTY_MEMORY) &&
    (!s.phase.Down? && !s.mem.closing ==> Stored(s.db.commits, s.db.trees, EMPTY_COMMIT))
  }

  ghost predicate Inv(s: State) {
    RowsCanonical(s.db) && WorkspacesOk(s.db) && OneActiveTurn(s.db) && TurnsOk(s.db) && Owners(s) && TasksOk(s) &&
    LeaseCountsOk(s.mem) && LeasesOk(s) && SessionsOk(s.mem) && ChainsOk(s.db, s.chains) && OperationsOk(s) &&
    PhaseOk(s)
  }

  lemma InitialOk()
    ensures Inv(INITIAL)
  {
  }

  // ---------------------------------------------------------------- steps on one turn

  ghost predicate SameBut<K(!new), V>(m: map<K, V>, m': map<K, V>, k: K) {
    forall j :: j != k ==> (j in m <==> j in m') && (j in m ==> m[j] == m'[j])
  }

  /** From `s` to `s'` only the rows and tasks of turn `k` and the row of its runtime `i` changed. */
  ghost predicate Local(s: State, s': State, k: TurnKey, i: InstanceId) {
    s'.phase == s.phase && s'.chains == s.chains &&
    s'.db.commits == s.db.commits && s'.db.trees == s.db.trees && s'.db.workspaces == s.db.workspaces &&
    s'.db.refs == s.db.refs && s'.db.threads == s.db.threads &&
    SameBut(s.db.turns, s'.db.turns, k) && SameBut(s.db.operations, s'.db.operations, k) &&
    SameBut(s.db.instances, s'.db.instances, i) &&
    SameBut(s.mem.starts, s'.mem.starts, k) && SameBut(s.mem.finishes, s'.mem.finishes, k) &&
    s'.mem.leases == s.mem.leases && s'.mem.counts == s.mem.counts &&
    (forall x :: x in s'.mem.execs ==> x in s.mem.execs && s'.mem.execs[x] == s.mem.execs[x]) &&
    s'.mem.closing == s.mem.closing && s'.mem.waiters - {k} == s.mem.waiters - {k}
  }

  /** No other turn and no other start task has runtime `i`. */
  ghost predicate OwnedBy(s: State, k: TurnKey, i: InstanceId) {
    (forall j :: Owns(s.db, j, i) ==> j == k) &&
    (forall j :: j in s.mem.starts && s.mem.starts[j].instance == i ==> j == k)
  }

  ghost predicate Touches(s: State, s': State, k: TurnKey, i: InstanceId) {
    s'.db.instances == s.db.instances || OwnedBy(s, k, i)
  }

  ghost predicate OwnersLocally(s: State, s': State, k: TurnKey, i: InstanceId) {
    (forall j :: Owns(s'.db, k, j) ==> Owns(s.db, k, j) || (j == i && OwnedBy(s, k, i))) &&
    (k in s'.mem.starts ==> s'.mem.starts[k].instance == i && OwnedBy(s, k, i) && !Owns(s'.db, k, i))
  }

  lemma LocalOneActive(s: State, s': State, k: TurnKey, i: InstanceId)
    requires Local(s, s', k, i) && OneActiveTurn(s.db)
    requires Active(s'.db, k) ==> Active(s.db, k) || !HasActiveTurn(s.db, k.thread)
    ensures OneActiveTurn(s'.db)
  {
    forall j | Active(s'.db, j) && j != k ensures Active(s.db, j) {}
  }

  lemma LocalTurns(s: State, s': State, k: TurnKey, i: InstanceId)
    requires Local(s, s', k, i) && TurnsOk(s.db) && Touches(s, s', k, i)
    requires k in s'.db.turns ==> TurnOk(s'.db, k, s'.db.turns[k])
    ensures TurnsOk(s'.db)
  {
    forall j | j in s'.db.turns && j != k ensures TurnOk(s'.db, j, s'.db.turns[j]) {
      assert TurnOk(s.db, j, s.db.turns[j]);
      if s.db.turns[j].instance.Some? { assert Owns(s.db, j, s.db.turns[j].instance.value); }
    }
  }

  lemma LocalOwners(s: State, s': State, k: TurnKey, i: InstanceId)
    requires Local(s, s', k, i) && Owners(s)
    requires OwnersLocally(s, s', k, i)
    ensures Owners(s')
  {
    forall j, l | j != k && Owns(s'.db, j, l) ensures Owns(s.db, j, l) {}
    forall j | j != k && j in s'.mem.starts
      ensures j in s.mem.starts && s'.mem.starts[j] == s.mem.starts[j] {}
  }

  lemma LocalTasks(s: State, s': State, k: TurnKey, i: InstanceId)
    requires Local(s, s', k, i) && TasksOk(s) && Touches(s, s', k, i)
    requires k in s'.mem.starts ==> StartOk(s', k, s'.mem.starts[k])
    requires k in s'.mem.finishes ==> FinishOk(s', k, s'.mem.finishes[k])
    requires s.phase.Up? && k in s'.db.turns && s'.db.turns[k].state.Open? ==> Served(s'.db, s'.db.turns[k])
    ensures TasksOk(s')
  {
    forall j | j != k && j in s'.mem.starts ensures StartOk(s', j, s'.mem.starts[j]) {
      assert StartOk(s, j, s.mem.starts[j]);
    }
    forall j | j != k && j in s'.mem.finishes ensures FinishOk(s', j, s'.mem.finishes[j]) {
      assert FinishOk(s, j, s.mem.finishes[j]);
      assert Owns(s.db, j, s.db.turns[j].instance.value);
    }
    forall j | j != k && s.phase.Up? && j in s'.db.turns && s'.db.turns[j].state.Open?
      ensures Served(s'.db, s'.db.turns[j])
    {
      assert Served(s.db, s.db.turns[j]);
      assert Owns(s.db, j, s.db.turns[j].instance.value);
    }
  }

  lemma LocalLeases(s: State, s': State, k: TurnKey, i: InstanceId)
    requires Local(s, s', k, i) && LeaseCountsOk(s.mem) && LeasesOk(s)
    requires k in s'.mem.waiters <==> k in s'.mem.finishes && s'.mem.finishes[k].pc.WaitLeases?
    requires k in s'.mem.waiters ==> k in s.mem.counts
    requires forall l :: l in s.mem.leases && s.mem.leases[l].key == k ==> LeaseOk(s', s.mem.leases[l])
    ensures LeaseCountsOk(s'.mem) && LeasesOk(s')
  {
    forall j | j != k ensures j in s'.mem.waiters <==> j in s.mem.waiters {
      assert j in s'.mem.waiters - {k} <==> j in s.mem.waiters - {k};
    }
    forall l | l in s'.mem.leases ensures LeaseOk(s', s'.mem.leases[l]) {
      assert LeaseOk(s, s.mem.leases[l]);
    }
  }

  /** A session that is active now was active before, or runs in the runtime of turn `k`. */
  ghost predicate NewSessions(s: State, s': State, k: TurnKey, i: InstanceId) {
    forall x :: x in s'.mem.sessions && s'.mem.sessions[x].active ==>
      (x in s.mem.sessions && s.mem.sessions[x] == s'.mem.sessions[x]) ||
      (s'.mem.sessions[x].instance == i && OwnedBy(s, k, i))
  }

  lemma LocalSessions(s: State, s': State, k: TurnKey, i: InstanceId)
    requires Local(s, s', k, i) && SessionsOk(s.mem) && TasksOk(s)
    requires NewSessions(s, s', k, i)
    requires k in s'.mem.finishes ==> SessionClause(s'.mem, s'.mem.finishes[k].pc)
    ensures SessionsOk(s'.mem)
  {
    forall j | j != k && j in s'.mem.finishes ensures SessionClause(s'.mem, s'.mem.finishes[j].pc) {
      assert SessionClause(s.mem, s.mem.finishes[j].pc) && FinishOk(s, j, s.mem.finishes[j]);
      assert Owns(s.db, j, s.db.turns[j].instance.value);
    }
  }

  /** The row of a finished durable turn: what the chain of its workspace rests on. */
  predicate Done(db: Tables, k: TurnKey) {
    k in db.turns && DurablyFinished(db.turns[k])
  }

  lemma LocalChains(s: State, s': State, k: TurnKey, i: InstanceId)
    requires Local(s, s', k, i) && ChainsOk(s.db, s.chains)
    requires Done(s.db, k) || Done(s'.db, k) ==> k in s.db.turns && k in s'.db.turns && s'.db.turns[k] == s.db.turns[k]
    ensures ChainsOk(s'.db, s'.chains)
  {
    forall w, n | w in s.chains && 0 <= n < |s.chains[w].published| ensures PublicationOk(s'.db, w, s.chains[w], n) {
      assert PublicationOk(s.db, w, s.chains[w], n);
      assert Done(s.db, s.chains[w].published[n].key);
    }
    forall j | Done(s'.db, j) ensures Done(s.db, j) && s'.db.turns[j] == s.db.turns[j] {}
  }

  lemma LocalOperations(s: State, s': State, k: TurnKey, i: InstanceId)
    requires Local(s, s', k, i) && OperationsOk(s)
    requires OperationOk(s', k)
    ensures OperationsOk(s')
  {
    forall j | j != k && j in s'.db.operations ensures OperationOk(s', j) {
      assert OperationOk(s, j);
    }
  }

  /** What a step on turn `k` has to show of that turn alone. */
  ghost predicate Keeps(s: State, s': State, k: TurnKey, i: InstanceId) {
    Local(s, s', k, i) && Touches(s, s', k, i) && OwnersLocally(s, s', k, i) &&
    (Active(s'.db, k) ==> Active(s.db, k) || !HasActiveTurn(s.db, k.thread)) &&
    (k in s'.db.turns ==> TurnOk(s'.db, k, s'.db.turns[k])) &&
    (k in s'.mem.starts ==> StartOk(s', k, s'.mem.starts[k])) &&
    (k in s'.mem.finishes ==> FinishOk(s', k, s'.mem.finishes[k])) &&
    (s.phase.Up? && k in s'.db.turns && s'.db.turns[k].state.Open? ==> Served(s'.db, s'.db.turns[k])) &&
    (k in s'.mem.waiters <==> k in s'.mem.finishes && s'.mem.finishes[k].pc.WaitLeases?) &&
    (k in s'.mem.waiters ==> k in s.mem.counts) &&
    (forall l :: l in s.mem.leases && s.mem.leases[l].key == k ==> LeaseOk(s', s.mem.leases[l])) &&
    NewSessions(s, s', k, i) &&
    (k in s'.mem.finishes ==> SessionClause(s'.mem, s'.mem.finishes[k].pc)) &&
    (Done(s'.db, k) ==> Done(s.db, k)) &&
    (k in s.db.turns ==>
       k in s'.db.turns && SameRequest(s.db.turns[k], s'.db.turns[k]) &&
       (ActiveTurnState(s.db.turns[k].state) || s'.db.turns[k] == s.db.turns[k])) &&
    OperationOk(s', k) &&
    (s.phase.Up? || s'.mem == s.mem)
  }

  ghost predicate Extends(c: Chain, c': Chain) {
    c.initial == c'.initial && c.published <= c'.published
  }

  predicate SameRequest(t: Turn, t': Turn) {
    t'.mode == t.mode && t'.request == t.request
  }

  /** Turns never disappear and keep their mode and request, finished and failed rows never change, threads keep
      their workspaces, chains are only appended to, and a workspace outside `moved` keeps its ref and its chain. */
  ghost predicate Stable(s: State, s': State, moved: set<WorkspaceId>) {
    (forall k :: k in s.db.turns ==> k in s'.db.turns && SameRequest(s.db.turns[k], s'.db.turns[k])) &&
    (forall k :: k in s.db.turns && !ActiveTurnState(s.db.turns[k].state) ==> s'.db.turns[k] == s.db.turns[k]) &&
    (forall h :: h in s.db.threads ==> h in s'.db.threads && s'.db.threads[h] == s.db.threads[h]) &&
    (forall w :: w in s.db.refs ==> w in s'.db.refs && (w in moved || s'.db.refs[w] == s.db.refs[w])) &&
    (forall w :: w in s.chains ==>
       w in s'.chains && Extends(s.chains[w], s'.chains[w]) && (w in moved || s'.chains[w] == s.chains[w]))
  }

  lemma StableTrans(s: State, s1: State, s2: State, m1: set<WorkspaceId>, m2: set<WorkspaceId>)
    requires Stable(s, s1, m1) && Stable(s1, s2, m2)
    ensures Stable(s, s2, m1 + m2)
  {
  }

  lemma LocalStable(s: State, s': State, k: TurnKey, i: InstanceId)
    requires Local(s, s', k, i)
    requires k in s.db.turns ==>
      k in s'.db.turns && SameRequest(s.db.turns[k], s'.db.turns[k]) &&
      (ActiveTurnState(s.db.turns[k].state) || s'.db.turns[k] == s.db.turns[k])
    ensures Stable(s, s', {})
  {
  }

  lemma KeepsTables(s: State, s': State, k: TurnKey, i: InstanceId)
    requires RowsCanonical(s.db) && WorkspacesOk(s.db) && OneActiveTurn(s.db) && TurnsOk(s.db) && Owners(s)
    requires ChainsOk(s.db, s.chains)
    requires Keeps(s, s', k, i)
    ensures RowsCanonical(s'.db) && WorkspacesOk(s'.db) && OneActiveTurn(s'.db) && TurnsOk(s'.db) && Owners(s')
    ensures ChainsOk(s'.db, s'.chains)
  {
    LocalOneActive(s, s', k, i);
    LocalTurns(s, s', k, i);
    LocalOwners(s, s', k, i);
    LocalChains(s, s', k, i);
  }

  lemma KeepsMemory(s: State, s': State, k: TurnKey, i: InstanceId)
    requires TasksOk(s) && LeaseCountsOk(s.mem) && LeasesOk(s) && SessionsOk(s.mem) && OperationsOk(s) && PhaseOk(s)
    requires Keeps(s, s', k, i)
    ensures TasksOk(s') && LeaseCountsOk(s'.mem) && LeasesOk(s') && SessionsOk(s'.mem) && OperationsOk(s')
    ensures PhaseOk(s')
  {
    LocalTasks(s, s', k, i);
    LocalLeases(s, s', k, i);
    LocalSessions(s, s', k, i);
    LocalOperations(s, s', k, i);
  }

  lemma KeepsStable(s: State, s': State, k: TurnKey, i: InstanceId)
    requires Keeps(s, s', k, i)
    ensures Stable(s, s', {})
  {
    LocalStable(s, s', k, i);
  }

  /** A step that keeps its own turn in order keeps the whole invariant. */
  lemma KeepsInv(s: State, s': State, k: TurnKey, i: InstanceId)
    requires Inv(s) && Keeps(s, s', k, i)
    ensures Inv(s') && Stable(s, s', {})
  {
    hide Keeps, Stable, RowsCanonical, WorkspacesOk, OneActiveTurn, TurnsOk, Owners, TasksOk, LeaseCountsOk, LeasesOk;
    hide SessionsOk, ChainsOk, OperationsOk, PhaseOk;
    KeepsTables(s, s', k, i);
    KeepsMemory(s, s', k, i);
    KeepsStable(s, s', k, i);
  }

  // ---------------------------------------------------------------- starting a turn

  ghost predicate StartFacts(s: State, k: TurnKey) {
    s.phase.Up? && k in s.mem.starts && StartOk(s, k, s.mem.starts[k]) && TurnOk(s.db, k, s.db.turns[k]) &&
    OwnedBy(s, k, s.mem.starts[k].instance) && !Owns(s.db, k, s.mem.starts[k].instance) &&
    k !in s.mem.finishes && k !in s.mem.waiters && !Leased(s.mem, k) && k !in s.db.operations
  }

  lemma StartFactsHold(s: State, k: TurnKey)
    requires Inv(s) && k in s.mem.starts
    ensures StartFacts(s, k)
  {
    assert StartOk(s, k, s.mem.starts[k]);
    forall j | j in s.mem.finishes ensures j != k {
      assert FinishOk(s, j, s.mem.finishes[j]);
    }
    forall l | l in s.mem.leases ensures s.mem.leases[l].key != k {
      assert LeaseOk(s, s.mem.leases[l]);
    }
  }

  lemma ProvisionKeeps(s: State, k: TurnKey)
    requires StartFacts(s, k) && s.mem.starts[k].pc.Preparing?
    ensures Keeps(s, Provision(s, k), k, s.mem.starts[k].instance)
  {
  }

  lemma RuntimeKeeps(s: State, k: TurnKey, created: bool)
    requires StartFacts(s, k) && s.mem.starts[k].pc.AwaitBackend?
    ensures Keeps(s, RuntimeCreated(s, k, created), k, s.mem.starts[k].instance)
  {
    hide Stored, HasActiveTurn;
  }

  lemma OpenKeeps(s: State, k: TurnKey)
    requires StartFacts(s, k) && s.mem.starts[k].pc.RuntimeReady?
    ensures Keeps(s, OpenTurn(s, k), k, s.mem.starts[k].instance)
  {
  }

  lemma FailStartKeeps(s: State, k: TurnKey)
    requires StartFacts(s, k) && s.mem.starts[k].pc.CreateFailed?
    ensures Keeps(s, FailStart(s, k), k, s.mem.starts[k].instance)
  {
  }

  lemma AbortKeeps(s: State, k: TurnKey)
    requires StartFacts(s, k)
    ensures Keeps(s, WithoutStart(s, k), k, s.mem.starts[k].instance)
  {
  }

  // ---------------------------------------------------------------- finishing a turn

  /** The runtime of a turn. */
  function RuntimeOf(s: State, k: TurnKey): InstanceId
    requires k in s.db.turns && s.db.turns[k].instance.Some?
  {
    s.db.turns[k].instance.value
  }

  ghost predicate OpenFacts(s: State, k: TurnKey) {
    s.phase.Up? && k in s.db.turns && s.db.turns[k].state.Open? && TurnOk(s.db, k, s.db.turns[k]) &&
    Served(s.db, s.db.turns[k]) && OwnedBy(s, k, RuntimeOf(s, k)) &&
    k !in s.mem.starts && k !in s.mem.finishes && k !in s.mem.waiters && k !in s.db.operations &&
    (k in s.mem.counts ==> s.mem.counts[k] > 0) &&
    (forall l :: l in s.mem.leases && s.mem.leases[l].key == k ==>
       k in s.mem.counts && s.db.turns[k].instance == Some(s.mem.leases[l].instance))
  }

  lemma OpenFactsHold(s: State, k: TurnKey)
    requires Inv(s) && s.phase.Up? && k in s.db.turns && s.db.turns[k].state.Open?
    ensures OpenFacts(s, k)
  {
    assert Served(s.db, s.db.turns[k]);
    assert Owns(s.db, k, RuntimeOf(s, k));
    forall j | j in s.mem.starts ensures j != k {
      assert StartOk(s, j, s.mem.starts[j]);
    }
    forall j | j in s.mem.finishes ensures j != k {
      assert FinishOk(s, j, s.mem.finishes[j]);
    }
    forall l | l in s.mem.leases ensures LeaseOk(s, s.mem.leases[l]) {}
  }

  lemma FinishKeeps(s: State, k: TurnKey)
    requires OpenFacts(s, k)
    ensures Keeps(s, FinishTurn(s, k), k, RuntimeOf(s, k))
  {
  }

  /** The turn is past the wait for its leases. */
  ghost predicate FinishFacts(s: State, k: TurnKey) {
    s.phase.Up? && k in s.mem.finishes && FinishOk(s, k, s.mem.finishes[k]) && TurnOk(s.db, k, s.db.turns[k]) &&
    OwnedBy(s, k, RuntimeOf(s, k)) && k !in s.mem.starts && SessionClause(s.mem, s.mem.finishes[k].pc) &&
    (!s.mem.finishes[k].pc.WaitLeases? ==> k !in s.mem.waiters && !Leased(s.mem, k)) &&
    OperationOk(s, k)
  }

  lemma FinishFactsHold(s: State, k: TurnKey)
    requires Inv(s) && k in s.mem.finishes
    ensures FinishFacts(s, k)
  {
    assert FinishOk(s, k, s.mem.finishes[k]);
    assert Owns(s.db, k, RuntimeOf(s, k));
    forall j | j in s.mem.starts ensures j != k {
      assert StartOk(s, j, s.mem.starts[j]);
    }
    forall l | l in s.mem.leases ensures LeaseOk(s, s.mem.leases[l]) {}
  }

  lemma BeginCloseKeeps(s: State, k: TurnKey)
    requires FinishFacts(s, k) && s.mem.finishes[k].pc.LeasesDone?
    ensures Keeps(s, BeginClose(s, k), k, RuntimeOf(s, k))
  {
  }

  lemma KillKeeps(s: State, k: TurnKey, x: SessionId, closed: bool)
    requires FinishFacts(s, k) && s.mem.finishes[k].pc.Closing?
    ensures Keeps(s, KillSession(s, k, x, closed), k, RuntimeOf(s, k))
  {
    hide Stored, HasActiveTurn, OwnedBy;
  }

  /** Giving up: the runtime is deleted and the turn will fail, or an instant turn ends. */
  lemma DeleteNextKeeps(s: State, k: TurnKey, why: DeleteReason)
    requires FinishFacts(s, k) && s.db.turns[k].state.Finishing? && !s.mem.finishes[k].pc.WaitLeases?
    requires !s.mem.finishes[k].pc.Snapshotting?
    requires !why.AfterCommit? && (why.AfterInstant? ==> s.db.turns[k].mode.Instant?)
    ensures Keeps(s, WithPc(s, k, Deleting(why, false)), k, RuntimeOf(s, k))
  {
  }

  lemma EndCloseKeeps(s: State, k: TurnKey)
    requires FinishFacts(s, k) && s.mem.finishes[k].pc.Closing? && s.mem.finishes[k].pc.remaining == {}
    requires !s.mem.finishes[k].pc.failed
    ensures Keeps(s, EndClose(s, k), k, RuntimeOf(s, k))
  {
    hide Stored, HasActiveTurn, OwnedBy;
  }

  ghost predicate CommitReady(s: State, k: TurnKey) {
    FinishFacts(s, k) && s.mem.finishes[k].pc.Closed? &&
    (var t := s.db.turns[k];
     t.mode.Durable? && t.workspace.Some? && t.expectedHead.Some? &&
     CommitAdmitted(s.db, k, RuntimeOf(s, k), t.workspace.value, t.expectedHead.value))
  }

  /** An admitted commit marks the runtime and opens the operation row; nothing else changes. */
  lemma BeginCommitStep(s: State, k: TurnKey)
    requires CommitReady(s, k)
    ensures
      var i, t := RuntimeOf(s, k), s.db.turns[k];
      BeginCommit(s, k) == State(s.phase,
        s.db.(operations := s.db.operations[k := OpRunning],
              instances := s.db.instances[i := s.db.instances[i].(state := Committing)]),
        s.mem.(finishes := s.mem.finishes[k := FinishTask(Snapshotting(i, t.workspace.value, t.expectedHead.value),
                                                          s.mem.finishes[k].rec)]),
        s.chains)
  {
  }

  lemma BeginCommitKeeps(s: State, k: TurnKey)
    requires CommitReady(s, k)
    ensures Keeps(s, BeginCommit(s, k), k, RuntimeOf(s, k))
  {
    BeginCommitStep(s, k);
  }

  lemma AbandonKeeps(s: State, k: TurnKey)
    requires FinishFacts(s, k) && s.mem.finishes[k].pc.Snapshotting?
    ensures Keeps(s, AbandonCommit(s, k), k, RuntimeOf(s, k))
  {
    hide Stored, HasActiveTurn, OwnedBy;
  }

  lemma BeginDeleteKeeps(s: State, k: TurnKey)
    requires FinishFacts(s, k) && s.mem.finishes[k].pc.Deleting?
    ensures Keeps(s, BeginDelete(s, k), k, RuntimeOf(s, k))
  {
    hide Stored, HasActiveTurn, OwnedBy;
  }

  lemma EndDeleteKeeps(s: State, k: TurnKey, destroyed: bool)
    requires FinishFacts(s, k) && s.mem.finishes[k].pc.Deleting?
    ensures Keeps(s, EndDelete(s, k, destroyed), k, RuntimeOf(s, k))
  {
    hide Stored, HasActiveTurn, OwnedBy;
  }

  // ---------------------------------------------------------------- leases and sessions change

  /** The tables, the start tasks and what the finish tasks say of the tables are as before. */
  ghost predicate SameTurns(s: State, s': State) {
    s'.phase == s.phase && s'.db == s.db && s'.chains == s.chains &&
    s'.mem.starts == s.mem.starts && (s.mem.closing ==> s'.mem.closing) &&
    s'.mem.finishes.Keys == s.mem.finishes.Keys &&
    forall k :: k in s.mem.finishes ==>
      s'.mem.finishes[k] == s.mem.finishes[k] ||
      (s.mem.finishes[k].pc.WaitLeases? && s'.mem.finishes[k] == s.mem.finishes[k].(pc := LeasesDone))
  }

  lemma SameTurnsKeeps(s: State, s': State)
    requires SameTurns(s, s') && s.phase.Up?
    requires Owners(s) && TasksOk(s) && OperationsOk(s) && PhaseOk(s)
    ensures Owners(s') && TasksOk(s') && OperationsOk(s') && PhaseOk(s')
  {
    forall k | k in s'.mem.starts ensures StartOk(s', k, s'.mem.starts[k]) {
      assert StartOk(s, k, s.mem.starts[k]);
    }
    forall k | k in s'.mem.finishes ensures FinishOk(s', k, s'.mem.finishes[k]) {
      assert FinishOk(s, k, s.mem.finishes[k]);
    }
  }

  lemma SameTurnsInv(s: State, s': State)
    requires Inv(s) && SameTurns(s, s') && s.phase.Up?
    requires LeaseCountsOk(s'.mem) && LeasesOk(s') && SessionsOk(s'.mem)
    ensures Inv(s') && Stable(s, s', {})
  {
    hide LeaseCountsOk, LeasesOk, SessionsOk, RowsCanonical, WorkspacesOk, OneActiveTurn, TurnsOk, Owners, TasksOk;
    hide ChainsOk, OperationsOk, PhaseOk;
    SameTurnsKeeps(s, s');
  }

  lemma AcquireSame(s: State, k: TurnKey, l: LeaseId)
    ensures SameTurns(s, AcquireLease(s, k, l)) && SessionsOk(AcquireLease(s, k, l).mem) == SessionsOk(s.mem)
  {
  }

  lemma CountsAdd(leases: map<LeaseId, Lease>, counts: map<TurnKey, nat>, l: LeaseId, lease: Lease)
    requires CountsExact(leases, counts) && l !in leases
    ensures CountsExact(leases[l := lease],
                        counts[lease.key := (if lease.key in counts then counts[lease.key] else 0) + 1])
  {
    var k, leases' := lease.key, leases[l := lease];
    assert HeldBy(leases', k) == HeldBy(leases, k) + {l};
    assert k !in counts ==> HeldBy(leases, k) == {};
    forall j | j != k ensures HeldBy(leases', j) == HeldBy(leases, j) {}
  }

  lemma AcquireCounts(s: State, k: TurnKey, l: LeaseId)
    requires LeaseCountsOk(s.mem) && l !in s.mem.leases && k !in s.mem.finishes
    ensures LeaseCountsOk(AcquireLease(s, k, l).mem)
  {
    if k in s.db.turns && Bindable(s.db.turns[k]) {
      CountsAdd(s.mem.leases, s.mem.counts, l, Lease(k, s.db.turns[k].instance.value));
    }
  }

  lemma AcquireLeases(s: State, k: TurnKey, l: LeaseId)
    requires LeasesOk(s) && l !in s.mem.leases
    ensures LeasesOk(AcquireLease(s, k, l))
  {
    var s' := AcquireLease(s, k, l);
    forall j | j in s'.mem.leases && j in s.mem.leases && s'.mem.leases[j] == s.mem.leases[j]
      ensures LeaseOk(s', s'.mem.leases[j])
    {
      assert LeaseOk(s, s.mem.leases[j]);
    }
  }

  lemma AcquireOk(s: State, k: TurnKey, l: LeaseId)
    requires Inv(s) && s.phase.Up? && l !in s.mem.leases
    ensures Inv(AcquireLease(s, k, l)) && Stable(s, AcquireLease(s, k, l), {})
  {
    hide RowsCanonical, WorkspacesOk, OneActiveTurn, TurnsOk, Owners, TasksOk, LeaseCountsOk, LeasesOk, SessionsOk;
    hide ChainsOk, OperationsOk, PhaseOk;
    if k in s.db.turns && s.db.turns[k].state.Open? {
      OpenFactsHold(s, k);
      AcquireCounts(s, k, l);
      AcquireLeases(s, k, l);
      AcquireSame(s, k, l);
      SameTurnsInv(s, AcquireLease(s, k, l));
    }
  }

  lemma CountsRemove(leases: map<LeaseId, Lease>, counts: map<TurnKey, nat>, l: LeaseId)
    requires CountsExact(leases, counts) && l in leases
    ensures
      var k := leases[l].key;
      CountsExact(leases - {l}, if counts[k] == 1 then counts - {k} else counts[k := counts[k] - 1])
  {
    var k, leases' := leases[l].key, leases - {l};
    assert l in HeldBy(leases, k);
    assert HeldBy(leases', k) == HeldBy(leases, k) - {l};
    forall j | j != k ensures HeldBy(leases', j) == HeldBy(leases, j) {}
    assert |HeldBy(leases', k)| == counts[k] - 1;
    forall j | j in leases' && counts[k] == 1 ensures leases'[j].key != k {
      assert leases'[j].key == k ==> j in HeldBy(leases', k);
    }
  }

  lemma ReleaseCounts(s: State, l: LeaseId)
    requires LeaseCountsOk(s.mem) && l in s.mem.leases
    ensures LeaseCountsOk(ReleaseLease(s, l).mem)
  {
    CountsRemove(s.mem.leases, s.mem.counts, l);
  }

  lemma ReleaseLeases(s: State, l: LeaseId)
    requires LeasesOk(s) && LeaseCountsOk(s.mem) && l in s.mem.leases && LeaseCountsOk(ReleaseLease(s, l).mem)
    requires forall x :: x in s.mem.execs ==> s.mem.execs[x].lease != l
    ensures LeasesOk(ReleaseLease(s, l))
  {
    var s' := ReleaseLease(s, l);
    forall j | j in s'.mem.leases ensures LeaseOk(s', s'.mem.leases[j]) {
      assert LeaseOk(s, s.mem.leases[j]);
      assert s'.mem.leases[j].key in s'.mem.counts;
    }
  }

  lemma ReleaseSessions(s: State, l: LeaseId)
    requires SessionsOk(s.mem) && l in s.mem.leases
    ensures SessionsOk(ReleaseLease(s, l).mem)
  {
    var s' := ReleaseLease(s, l);
    forall k | k in s'.mem.finishes ensures SessionClause(s'.mem, s'.mem.finishes[k].pc) {
      assert SessionClause(s.mem, s.mem.finishes[k].pc);
    }
  }

  lemma ReleaseSame(s: State, l: LeaseId)
    requires LeaseCountsOk(s.mem) && l in s.mem.leases
    ensures SameTurns(s, ReleaseLease(s, l))
  {
  }

  lemma ReleaseOk(s: State, l: LeaseId)
    requires Inv(s) && l in s.mem.leases
    requires forall x :: x in s.mem.execs ==> s.mem.execs[x].lease != l
    ensures Inv(ReleaseLease(s, l)) && Stable(s, ReleaseLease(s, l), {})
  {
    ReleaseCounts(s, l);
    ReleaseLeases(s, l);
    ReleaseSessions(s, l);
    ReleaseSame(s, l);
    SameTurnsInv(s, ReleaseLease(s, l));
  }

  lemma ExecsKeep(s: State, s': State, l: LeaseId, x: SessionId)
    requires l in s.mem.leases && s' == s.(mem := s'.mem) && s'.mem == s.mem.(execs := s'.mem.execs)
    requires s'.mem.execs == s.mem.execs[x := ExecTask(l, s.mem.leases[l].instance)]
    requires LeasesOk(s) && LeaseCountsOk(s.mem) && SessionsOk(s.mem)
    ensures SameTurns(s, s') && LeasesOk(s') && LeaseCountsOk(s'.mem) && SessionsOk(s'.mem)
  {
    forall j | j in s'.mem.leases ensures LeaseOk(s', s'.mem.leases[j]) {
      assert LeaseOk(s, s.mem.leases[j]);
    }
    forall k | k in s'.mem.finishes ensures SessionClause(s'.mem, s'.mem.finishes[k].pc) {
      assert SessionClause(s.mem, s.mem.finishes[k].pc);
    }
  }

  lemma BeginExecOk(s: State, l: LeaseId, x: SessionId)
    requires Inv(s) && s.phase.Up? && l in s.mem.leases
    ensures Inv(BeginExec(s, l, x)) && Stable(s, BeginExec(s, l, x), {})
  {
    hide RowsCanonical, WorkspacesOk, OneActiveTurn, TurnsOk, Owners, TasksOk, LeaseCountsOk, LeasesOk, SessionsOk;
    hide ChainsOk, OperationsOk, PhaseOk, SameTurns;
    var s' := BeginExec(s, l, x);
    if ExecAdmitted(s, s.mem.leases[l].instance) {
      ExecsKeep(s, s', l, x);
      SameTurnsInv(s, s');
    }
  }

  lemma DropOk(s: State, x: SessionId)
    requires Inv(s) && s.phase.Up?
    ensures Inv(DropSession(s, x)) && Stable(s, DropSession(s, x), {})
  {
    hide RowsCanonical, WorkspacesOk, OneActiveTurn, TurnsOk, Owners, TasksOk, ChainsOk, OperationsOk, PhaseOk;
    var s' := DropSession(s, x);
    forall k | k in s'.mem.finishes ensures SessionClause(s'.mem, s'.mem.finishes[k].pc) {
      assert SessionClause(s.mem, s.mem.finishes[k].pc);
    }
    SameTurnsInv(s, s');
  }

  /** A turn with a live lease is OPEN, or its finish still waits. */
  ghost predicate LeasedFacts(s: State, k: TurnKey, i: InstanceId) {
    s.phase.Up? && k in s.db.turns && s.db.turns[k].instance == Some(i) && i in s.db.instances &&
    Usable(s.db.instances[i]) &&
    (s.db.turns[k].state.Open? ||
     (s.db.turns[k].state.Finishing? && k in s.mem.finishes && s.mem.finishes[k].pc.WaitLeases?)) &&
    (k in s.mem.finishes ==> FinishOk(s, k, s.mem.finishes[k])) && TurnOk(s.db, k, s.db.turns[k]) && OwnedBy(s, k, i) &&
    k !in s.mem.starts && k !in s.db.operations &&
    (k in s.mem.waiters <==> k in s.mem.finishes && s.mem.finishes[k].pc.WaitLeases?) && k in s.mem.counts &&
    (forall l :: l in s.mem.leases && s.mem.leases[l].key == k ==> LeaseOk(s, s.mem.leases[l]))
  }

  lemma LeasedFactsHold(s: State, l: LeaseId)
    requires Inv(s) && l in s.mem.leases
    ensures LeasedFacts(s, s.mem.leases[l].key, s.mem.leases[l].instance)
  {
    hide RowsCanonical, WorkspacesOk, OneActiveTurn, TurnsOk, Owners, SessionsOk, ChainsOk;
    var k := s.mem.leases[l].key;
    assert LeaseOk(s, s.mem.leases[l]);
    if s.db.turns[k].state.Open? { OpenFactsHold(s, k); } else { FinishFactsHold(s, k); }
  }

  lemma EndExecKeeps(s: State, x: SessionId, started: bool, k: TurnKey)
    requires x in s.mem.execs && LeasedFacts(s, k, s.mem.execs[x].instance)
    ensures Keeps(s, EndExec(s, x, started), k, s.mem.execs[x].instance)
  {
    hide Stored, HasActiveTurn, OwnedBy;
  }

  lemma SettleKeeps(s: State, x: SessionId, k: TurnKey)
    requires x in s.mem.sessions && LeasedFacts(s, k, s.mem.sessions[x].instance)
    ensures Keeps(s, SettleSession(s, x), k, s.mem.sessions[x].instance)
  {
  }

  // ---------------------------------------------------------------- workspaces and chains change

  lemma {:induction false} StoredMonotone(
    commits: map<CommitId, CommitRow>, trees: map<TreeDigest, TreeRow>,
    commits': map<CommitId, CommitRow>, trees': map<TreeDigest, TreeRow>, c: CommitId)
    requires Stored(commits, trees, c) && commits.Keys <= commits'.Keys && trees.Keys <= trees'.Keys
    ensures Stored(commits', trees', c)
  {
    if c.parent.Some? { StoredMonotone(commits, trees, commits', trees', c.parent.value); }
  }

  lemma AddWorkspaceTables(s: State, thread: ThreadId, w: WorkspaceId, head: CommitId)
    requires WorkspacesOk(s.db) && thread !in s.db.threads && w !in s.db.workspaces
    requires Stored(s.db.commits, s.db.trees, head)
    ensures WorkspacesOk(AddWorkspace(s, thread, w, head).db)
  {
  }

  lemma AddWorkspaceTurns(s: State, thread: ThreadId, w: WorkspaceId, head: CommitId)
    requires WorkspacesOk(s.db) && TurnsOk(s.db) && thread !in s.db.threads && w !in s.db.workspaces
    ensures TurnsOk(AddWorkspace(s, thread, w, head).db)
  {
    var s' := AddWorkspace(s, thread, w, head);
    forall k | k in s'.db.turns ensures TurnOk(s'.db, k, s'.db.turns[k]) {
      assert TurnOk(s.db, k, s.db.turns[k]);
    }
  }

  lemma AddWorkspaceChains(s: State, thread: ThreadId, w: WorkspaceId, head: CommitId)
    requires ChainsOk(s.db, s.chains) && thread !in s.db.threads && w !in s.db.workspaces
    ensures ChainsOk(AddWorkspace(s, thread, w, head).db, AddWorkspace(s, thread, w, head).chains)
  {
    var s' := AddWorkspace(s, thread, w, head);
    forall v, n | v in s'.chains && 0 <= n < |s'.chains[v].published| ensures PublicationOk(s'.db, v, s'.chains[v], n) {
      assert PublicationOk(s.db, v, s.chains[v], n);
    }
  }

  lemma AddWorkspaceTasks(s: State, thread: ThreadId, w: WorkspaceId, head: CommitId)
    requires WorkspacesOk(s.db) && TasksOk(s)
    requires thread !in s.db.threads && w !in s.db.workspaces
    ensures TasksOk(AddWorkspace(s, thread, w, head))
  {
    var s' := AddWorkspace(s, thread, w, head);
    forall k | k in s'.mem.starts ensures StartOk(s', k, s'.mem.starts[k]) {
      assert StartOk(s, k, s.mem.starts[k]);
    }
    forall k | k in s'.mem.finishes ensures FinishOk(s', k, s'.mem.finishes[k]) {
      assert FinishOk(s, k, s.mem.finishes[k]);
    }
  }

  lemma AddWorkspaceRest(s: State, thread: ThreadId, w: WorkspaceId, head: CommitId)
    requires RowsCanonical(s.db) && OneActiveTurn(s.db) && Owners(s) && LeasesOk(s) && OperationsOk(s) && PhaseOk(s)
    ensures
      var s' := AddWorkspace(s, thread, w, head);
      RowsCanonical(s'.db) && OneActiveTurn(s'.db) && Owners(s') && LeasesOk(s') && OperationsOk(s') && PhaseOk(s')
  {
    var s' := AddWorkspace(s, thread, w, head);
    forall i, k | Owns(s'.db, k, i) ensures Owns(s.db, k, i) {}
    forall k | Active(s'.db, k) ensures Active(s.db, k) {}
    forall l | l in s'.mem.leases ensures LeaseOk(s', s'.mem.leases[l]) {
      assert LeaseOk(s, s.mem.leases[l]);
    }
  }

  lemma AddWorkspaceOk(s: State, thread: ThreadId, w: WorkspaceId, head: CommitId)
    requires Inv(s)
    requires thread !in s.db.threads && w !in s.db.workspaces && Stored(s.db.commits, s.db.trees, head)
    ensures Inv(AddWorkspace(s, thread, w, head))
  {
    AddWorkspaceTables(s, thread, w, head);
    AddWorkspaceTurns(s, thread, w, head);
    AddWorkspaceChains(s, thread, w, head);
    AddWorkspaceTasks(s, thread, w, head);
    AddWorkspaceRest(s, thread, w, head);
  }

  lemma EnrollKeeps(s: State, k: TurnKey, request: nat, task: StartTask)
    requires s.phase.Up? && k !in s.db.turns && !HasActiveTurn(s.db, k.thread) && FreshInstance(s, task.instance)
    requires task.pc.Preparing? && Stored(s.db.commits, s.db.trees, task.base)
    requires task.mode.Durable? ==>
      k.thread in s.db.threads && task.workspace == Some(s.db.threads[k.thread]) &&
      s.db.threads[k.thread] in s.db.refs && task.base == s.db.refs[s.db.threads[k.thread]]
    requires k !in s.mem.finishes && k !in s.mem.waiters && !Leased(s.mem, k) && k !in s.db.operations
    requires forall j :: !Owns(s.db, j, task.instance)
    ensures Keeps(s, Enroll(s, k, request, task), k, task.instance)
  {
    hide Stored, HasActiveTurn;
  }

  lemma EnrollOk(s: State, k: TurnKey, request: nat, task: StartTask)
    requires Inv(s) && s.phase.Up? && k !in s.db.turns && !HasActiveTurn(s.db, k.thread)
    requires FreshInstance(s, task.instance)
    requires task.pc.Preparing? && Stored(s.db.commits, s.db.trees, task.base)
    requires task.mode.Durable? ==>
      k.thread in s.db.threads && task.workspace == Some(s.db.threads[k.thread]) &&
      s.db.threads[k.thread] in s.db.refs && task.base == s.db.refs[s.db.threads[k.thread]]
    ensures Inv(Enroll(s, k, request, task)) && Stable(s, Enroll(s, k, request, task), {})
  {
    hide RowsCanonical, WorkspacesOk, OneActiveTurn, SessionsOk, ChainsOk, PhaseOk, Keeps, Stable;
    forall j | j in s.mem.finishes ensures j != k { assert FinishOk(s, j, s.mem.finishes[j]); }
    forall l | l in s.mem.leases ensures s.mem.leases[l].key != k { assert LeaseOk(s, s.mem.leases[l]); }
    forall j ensures !Owns(s.db, j, task.instance) { assert j in s.db.turns ==> TurnOk(s.db, j, s.db.turns[j]); }
    EnrollKeeps(s, k, request, task);
    KeepsInv(s, Enroll(s, k, request, task), k, task.instance);
  }

  lemma AddWorkspaceStable(s: State, thread: ThreadId, w: WorkspaceId, head: CommitId)
    requires thread !in s.db.threads && w !in s.db.refs && w !in s.chains
    ensures Stable(s, AddWorkspace(s, thread, w, head), {})
  {
  }

  lemma EnsureWorkspaceOk(s: State, thread: ThreadId, w: WorkspaceId)
    requires Inv(s) && s.phase.Up? && !s.mem.closing && w !in s.db.workspaces
    ensures
      var s1 := EnsureWorkspace(s, thread, w);
      Inv(s1) && Stable(s, s1, {}) && s1.phase == s.phase && s1.mem == s.mem &&
      s1.db.turns == s.db.turns && s1.db.instances == s.db.instances &&
      thread in s1.db.threads && s1.db.threads[thread] in s1.db.refs &&
      Stored(s1.db.commits, s1.db.trees, s1.db.refs[s1.db.threads[thread]])
  {
    if thread !in s.db.threads {
      AddWorkspaceOk(s, thread, w, EMPTY_COMMIT);
      AddWorkspaceStable(s, thread, w, EMPTY_COMMIT);
    }
  }

  lemma EnrollHere(s: State, s1: State, k: TurnKey, request: nat, task: StartTask)
    requires Inv(s1) && Stable(s, s1, {}) && s1.phase.Up? && s1.mem == s.mem && s1.db.turns == s.db.turns
    requires s1.db.instances == s.db.instances
    requires k !in s.db.turns && !HasActiveTurn(s.db, k.thread) && FreshInstance(s, task.instance)
    requires task.pc.Preparing? && Stored(s1.db.commits, s1.db.trees, task.base) && task.mode.Durable?
    requires k.thread in s1.db.threads && task.workspace == Some(s1.db.threads[k.thread]) &&
      s1.db.threads[k.thread] in s1.db.refs && task.base == s1.db.refs[s1.db.threads[k.thread]]
    ensures Inv(Enroll(s1, k, request, task)) && Stable(s, Enroll(s1, k, request, task), {})
  {
    hide Inv, Stable, Stored;
    var none: set<WorkspaceId> := {};
    assert none + none == none;
    assert !HasActiveTurn(s1.db, k.thread) && FreshInstance(s1, task.instance);
    EnrollOk(s1, k, request, task);
    StableTrans(s, s1, Enroll(s1, k, request, task), {}, {});
  }

  lemma StartDurableOk(s: State, k: TurnKey, request: nat, i: InstanceId, w: WorkspaceId)
    requires Inv(s) && s.phase.Up? && FreshInstance(s, i) && w !in s.db.workspaces && !StartRefused(s, k)
    ensures Inv(StartDurable(s, k, request, i, w)) && Stable(s, StartDurable(s, k, request, i, w), {})
  {
    hide Stored;
    EnsureWorkspaceOk(s, k.thread, w);
    var s1 := EnsureWorkspace(s, k.thread, w);
    var ws := s1.db.threads[k.thread];
    EnrollHere(s, s1, k, request, StartTask(Preparing, Durable, i, Some(ws), s1.db.refs[ws]));
  }

  lemma StartTurnOk(s: State, k: TurnKey, mode: Mode, request: nat, i: InstanceId, w: WorkspaceId)
    requires Inv(s) && s.phase.Up? && FreshInstance(s, i) && w !in s.db.workspaces
    ensures Inv(StartTurn(s, k, mode, request, i, w)) && Stable(s, StartTurn(s, k, mode, request, i, w), {})
  {
    hide RowsCanonical, WorkspacesOk, OneActiveTurn, TurnsOk, Owners, TasksOk, LeaseCountsOk, LeasesOk, SessionsOk;
    hide ChainsOk, OperationsOk;
    if !StartRefused(s, k) {
      if mode.Instant? {
        EnrollOk(s, k, request, StartTask(Preparing, Instant, i, None, EMPTY_COMMIT));
      } else {
        StartDurableOk(s, k, request, i, w);
      }
    }
  }

  lemma {:induction false} AncestorStored(commits: map<CommitId, CommitRow>, trees: map<TreeDigest, TreeRow>,
                                          c: CommitId, head: CommitId)
    requires Stored(commits, trees, head) && Ancestor(c, head)
    ensures Stored(commits, trees, c)
  {
    if c != head { AncestorStored(commits, trees, c, head.parent.value); }
  }

  lemma ForkStable(s: State, source: ThreadId, destination: ThreadId, commit: Option<CommitId>, w: WorkspaceId)
    requires s.db.refs.Keys == s.db.workspaces == s.chains.Keys && w !in s.db.workspaces
    ensures Stable(s, ForkThread(s, source, destination, commit, w), {})
  {
  }

  lemma ForkOk(s: State, source: ThreadId, destination: ThreadId, commit: Option<CommitId>, w: WorkspaceId)
    requires Inv(s) && w !in s.db.workspaces
    ensures Inv(ForkThread(s, source, destination, commit, w))
  {
    hide RowsCanonical, OneActiveTurn, TurnsOk, Owners, TasksOk, LeaseCountsOk, LeasesOk, SessionsOk, ChainsOk;
    hide OperationsOk, PhaseOk, Stored, Ancestor;
    if source in s.db.threads && destination !in s.db.threads {
      var current := s.db.refs[s.db.threads[source]];
      assert Stored(s.db.commits, s.db.trees, current);
      if commit.None? {
        AddWorkspaceOk(s, destination, w, current);
      } else if Ancestor(commit.value, current) {
        AncestorStored(s.db.commits, s.db.trees, commit.value, current);
        AddWorkspaceOk(s, destination, w, commit.value);
      }
    }
  }

  // ---------------------------------------------------------------- publishing

  /** The compare-and-swap never misses: whenever a finish has its snapshot, the publish transaction commits. */
  lemma PublishSucceeds(s: State, k: TurnKey, tree: TreeDigest)
    requires Inv(s) && k in s.mem.finishes && s.mem.finishes[k].pc.Snapshotting?
    ensures PublishStatus(s.db, PublishRequest(k, s.mem.finishes[k].pc, tree)).Published?
  {
    FinishFactsHold(s, k);
  }

  ghost predicate PublishFacts(s: State, k: TurnKey) {
    FinishFacts(s, k) && s.mem.finishes[k].pc.Snapshotting? && k in s.db.operations &&
    (var w := s.mem.finishes[k].pc.workspace;
     w in s.db.refs && w in s.chains && s.db.refs[w] == s.mem.finishes[k].pc.expectedHead)
  }

  /** The state after a publish, field by field. */
  ghost predicate PublishedAs(s: State, s': State, k: TurnKey, tree: TreeDigest)
    requires PublishFacts(s, k)
  {
    var pc, t := s.mem.finishes[k].pc, s.db.turns[k];
    var commit := Node(EMPTY_CONTRACT, tree, Some(pc.expectedHead));
    s'.phase == s.phase &&
    s'.db.commits == InsertCommit(s.db.commits, commit, RowOf(commit)) &&
    s'.db.trees == InsertTree(s.db.trees, tree, TreeRowOf(tree)) &&
    s'.db.workspaces == s.db.workspaces && s'.db.threads == s.db.threads &&
    s'.db.refs == s.db.refs[pc.workspace := commit] &&
    s'.db.turns == s.db.turns[k := t.(state := Finished, result := Some(commit))] &&
    s'.db.instances == s.db.instances[pc.instance := s.db.instances[pc.instance].(state := Ready)] &&
    s'.db.operations == s.db.operations[k := OpSucceeded] &&
    s'.mem == s.mem.(finishes := s.mem.finishes[k := s.mem.finishes[k].(pc := Deleting(AfterCommit, false))]) &&
    s'.chains == s.chains[pc.workspace := s.chains[pc.workspace].(published := s.chains[pc.workspace].published +
                                                                  [Publication(k, tree)])]
  }

  lemma PublishStep(s: State, k: TurnKey, tree: TreeDigest)
    requires PublishFacts(s, k)
    requires PublishStatus(s.db, PublishRequest(k, s.mem.finishes[k].pc, tree)).Published?
    ensures PublishedAs(s, PublishCommit(s, k, tree), k, tree)
  {
  }

  lemma PublishFactsHold(s: State, k: TurnKey)
    requires Inv(s) && k in s.mem.finishes && s.mem.finishes[k].pc.Snapshotting?
    ensures PublishFacts(s, k)
  {
    FinishFactsHold(s, k);
  }

  lemma PublishRows(s: State, s': State, k: TurnKey, tree: TreeDigest)
    requires PublishFacts(s, k) && PublishedAs(s, s', k, tree) && RowsCanonical(s.db)
    ensures RowsCanonical(s'.db)
  {
  }

  lemma PublishRefs(s: State, s': State, k: TurnKey, tree: TreeDigest)
    requires PublishFacts(s, k) && PublishedAs(s, s', k, tree) && WorkspacesOk(s.db)
    ensures WorkspacesOk(s'.db)
  {
    forall v | v in s'.db.refs ensures Stored(s'.db.commits, s'.db.trees, s'.db.refs[v]) {
      StoredMonotone(s.db.commits, s.db.trees, s'.db.commits, s'.db.trees, s.db.refs[v]);
    }
  }

  /** No other active durable turn works on the workspace of turn `k`. */
  lemma OneTurnPerWorkspace(s: State, k: TurnKey, j: TurnKey)
    requires PublishFacts(s, k) && WorkspacesOk(s.db) && OneActiveTurn(s.db)
    requires j != k && Active(s.db, j) && j.thread in s.db.threads
    ensures s.db.threads[j.thread] != s.mem.finishes[k].pc.workspace
  {
    assert Active(s.db, k);
  }

  lemma PublishTurns(s: State, s': State, k: TurnKey, tree: TreeDigest)
    requires PublishFacts(s, k) && PublishedAs(s, s', k, tree)
    requires WorkspacesOk(s.db) && OneActiveTurn(s.db) && TurnsOk(s.db)
    ensures OneActiveTurn(s'.db) && TurnsOk(s'.db)
  {
    forall j | Active(s'.db, j) ensures Active(s.db, j) {}
    forall j | j in s'.db.turns ensures TurnOk(s'.db, j, s'.db.turns[j]) {
      assert TurnOk(s.db, j, s.db.turns[j]);
      if j != k && Active(s.db, j) && j.thread in s.db.threads { OneTurnPerWorkspace(s, k, j); }
    }
  }

  lemma PublishTasks(s: State, s': State, k: TurnKey, tree: TreeDigest)
    requires PublishFacts(s, k) && PublishedAs(s, s', k, tree)
    requires WorkspacesOk(s.db) && OneActiveTurn(s.db) && TasksOk(s)
    ensures TasksOk(s')
  {
    forall j | j in s'.mem.starts ensures StartOk(s', j, s'.mem.starts[j]) {
      var task := s.mem.starts[j];
      assert StartOk(s, j, task);
      if task.mode.Durable? { OneTurnPerWorkspace(s, k, j); }
      if task.pc.Preparing? { StoredMonotone(s.db.commits, s.db.trees, s'.db.commits, s'.db.trees, task.base); }
    }
    forall j | j in s'.mem.finishes ensures FinishOk(s', j, s'.mem.finishes[j]) {
      assert FinishOk(s, j, s.mem.finishes[j]);
      assert j != k ==> !Owns(s.db, j, s.mem.finishes[k].pc.instance);
    }
    forall j | j in s'.db.turns && s'.db.turns[j].state.Open? ensures Served(s'.db, s'.db.turns[j]) {
      assert Served(s.db, s.db.turns[j]);
      assert !Owns(s.db, j, s.mem.finishes[k].pc.instance);
    }
  }

  lemma PublishMemory(s: State, s': State, k: TurnKey, tree: TreeDigest)
    requires PublishFacts(s, k) && PublishedAs(s, s', k, tree)
    requires LeaseCountsOk(s.mem) && LeasesOk(s) && SessionsOk(s.mem)
    ensures LeaseCountsOk(s'.mem) && LeasesOk(s') && SessionsOk(s'.mem)
  {
    hide TurnOk, OwnedBy, RowOf, CountsExact;
    forall l | l in s'.mem.leases ensures LeaseOk(s', s'.mem.leases[l]) { assert LeaseOk(s, s.mem.leases[l]); }
    forall j | j in s'.mem.finishes ensures SessionClause(s'.mem, s'.mem.finishes[j].pc) {
      assert SessionClause(s.mem, s.mem.finishes[j].pc);
    }
  }

  lemma PublishRest(s: State, s': State, k: TurnKey, tree: TreeDigest)
    requires PublishFacts(s, k) && PublishedAs(s, s', k, tree)
    requires Owners(s) && OperationsOk(s) && PhaseOk(s)
    ensures Owners(s') && OperationsOk(s') && PhaseOk(s')
  {
    hide TurnOk, OwnedBy, RowOf, SessionClause, Leased;
    forall j, i | Owns(s'.db, j, i) ensures Owns(s.db, j, i) {}
    if Stored(s.db.commits, s.db.trees, EMPTY_COMMIT) {
      StoredMonotone(s.db.commits, s.db.trees, s'.db.commits, s'.db.trees, EMPTY_COMMIT);
    }
  }

  lemma PublishPublications(s: State, s': State, k: TurnKey, tree: TreeDigest)
    requires PublishFacts(s, k) && PublishedAs(s, s', k, tree) && ChainsOk(s.db, s.chains)
    ensures forall w, n :: w in s'.chains && 0 <= n < |s'.chains[w].published| ==>
      PublicationOk(s'.db, w, s'.chains[w], n)
  {
    hide InsertCommit, InsertTree, OwnedBy, SessionClause, Leased, PublishedOn, OperationOk;
    var w := s.mem.finishes[k].pc.workspace;
    var c, c' := s.chains[w], s'.chains[w];
    var n := |c.published|;
    assert c'.published[..n] == c.published && c'.published[..n + 1] == c'.published;
    forall v, m | v in s'.chains && 0 <= m < |s'.chains[v].published| ensures PublicationOk(s'.db, v, s'.chains[v], m) {
      if v == w && m == n {
      } else {
        assert PublicationOk(s.db, v, s.chains[v], m);
        assert v == w ==> c'.published[..m] == c.published[..m] && c'.published[..m + 1] == c.published[..m + 1];
      }
    }
  }

  lemma PublishChains(s: State, s': State, k: TurnKey, tree: TreeDigest)
    requires PublishFacts(s, k) && PublishedAs(s, s', k, tree) && ChainsOk(s.db, s.chains)
    ensures ChainsOk(s'.db, s'.chains)
  {
    PublishPublications(s, s', k, tree);
    hide InsertCommit, InsertTree, OwnedBy, SessionClause, Leased, PublicationOk;
    var w := s.mem.finishes[k].pc.workspace;
    var c, c' := s.chains[w], s'.chains[w];
    forall j | Done(s'.db, j) ensures
      s'.db.turns[j].workspace.Some? && s'.db.turns[j].workspace.value in s'.chains &&
      PublishedOn(s'.chains[s'.db.turns[j].workspace.value], j)
    {
      if j == k {
        assert c'.published[|c.published|].key == k;
      } else {
        assert Done(s.db, j);
        var v := s.db.turns[j].workspace.value;
        var m :| 0 <= m < |s.chains[v].published| && s.chains[v].published[m].key == j;
        assert s'.chains[v].published[m].key == j;
      }
    }
  }

  lemma PublishStable(s: State, s': State, k: TurnKey, tree: TreeDigest)
    requires PublishFacts(s, k) && PublishedAs(s, s', k, tree)
    ensures Stable(s, s', {s.mem.finishes[k].pc.workspace})
  {
  }

  lemma PublishOk(s: State, k: TurnKey, tree: TreeDigest)
    requires Inv(s) && k in s.mem.finishes && s.mem.finishes[k].pc.Snapshotting?
    ensures Inv(PublishCommit(s, k, tree))
  {
    hide PublishedAs, RowsCanonical, WorkspacesOk, OneActiveTurn, TurnsOk, Owners, TasksOk, LeaseCountsOk, LeasesOk;
    hide SessionsOk, ChainsOk, OperationsOk, PhaseOk;
    var s' := PublishCommit(s, k, tree);
    PublishFactsHold(s, k);
    PublishSucceeds(s, k, tree);
    PublishStep(s, k, tree);
    PublishRows(s, s', k, tree);
    PublishRefs(s, s', k, tree);
    PublishTurns(s, s', k, tree);
    PublishTasks(s, s', k, tree);
    PublishMemory(s, s', k, tree);
    PublishRest(s, s', k, tree);
    PublishChains(s, s', k, tree);
  }

  // ---------------------------------------------------------------- recovery, shutdown and crash

  /** The turns and what they name are as before; runtimes may have changed state, other tables shrunk or grown. */
  ghost predicate SameBindings(s: State, s': State) {
    s'.db.turns == s.db.turns && s'.db.threads == s.db.threads && s'.db.refs == s.db.refs &&
    s'.db.workspaces == s.db.workspaces && s'.chains == s.chains && s'.mem == s.mem &&
    s'.db.instances.Keys == s.db.instances.Keys &&
    forall i :: i in s.db.instances ==>
      s'.db.instances[i] == s.db.instances[i].(state := s'.db.instances[i].state, handle := s'.db.instances[i].handle)
  }

  lemma SameBindingsKeep(s: State, s': State)
    requires SameBindings(s, s') && OneActiveTurn(s.db) && TurnsOk(s.db) && Owners(s) && LeasesOk(s)
    ensures OneActiveTurn(s'.db) && TurnsOk(s'.db) && Owners(s') && LeasesOk(s')
  {
    forall k | k in s'.db.turns ensures TurnOk(s'.db, k, s'.db.turns[k]) { assert TurnOk(s.db, k, s.db.turns[k]); }
    forall k, j | Owns(s'.db, k, j) ensures Owns(s.db, k, j) {}
    forall k | Active(s'.db, k) ensures Active(s.db, k) {}
    forall l | l in s'.mem.leases ensures LeaseOk(s', s'.mem.leases[l]) { assert LeaseOk(s, s.mem.leases[l]); }
  }

  lemma SameBindingsChains(s: State, s': State)
    requires SameBindings(s, s') && ChainsOk(s.db, s.chains)
    ensures ChainsOk(s'.db, s'.chains)
  {
    forall w, n | w in s'.chains && 0 <= n < |s'.chains[w].published| ensures PublicationOk(s'.db, w, s'.chains[w], n) {
      assert PublicationOk(s.db, w, s.chains[w], n);
    }
  }

  lemma SameBindingsStable(s: State, s': State)
    requires SameBindings(s, s')
    ensures Stable(s, s', {})
  {
  }

  /** Operation rows may have gone, and none is left RUNNING once the daemon is not down. */
  ghost predicate SettledOperations(s: State, s': State) {
    forall k :: k in s'.db.operations ==>
      k in s.db.operations && s'.db.operations[k] == s.db.operations[k] &&
      (s'.phase.Down? || !s'.db.operations[k].OpRunning?)
  }

  lemma NoneRunning(s: State)
    requires OperationsOk(s) && s.mem.finishes == map[] && !s.phase.Down?
    ensures forall k :: k in s.db.operations ==> !s.db.operations[k].OpRunning?
  {
    forall k | k in s.db.operations ensures !s.db.operations[k].OpRunning? { assert OperationOk(s, k); }
  }

  /** With no task and, once up, no active turn, nothing else depends on the state of a runtime. */
  lemma SameBindingsInv(s: State, s': State)
    requires Inv(s) && SameBindings(s, s')
    requires s.mem.starts == map[] && s.mem.finishes == map[]
    requires s'.phase.Up? ==> forall k :: k in s.db.turns ==> !s.db.turns[k].state.Open?
    requires RowsCanonical(s'.db) && HeadsStored(s'.db) && PhaseOk(s') && SettledOperations(s, s')
    ensures Inv(s') && Stable(s, s', {})
  {
    forall k | k in s'.db.operations ensures OperationOk(s', k) { assert OperationOk(s, k); }
    SameBindingsKeep(s, s');
    SameBindingsChains(s, s');
    SameBindingsStable(s, s');
  }

  lemma RowOk(s: State, i: InstanceId, row: Instance)
    requires Inv(s) && i in s.db.instances && row == s.db.instances[i].(state := row.state, handle := row.handle)
    requires s.mem.starts == map[] && s.mem.finishes == map[] && (s.phase.Up? ==> NoActiveTurn(s.db))
    ensures Inv(s.(db := SetInstance(s.db, i, row))) && Stable(s, s.(db := SetInstance(s.db, i, row)), {})
  {
    if !s.phase.Down? { NoneRunning(s); }
    SameBindingsInv(s, s.(db := SetInstance(s.db, i, row)));
  }

  lemma RecoverTurnOk(s: State, k: TurnKey)
    requires Inv(s) && s.phase.Recovering? && Active(s.db, k)
    ensures Inv(s.(db := SetTurnState(s.db, k, Failed))) && Stable(s, s.(db := SetTurnState(s.db, k, Failed)), {})
  {
    hide RowsCanonical, WorkspacesOk, OneActiveTurn, ChainsOk, Stored;
    assert TurnOk(s.db, k, s.db.turns[k]);
    KeepsInv(s, s.(db := SetTurnState(s.db, k, Failed)), k, 0);
  }

  lemma SweepKeeps(s: State, k: TurnKey, destroyed: bool, i: InstanceId)
    requires s.phase.Up? && s.mem.starts == map[] && s.mem.finishes == map[] && s.mem.leases == map[]
    requires s.mem.waiters == {}
    requires Active(s.db, k) && TurnOk(s.db, k, s.db.turns[k]) && OperationOk(s, k)
    requires s.db.turns[k].instance.Some? ==> s.db.turns[k].instance == Some(i) && OwnedBy(s, k, i)
    ensures Keeps(s, SweepTurn(s, k, destroyed), k, i)
  {
  }

  lemma SweepOk(s: State, k: TurnKey, destroyed: bool)
    requires Inv(s) && s.phase.Up? && Drained(s) && Active(s.db, k)
    ensures Inv(SweepTurn(s, k, destroyed)) && Stable(s, SweepTurn(s, k, destroyed), {})
  {
    var i := if s.db.turns[k].instance.Some? then s.db.turns[k].instance.value else 0;
    assert s.db.turns[k].instance.Some? ==> Owns(s.db, k, i);
    forall l ensures l !in s.mem.leases { assert l in s.mem.leases ==> LeaseOk(s, s.mem.leases[l]); }
    SweepKeeps(s, k, destroyed, i);
    KeepsInv(s, SweepTurn(s, k, destroyed), k, i);
  }

  lemma InitializeOk(s: State)
    requires Inv(s) && s.phase.Down?
    ensures Inv(InitializeDaemon(s)) && Stable(s, InitializeDaemon(s), {})
  {
    var s' := InitializeDaemon(s);
    forall v | v in s'.db.refs ensures Stored(s'.db.commits, s'.db.trees, s'.db.refs[v]) {
      StoredMonotone(s.db.commits, s.db.trees, s'.db.commits, s'.db.trees, s.db.refs[v]);
    }
    SameBindingsInv(s, s');
  }

  lemma CollectOk(s: State, commits: set<CommitId>, trees: set<TreeDigest>)
    requires Inv(s) && Drained(s) && HeadsStored(Collected(s.db, commits, trees))
    ensures Inv(s.(db := Collected(s.db, commits, trees))) && Stable(s, s.(db := Collected(s.db, commits, trees)), {})
  {
    if !s.phase.Down? { NoneRunning(s); }
    SameBindingsInv(s, s.(db := Collected(s.db, commits, trees)));
  }

  lemma CrashOk(s: State)
    requires Inv(s)
    ensures Inv(s.(phase := Down, mem := EMPTY_MEMORY)) && Stable(s, s.(phase := Down, mem := EMPTY_MEMORY), {})
  {
    hide RowsCanonical, WorkspacesOk, OneActiveTurn, TurnsOk, ChainsOk, Stored;
  }

  lemma RecoverDoneOk(s: State)
    requires Inv(s) && s.phase.Recovering? && NoActiveTurn(s.db)
    ensures Inv(s.(phase := Up)) && Stable(s, s.(phase := Up), {})
  {
    hide RowsCanonical, WorkspacesOk, ChainsOk, TurnOk;
  }

  lemma ClosingSame(s: State, s': State)
    requires s' == s.(mem := s.mem.(closing := true))
    requires LeaseCountsOk(s.mem) && LeasesOk(s) && SessionsOk(s.mem)
    ensures SameTurns(s, s') && LeaseCountsOk(s'.mem) && LeasesOk(s') && SessionsOk(s'.mem)
  {
    forall l | l in s'.mem.leases ensures LeaseOk(s', s'.mem.leases[l]) { assert LeaseOk(s, s.mem.leases[l]); }
    forall k | k in s'.mem.finishes ensures SessionClause(s'.mem, s'.mem.finishes[k].pc) {
      assert SessionClause(s.mem, s.mem.finishes[k].pc);
    }
  }

  lemma CloseOk(s: State)
    requires Inv(s) && s.phase.Up?
    ensures Inv(s.(mem := s.mem.(closing := true))) && Stable(s, s.(mem := s.mem.(closing := true)), {})
  {
    ClosingSame(s, s.(mem := s.mem.(closing := true)));
    SameTurnsInv(s, s.(mem := s.mem.(closing := true)));
  }

  // ---------------------------------------------------------------- every step keeps the invariant

  lemma StartStepOk(s: State, a: Step)
    requires Inv(s) && Enabled(s, a)
    requires a.StartAbort? || a.StartProvision? || a.StartRuntime? || a.StartFail? || a.StartOpen?
    ensures Inv(Apply(s, a)) && Stable(s, Apply(s, a), {})
  {
    hide Inv, Stable, Keeps, StartOk, TurnOk, OwnedBy;
    var k := a.k;
    StartFactsHold(s, k);
    match a {
      case StartAbort(_) => AbortKeeps(s, k);
      case StartProvision(_) => ProvisionKeeps(s, k);
      case StartRuntime(_, created) => RuntimeKeeps(s, k, created);
      case StartFail(_) => FailStartKeeps(s, k);
      case StartOpen(_) => OpenKeeps(s, k);
    }
    KeepsInv(s, Apply(s, a), k, s.mem.starts[k].instance);
  }

  lemma FinishStepOk(s: State, a: Step)
    requires Inv(s) && Enabled(s, a)
    requires a.CloseBegin? || a.CloseSession? || a.CloseDone?
    ensures Inv(Apply(s, a)) && Stable(s, Apply(s, a), {})
  {
    hide Inv, Stable, Keeps, TurnOk, OwnedBy, SessionClause, Leased;
    var k := a.k;
    FinishFactsHold(s, k);
    match a {
      case CloseBegin(_) => BeginCloseKeeps(s, k);
      case CloseSession(_, x, closed) => KillKeeps(s, k, x, closed);
      case CloseDone(_) =>
        if s.mem.finishes[k].pc.failed { DeleteNextKeeps(s, k, AfterFailure); } else { EndCloseKeeps(s, k); }
    }
    KeepsInv(s, Apply(s, a), k, RuntimeOf(s, k));
  }

  lemma DeleteStepOk(s: State, a: Step)
    requires Inv(s) && Enabled(s, a) && (a.SnapshotFail? || a.DeleteBegin? || a.DeleteEnd?)
    ensures Inv(Apply(s, a)) && Stable(s, Apply(s, a), {})
  {
    hide Inv, Stable, Keeps, TurnOk, OwnedBy, SessionClause, Leased;
    var k := a.k;
    FinishFactsHold(s, k);
    match a {
      case SnapshotFail(_) => AbandonKeeps(s, k);
      case DeleteBegin(_) => BeginDeleteKeeps(s, k);
      case DeleteEnd(_, destroyed) => EndDeleteKeeps(s, k, destroyed);
    }
    KeepsInv(s, Apply(s, a), k, RuntimeOf(s, k));
  }

  /** Once the sessions are closed the head checks of `commitTurnRuntime` always pass. */
  lemma CommitAlwaysAdmitted(s: State, k: TurnKey)
    requires Inv(s) && k in s.mem.finishes && s.mem.finishes[k].pc.Closed? && s.mem.finishes[k].rec.mode.Durable?
    ensures CommitReady(s, k)
  {
    FinishFactsHold(s, k);
  }

  lemma AfterCloseOk(s: State, k: TurnKey)
    requires Inv(s) && k in s.mem.finishes && s.mem.finishes[k].pc.Closed?
    ensures Inv(BeginCommit(s, k)) && Stable(s, BeginCommit(s, k), {})
  {
    hide Inv, Stable, Keeps, OwnedBy, SessionClause;
    FinishFactsHold(s, k);
    if s.mem.finishes[k].rec.mode.Durable? {
      CommitAlwaysAdmitted(s, k);
      BeginCommitKeeps(s, k);
    } else {
      DeleteNextKeeps(s, k, AfterInstant);
    }
    KeepsInv(s, BeginCommit(s, k), k, RuntimeOf(s, k));
  }

  lemma FinishTurnOk(s: State, k: TurnKey)
    requires Inv(s) && s.phase.Up?
    ensures Inv(FinishTurn(s, k)) && Stable(s, FinishTurn(s, k), {})
  {
    hide Inv, Keeps, OwnedBy;
    if k in s.db.turns && s.db.turns[k].state.Open? {
      OpenFactsHold(s, k);
      FinishKeeps(s, k);
      KeepsInv(s, FinishTurn(s, k), k, RuntimeOf(s, k));
    }
  }

  lemma SessionStepOk(s: State, a: Step)
    requires Inv(s) && Enabled(s, a) && (a.ExecEnd? || a.SessionSettle?)
    ensures Inv(Apply(s, a)) && Stable(s, Apply(s, a), {})
  {
    hide Stable, Keeps, OwnedBy, RowsCanonical, WorkspacesOk, OneActiveTurn, TurnsOk, TasksOk, Owners, LeaseCountsOk;
    hide SessionsOk, ChainsOk, OperationsOk, PhaseOk;
    var l := if a.ExecEnd? then s.mem.execs[a.x].lease else a.l;
    LeasedFactsHold(s, l);
    var k, i := s.mem.leases[l].key, s.mem.leases[l].instance;
    match a {
      case ExecEnd(x, started) => EndExecKeeps(s, x, started, k);
      case SessionSettle(x, _) => SettleKeeps(s, x, k);
    }
    KeepsInv(s, Apply(s, a), k, i);
  }

  /** Only a publish moves a ref, and only that of its own workspace. */
  function Moved(s: State, a: Step): set<WorkspaceId>
    requires Enabled(s, a)
  {
    match a
    case Publish(k, _) => {s.mem.finishes[k].pc.workspace}
    case _ => {}
  }

  lemma PublishStepOk(s: State, k: TurnKey, tree: TreeDigest)
    requires Inv(s) && k in s.mem.finishes && s.mem.finishes[k].pc.Snapshotting?
    ensures Inv(PublishCommit(s, k, tree)) && Stable(s, PublishCommit(s, k, tree), {s.mem.finishes[k].pc.workspace})
  {
    hide Stable, Inv, PublishedAs;
    PublishOk(s, k, tree);
    PublishFactsHold(s, k);
    PublishSucceeds(s, k, tree);
    PublishStep(s, k, tree);
    PublishStable(s, PublishCommit(s, k, tree), k, tree);
  }

  predicate OnStartTask(a: Step) {
    a.StartAbort? || a.StartProvision? || a.StartRuntime? || a.StartFail? || a.StartOpen?
  }

  predicate OnFinishTask(a: Step) {
    a.CloseBegin? || a.CloseSession? || a.CloseDone? || a.AfterClose? || a.SnapshotFail? || a.Publish? ||
    a.DeleteBegin? || a.DeleteEnd?
  }

  predicate IsCall(a: Step) {
    a.Start? || a.Acquire? || a.Release? || a.ExecBegin? || a.ExecEnd? || a.SessionSettle? || a.SessionDrop? ||
    a.Finish? || a.Fork?
  }

  lemma CallOk(s: State, a: Step)
    requires Inv(s) && Enabled(s, a) && IsCall(a)
    ensures Inv(Apply(s, a)) && Stable(s, Apply(s, a), {})
  {
    hide Stable, RowsCanonical, OneActiveTurn, TurnsOk, Owners, TasksOk, LeaseCountsOk, SessionsOk, OperationsOk;
    hide Stored;
    match a {
      case Start(k, mode, request, i, w) =>
        StartTurnOk(s, k, mode, request, i, w);
      case Acquire(k, l) => AcquireOk(s, k, l);
      case Release(l) => ReleaseOk(s, l);
      case ExecBegin(l, x) => BeginExecOk(s, l, x);
      case ExecEnd(_, _) => SessionStepOk(s, a);
      case SessionSettle(_, _) => SessionStepOk(s, a);
      case SessionDrop(x) => DropOk(s, x);
      case Finish(k) => FinishTurnOk(s, k);
      case Fork(source, destination, commit, w) =>
        ForkOk(s, source, destination, commit, w);
        ForkStable(s, source, destination, commit, w);
    }
  }

  lemma FinishTaskOk(s: State, a: Step)
    requires Inv(s) && Enabled(s, a) && OnFinishTask(a)
    ensures Inv(Apply(s, a)) && Stable(s, Apply(s, a), Moved(s, a))
  {
    hide Inv, Stable;
    if a.AfterClose? {
      AfterCloseOk(s, a.k);
    } else if a.Publish? {
      PublishStepOk(s, a.k, a.tree);
    } else if a.CloseBegin? || a.CloseSession? || a.CloseDone? {
      FinishStepOk(s, a);
    } else {
      DeleteStepOk(s, a);
    }
  }

  lemma LifecycleOk(s: State, a: Step)
    requires Inv(s) && Enabled(s, a) && !OnStartTask(a) && !OnFinishTask(a) && !IsCall(a)
    ensures Inv(Apply(s, a)) && Stable(s, Apply(s, a), {})
  {
    hide Stable, RowsCanonical, WorkspacesOk, OneActiveTurn, Owners, TasksOk, LeaseCountsOk, LeasesOk, SessionsOk;
    hide ChainsOk, OperationsOk;
    match a {
      case Initialize => InitializeOk(s);
      case CleanFinished(k, destroyed) =>
        var i := s.db.turns[k].instance.value;
        RowOk(s, i, DestroyedRow(s.db.instances[i], destroyed));
      case RecoverInstance(i, destroyed) =>
        RowOk(s, i, s.db.instances[i].(state := Lost, handle := s.db.instances[i].handle && !destroyed));
      case RecoverTurn(k) => RecoverTurnOk(s, k);
      case RecoverDone => RecoverDoneOk(s);
      case Close => CloseOk(s);
      case Sweep(k, destroyed) => SweepOk(s, k, destroyed);
      case ServiceClose(i) => RowOk(s, i, s.db.instances[i].(state := Terminated, handle := false));
      case Collect(commits, trees) => CollectOk(s, commits, trees);
      case Crash => CrashOk(s);
    }
  }

  /** Every step keeps the invariant, and moves no more than the ref of the workspace it publishes on. */
  lemma StepKeepsInv(s: State, a: Step)
    requires Inv(s) && Enabled(s, a)
    ensures Inv(Apply(s, a)) && Stable(s, Apply(s, a), Moved(s, a))
  {
    hide Inv, Stable;
    if OnStartTask(a) { StartStepOk(s, a); }
    else if OnFinishTask(a) { FinishTaskOk(s, a); }
    else if IsCall(a) { CallOk(s, a); }
    else { LifecycleOk(s, a); }
  }
}
