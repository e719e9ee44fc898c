/** What the steps of one turn give the code that takes the next one. */
module TurnFacts {
  import opened Prelude
  import opened Storage
  import opened Protocol
  import opened ProtocolInvariant

  /** The thread's main ref is at `head`. */
  predicate MainHead(db: Tables, thread: ThreadId, head: CommitId) {
    thread in db.threads && db.threads[thread] in db.refs && db.refs[db.threads[thread]] == head
  }

  /** No execution of the runtime is in flight. */
  predicate NoExecution(mem: Memory, i: InstanceId) {
    forall x :: x in mem.execs ==> mem.execs[x].instance != i
  }

  /** Refs, threads and turns are the same. */
  predicate SameHeads(db: Tables, db': Tables) {
    db'.refs == db.refs && db'.threads == db.threads && db'.turns == db.turns
  }

  predicate OnlyInstance(db: Tables, db': Tables, i: InstanceId) {
    i in db.instances && i in db'.instances && db' == db.(instances := db.instances[i := db'.instances[i]])
  }

  lemma TablesInOrder(s: State)
    requires Inv(s)
    ensures OneActiveTurn(s.db) && RowsCanonical(s.db) && HeadsStored(s.db)
  {
  }

  /** An OPEN turn is fully bound. */
  lemma OpenIsBindable(s: State, k: TurnKey)
    requires Inv(s)
    ensures k in s.db.turns && s.db.turns[k].state.Open? ==> Bindable(s.db.turns[k])
  {
    if k in s.db.turns && s.db.turns[k].state.Open? { assert TurnOk(s.db, k, s.db.turns[k]); }
  }

  lemma CountsPositive(s: State, k: TurnKey)
    requires Inv(s)
    ensures k in s.mem.counts ==> s.mem.counts[k] > 0
  {
  }

  lemma ThreadsHaveRefs(s: State)
    requires Inv(s)
    ensures forall h :: h in s.db.threads ==> s.db.threads[h] in s.db.refs
  {
  }

  /** The runtime of a start is a new row, made for the current head of the turn's thread. */
  lemma ProvisionFacts(s: State, k: TurnKey)
    requires StartFacts(s, k) && s.mem.starts[k].pc.Preparing?
    ensures
      var task, s' := s.mem.starts[k], Provision(s, k);
      task.instance !in s.db.instances && k in s'.mem.starts && s'.mem.starts[k] == task.(pc := AwaitBackend) &&
      s'.db == SetInstance(s.db, task.instance, Instance(task.mode, Provisioning, task.workspace, task.base, false)) &&
      (task.mode.Durable? ==> MainHead(s'.db, k.thread, task.base))
  {
    hide TurnOk, OwnedBy, Leased;
  }

  lemma RuntimeFacts(s: State, k: TurnKey, created: bool)
    requires StartFacts(s, k) && s.mem.starts[k].pc.AwaitBackend?
    ensures
      var i, s' := s.mem.starts[k].instance, RuntimeCreated(s, k, created);
      OnlyInstance(s.db, s'.db, i) && Usable(s'.db.instances[i]) == created
  {
    hide TurnOk, OwnedBy, Leased, Stored;
  }

  /** An opened turn can be leased, has a usable runtime and expects the current head of its thread. */
  lemma OpenTurnFacts(s: State, k: TurnKey)
    requires StartFacts(s, k) && s.mem.starts[k].pc.RuntimeReady?
    ensures
      var s' := OpenTurn(s, k);
      k in s'.db.turns && k !in s'.mem.starts && Bindable(s'.db.turns[k]) && Served(s'.db, s'.db.turns[k]) &&
      (s'.db.turns[k].mode.Durable? ==> MainHead(s'.db, k.thread, s'.db.turns[k].expectedHead.value))
  {
    hide TurnOk, OwnedBy, Leased, Stored;
  }

  /** A turn that stops being active leaves its thread free. */
  lemma ThreadFree(db: Tables, db': Tables, k: TurnKey)
    requires OneActiveTurn(db) && Active(db, k) && SameBut(db.turns, db'.turns, k) && !Active(db', k)
    ensures !HasActiveTurn(db', k.thread)
  {
    if j :| j in db'.turns && j.thread == k.thread && ActiveTurnState(db'.turns[j].state) {
      assert Active(db, j);
    }
  }

  lemma FailStartFacts(s: State, k: TurnKey)
    requires StartFacts(s, k) && s.mem.starts[k].pc.CreateFailed? && OneActiveTurn(s.db)
    ensures
      var s' := FailStart(s, k);
      k in s'.db.turns && s'.db.turns[k].state.Failed? && k !in s'.mem.starts && !HasActiveTurn(s'.db, k.thread)
  {
    hide TurnOk, OwnedBy, Leased, Stored, OneActiveTurn, HasActiveTurn;
    ThreadFree(s.db, FailStart(s, k).db, k);
  }

  /** A leased turn is OPEN or its finish waits for the leases, and its runtime is usable: only closing refuses an
      execution. */
  lemma BeginExecFacts(s: State, l: LeaseId, x: SessionId)
    requires l in s.mem.leases && LeasedFacts(s, s.mem.leases[l].key, s.mem.leases[l].instance)
    ensures
      var lease := s.mem.leases[l];
      (ExecAdmitted(s, lease.instance) <==> lease.instance !in s.mem.closingInstances) && lease.key in s.db.turns &&
      (s.db.turns[lease.key].state.Open? ||
       (lease.key in s.mem.finishes && s.mem.finishes[lease.key].pc.WaitLeases?))
  {
    hide TurnOk, OwnedBy, FinishOk, LeaseOk;
  }

  lemma EndExecFacts(s: State, x: SessionId, started: bool)
    requires Inv(s) && x in s.mem.execs
    ensures
      forall k ::
        (k in s.mem.finishes && k in s.db.turns && s.db.turns[k].instance == Some(s.mem.execs[x].instance)) ==>
          s.mem.finishes[k].pc.WaitLeases?
    ensures s.mem.execs[x].instance in s.db.instances
  {
    hide RowsCanonical, WorkspacesOk, OneActiveTurn, TurnsOk, TasksOk, LeaseCountsOk, SessionsOk, ChainsOk;
    hide OperationsOk;
    hide PhaseOk;
    var l := s.mem.execs[x].lease;
    LeasedFactsHold(s, l);
    hide TurnOk, FinishOk;
    var k := s.mem.leases[l].key;
    forall j | j in s.mem.finishes && j in s.db.turns && s.db.turns[j].instance == Some(s.mem.execs[x].instance)
      ensures s.mem.finishes[j].pc.WaitLeases?
    {
      assert OwnedBy(s, k, s.mem.execs[x].instance) && Owns(s.db, j, s.mem.execs[x].instance);
    }
  }

  /** A turn past its leases has no execution in flight. */
  lemma NothingInFlight(s: State, k: TurnKey)
    requires Inv(s) && k in s.mem.finishes && !s.mem.finishes[k].pc.WaitLeases?
    ensures HeldBy(s.mem.leases, k) == {} && s.db.turns[k].instance.Some? && NoExecution(s.mem, RuntimeOf(s, k))
  {
    FinishFactsHold(s, k);
    forall x | x in s.mem.execs ensures s.mem.execs[x].instance != RuntimeOf(s, k) {
      var l := s.mem.execs[x].lease;
      assert LeaseOk(s, s.mem.leases[l]);
      assert Owns(s.db, s.mem.leases[l].key, s.mem.leases[l].instance) && s.mem.leases[l].key != k;
    }
  }

  /** What the record captured by a finish says of the turn. */
  lemma FinishingTurn(s: State, k: TurnKey)
    requires FinishFacts(s, k)
    ensures k in s.mem.finishes && k in s.db.turns && s.mem.finishes[k].rec.mode == s.db.turns[k].mode
    ensures s.mem.finishes[k].rec.instance == s.db.turns[k].instance && s.db.turns[k].instance.Some?
    ensures s.mem.finishes[k].pc.Closing? || s.mem.finishes[k].pc.Closed? || s.mem.finishes[k].pc.Snapshotting? ==>
      s.mem.finishes[k].pc.instance == RuntimeOf(s, k)
    ensures RuntimeOf(s, k) in s.db.instances
  {
    hide TurnOk, OwnedBy, Leased;
  }

  /** The runtime admits no further execution, none is in flight, and its active sessions are listed. */
  lemma BeginCloseFacts(s: State, k: TurnKey)
    requires FinishFacts(s, k) && s.mem.finishes[k].pc.LeasesDone?
    ensures
      var i, s' := RuntimeOf(s, k), BeginClose(s, k);
      k in s'.mem.finishes && s'.mem.finishes[k].pc == Closing(i, ActiveSessions(s'.mem, i), false) &&
      i in s'.mem.closingInstances && s'.mem.leases == s.mem.leases && s'.mem.execs == s.mem.execs && s'.db == s.db
  {
    hide TurnOk, OwnedBy, Leased;
  }

  /** The active sessions of a runtime stay among those still to be killed, unless a kill failed. */
  lemma KillFacts(s: State, k: TurnKey, x: SessionId, closed: bool)
    requires FinishFacts(s, k) && s.mem.finishes[k].pc.Closing? && x in s.mem.finishes[k].pc.remaining
    ensures
      var pc, s' := s.mem.finishes[k].pc, KillSession(s, k, x, closed);
      k in s'.mem.finishes &&
      s'.mem.finishes[k].pc == Closing(pc.instance, pc.remaining - {x}, pc.failed || !closed) &&
      (pc.failed || !closed || ActiveSessions(s'.mem, pc.instance) <= pc.remaining - {x})
  {
    hide TurnOk, OwnedBy, Leased;
  }

  lemma AllKilled(mem: Memory, pc: FinishPc)
    requires pc.Closing? && pc.remaining == {} && !pc.failed && SessionClause(mem, pc)
    ensures Quiet(mem, pc.instance)
  {
  }

  lemma EndCloseFailed(s: State, k: TurnKey)
    requires FinishFacts(s, k) && s.mem.finishes[k].pc.Closing? && s.mem.finishes[k].pc.failed
    ensures
      var s' := EndClose(s, k);
      k in s'.mem.finishes && s'.mem.finishes[k].pc == Deleting(AfterFailure, false) && s'.db == s.db
  {
    hide FinishOk, TurnOk, OwnedBy, Leased, SessionClause;
  }

  /** A closed runtime is READY and has no active session. */
  lemma EndCloseFacts(s: State, k: TurnKey)
    requires FinishFacts(s, k) && s.mem.finishes[k].pc.Closing?
    requires s.mem.finishes[k].pc.remaining == {} && !s.mem.finishes[k].pc.failed
    ensures
      var i, s' := RuntimeOf(s, k), EndClose(s, k);
      k in s'.mem.finishes && s'.mem.finishes[k].pc == Closed(i) && Quiet(s'.mem, i) &&
      OnlyInstance(s.db, s'.db, i) && s'.db.instances[i].handle && s'.db.instances[i].state.Ready?
  {
    hide TurnOk, OwnedBy, Leased, SessionClause;
    var i := RuntimeOf(s, k);
    AllKilled(s.mem, s.mem.finishes[k].pc);
    assert s.db.instances[i := s.db.instances[i]] == s.db.instances;
  }

  /** The commit of a durable turn is always admitted, and it starts from the current head of the turn's thread. */
  lemma BeginCommitFacts(s: State, k: TurnKey)
    requires FinishFacts(s, k) && s.mem.finishes[k].pc.Closed? && (s.db.turns[k].mode.Durable? ==> CommitReady(s, k))
    ensures
      var t, i, s' := s.db.turns[k], RuntimeOf(s, k), BeginCommit(s, k);
      k in s'.mem.finishes &&
      (if t.mode.Instant? then s'.mem.finishes[k].pc == Deleting(AfterInstant, false) && s'.db == s.db
       else
         t.workspace.Some? && t.expectedHead.Some? && SameHeads(s.db, s'.db) &&
         s'.mem.finishes[k].pc == Snapshotting(i, t.workspace.value, t.expectedHead.value) &&
         MainHead(s'.db, k.thread, t.expectedHead.value) && i in s'.db.instances &&
         s'.db.instances[i].state.Committing? && k in s'.db.operations && s'.db.operations[k].OpRunning?)
  {
    hide OwnedBy, Leased;
    if s.db.turns[k].mode.Durable? { BeginCommitStep(s, k); }
  }

  /** A published snapshot is the new head of the thread, on top of the old one, and the thread is free. */
  lemma PublishedFacts(s: State, k: TurnKey, tree: TreeDigest)
    requires OneActiveTurn(s.db) && PublishFacts(s, k)
    requires PublishStatus(s.db, PublishRequest(k, s.mem.finishes[k].pc, tree)).Published?
    ensures
      var head, s' := s.mem.finishes[k].pc.expectedHead, PublishCommit(s, k, tree);
      var commit := Node(EMPTY_CONTRACT, tree, Some(head));
      MainHead(s.db, k.thread, head) && MainHead(s'.db, k.thread, commit) && k in s'.db.turns &&
      s'.db.turns[k].state.Finished? && s'.db.turns[k].result == Some(commit) &&
      s'.db.turns[k].mode.Durable? && s'.db.threads == s.db.threads && !HasActiveTurn(s'.db, k.thread) &&
      k in s'.mem.finishes && s'.mem.finishes[k].pc == Deleting(AfterCommit, false)
  {
    hide OwnedBy, Leased, HasActiveTurn, OneActiveTurn, InsertCommit, InsertTree;
    PublishStep(s, k, tree);
    hide PublishCommit, PublishStatus;
    ThreadFree(s.db, PublishCommit(s, k, tree).db, k);
  }

  /** Every table after a publish. */
  lemma PublishedRows(s: State, k: TurnKey, tree: TreeDigest)
    requires PublishFacts(s, k) && PublishStatus(s.db, PublishRequest(k, s.mem.finishes[k].pc, tree)).Published?
    ensures
      var was, now, pc := s.db, PublishCommit(s, k, tree).db, s.mem.finishes[k].pc;
      var commit := Node(EMPTY_CONTRACT, tree, Some(pc.expectedHead));
      k in was.turns && pc.instance in was.instances &&
      now.refs == was.refs[pc.workspace := commit] &&
      now.turns == was.turns[k := was.turns[k].(state := Finished, result := Some(commit))] &&
      now.instances == was.instances[pc.instance := was.instances[pc.instance].(state := Ready)] &&
      now.operations == was.operations[k := OpSucceeded] &&
      now.commits.Keys == was.commits.Keys + {commit} && now.trees.Keys == was.trees.Keys + {tree}
  {
    hide OwnedBy, Leased, HasActiveTurn, TurnOk;
    PublishStep(s, k, tree);
  }

  lemma LeasedRuntime(s: State, l: LeaseId)
    requires l in s.mem.leases && LeasedFacts(s, s.mem.leases[l].key, s.mem.leases[l].instance)
    ensures s.mem.leases[l].instance in s.db.instances
  {
    hide TurnOk, OwnedBy, FinishOk, LeaseOk;
  }

  /** An abandoned commit leaves the refs and the turn row, fails its operation and frees the runtime. */
  lemma AbandonFacts(s: State, k: TurnKey)
    requires FinishFacts(s, k) && s.mem.finishes[k].pc.Snapshotting?
    ensures
      var i, s' := RuntimeOf(s, k), AbandonCommit(s, k);
      k in s'.mem.finishes && s'.mem.finishes[k].pc == Deleting(AfterFailure, false) &&
      s'.db.refs == s.db.refs && s'.db.turns == s.db.turns && k in s'.db.operations && s'.db.operations[k].OpFailed? &&
      i in s'.db.instances && s'.db.instances[i].state.Ready?
  {
    hide TurnOk, OwnedBy, Leased;
  }

  lemma BeginDeleteFacts(s: State, k: TurnKey)
    requires FinishFacts(s, k) && s.mem.finishes[k].pc.Deleting?
    ensures
      var i, s' := RuntimeOf(s, k), BeginDelete(s, k);
      k in s'.mem.finishes && s'.mem.finishes[k].pc == Deleting(s.mem.finishes[k].pc.why, true) &&
      OnlyInstance(s.db, s'.db, i) && !Usable(s'.db.instances[i])
  {
    hide TurnOk, OwnedBy, Leased;
  }

  /** The turn has ended and its runtime is gone. Its thread is free, unless the turn was published and the next one has
      already started. */
  lemma EndDeleteFacts(s: State, k: TurnKey, destroyed: bool)
    requires FinishFacts(s, k) && s.mem.finishes[k].pc.Deleting? && OneActiveTurn(s.db)
    ensures
      var i, why, s' := RuntimeOf(s, k), s.mem.finishes[k].pc.why, EndDelete(s, k, destroyed);
      var finished := why.AfterCommit? || (why.AfterInstant? && destroyed);
      k !in s'.mem.finishes && s'.db.refs == s.db.refs && s'.db.threads == s.db.threads &&
      s'.db.turns == s.db.turns[k := s.db.turns[k].(state := if finished then Finished else Failed)] &&
      (HasActiveTurn(s'.db, k.thread) ==> why.AfterCommit? && HasActiveTurn(s.db, k.thread)) &&
      i in s'.db.instances && !ActiveInstanceState(s'.db.instances[i].state)
  {
    hide TurnOk, OwnedBy, Leased, HasActiveTurn, OneActiveTurn;
    var s' := EndDelete(s, k, destroyed);
    if s.mem.finishes[k].pc.why.AfterCommit? {
      assert s'.db.turns == s.db.turns;
      SameThreads(s.db, s'.db, k.thread);
    } else {
      ThreadFree(s.db, s'.db, k);
    }
  }

  lemma SameThreads(db: Tables, db': Tables, thread: ThreadId)
    requires db.turns == db'.turns
    ensures HasActiveTurn(db, thread) == HasActiveTurn(db', thread)
  {
  }
}
