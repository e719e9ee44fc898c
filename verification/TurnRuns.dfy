/** What holds in every state the turn protocol can reach, and over whole runs of it. */
module TurnRuns {
  import opened Prelude
  import opened Storage
  import opened Protocol
  import opened ProtocolInvariant
  import opened Recovery

  predicate Executable(s: State, run: seq<Step>)
    decreases |run|
  {
    run == [] || (Enabled(s, run[0]) && Executable(Apply(s, run[0]), run[1..]))
  }

  function After(s: State, run: seq<Step>): State
    requires Executable(s, run)
    decreases |run|
  {
    if run == [] then s else After(Apply(s, run[0]), run[1..])
  }

  /** Some run of the daemon, crashes and restarts included, ends in `s`. */
  ghost predicate Reachable(s: State) {
    exists run :: Executable(INITIAL, run) && After(INITIAL, run) == s
  }

  lemma {:induction false} RunKeepsInv(s: State, run: seq<Step>)
    requires Inv(s) && Executable(s, run)
    ensures Inv(After(s, run))
    decreases |run|
  {
    if run != [] {
      StepKeepsInv(s, run[0]);
      RunKeepsInv(Apply(s, run[0]), run[1..]);
    }
  }

  lemma ReachableInv(s: State)
    requires Reachable(s)
    ensures Inv(s)
  {
    var run :| Executable(INITIAL, run) && After(INITIAL, run) == s;
    InitialOk();
    RunKeepsInv(INITIAL, run);
  }

  // ---------------------------------------------------------------- compare-and-swap

  /** An OPEN or FINISHING durable turn expects the head its thread's main ref has. */
  lemma ExpectedHeadIsHead(s: State, k: TurnKey)
    requires Reachable(s) && k in s.db.turns && s.db.turns[k].mode.Durable?
    requires s.db.turns[k].state.Open? || s.db.turns[k].state.Finishing?
    ensures
      k.thread in s.db.threads && s.db.threads[k.thread] in s.db.refs &&
      s.db.turns[k].workspace == Some(s.db.threads[k.thread]) &&
      s.db.turns[k].expectedHead == Some(s.db.refs[s.db.threads[k.thread]])
  {
    ReachableInv(s);
    assert TurnOk(s.db, k, s.db.turns[k]);
  }

  /** A thread has at most one turn that has not ended. */
  lemma OneActivePerThread(s: State, j: TurnKey, k: TurnKey)
    requires Reachable(s) && j in s.db.turns && k in s.db.turns && j.thread == k.thread
    requires !s.db.turns[j].state.Finished? && !s.db.turns[j].state.Failed?
    requires !s.db.turns[k].state.Finished? && !s.db.turns[k].state.Failed?
    ensures j == k
  {
    ReachableInv(s);
    assert Active(s.db, j) && Active(s.db, k);
  }

  /** An operation is RUNNING exactly while the snapshot of its turn is taken; after a crash, until recovery has
      started, it may be left over. No operation is RUNNING in a daemon that recovers or has just come up. */
  lemma RunningWhileSnapshotting(s: State, k: TurnKey)
    requires Reachable(s) && !s.phase.Down?
    ensures k in s.db.operations && s.db.operations[k].OpRunning? <==>
      k in s.mem.finishes && s.mem.finishes[k].pc.Snapshotting?
    ensures s.phase.Recovering? || s.mem.finishes == map[] ==>
      !(k in s.db.operations && s.db.operations[k].OpRunning?)
  {
    hide Reachable, RowsCanonical, WorkspacesOk, OneActiveTurn, TurnsOk, Owners, LeaseCountsOk, LeasesOk, SessionsOk;
    hide ChainsOk, HeadsStored, Stored;
    ReachableInv(s);
    if k in s.db.operations { assert OperationOk(s, k); }
    if k in s.mem.finishes { assert FinishOk(s, k, s.mem.finishes[k]); }
  }

  /** The compare-and-swap never misses: a snapshot that arrives is published, on top of the current head. */
  lemma CasNeverMisses(s: State, k: TurnKey, tree: TreeDigest)
    requires Reachable(s) && Enabled(s, Publish(k, tree))
    ensures
      var s' := Apply(s, Publish(k, tree));
      k in s.db.turns && k.thread in s.db.threads && s.db.threads[k.thread] in s.db.refs &&
      (var w := s.db.threads[k.thread];
       var commit := Node(EMPTY_CONTRACT, tree, Some(s.db.refs[w]));
       PublishStatus(s.db, PublishRequest(k, s.mem.finishes[k].pc, tree)).Published? &&
       s'.db.refs == s.db.refs[w := commit] &&
       s'.db.turns == s.db.turns[k := s.db.turns[k].(state := Finished, result := Some(commit))] &&
       commit in s'.db.commits && s'.db.commits[commit] == RowOf(commit) &&
       tree in s'.db.trees && s'.db.trees[tree] == TreeRowOf(tree))
  {
    hide Reachable, OneActiveTurn, TurnsOk, Owners, TasksOk, LeaseCountsOk, LeasesOk, SessionsOk, ChainsOk;
    hide OperationsOk, PhaseOk, HeadsStored;
    ReachableInv(s);
    PublishFactsHold(s, k);
    PublishSucceeds(s, k, tree);
    PublishStep(s, k, tree);
    PublishRows(s, Apply(s, Publish(k, tree)), k, tree);
  }

  // ---------------------------------------------------------------- leases and sessions

  /** When the commit starts and while its snapshot is taken, the turn has no lease,
      no execution of its runtime is in flight and no session of its runtime is active. */
  lemma SnapshotIsQuiet(s: State, k: TurnKey)
    requires Reachable(s) && k in s.mem.finishes && (s.mem.finishes[k].pc.Closed? || s.mem.finishes[k].pc.Snapshotting?)
    ensures HeldBy(s.mem.leases, k) == {}
    ensures k in s.db.turns && s.db.turns[k].instance.Some?
    ensures forall x :: x in s.mem.execs ==> s.mem.execs[x].instance != RuntimeOf(s, k)
    ensures ActiveSessions(s.mem, RuntimeOf(s, k)) == {}
  {
    hide Reachable, RowsCanonical, WorkspacesOk, OneActiveTurn, TurnsOk, Owners, ChainsOk, OperationsOk, PhaseOk;
    ReachableInv(s);
    FinishFactsHold(s, k);
    forall x | x in s.mem.execs ensures s.mem.execs[x].instance != RuntimeOf(s, k) {
      var l := s.mem.execs[x].lease;
      assert LeaseOk(s, s.mem.leases[l]);
      assert Owns(s.db, s.mem.leases[l].key, s.mem.leases[l].instance) && s.mem.leases[l].key != k;
    }
  }

  /** `leaseCounts` has exactly the turns with live leases and counts them; a waiter implies a live lease. */
  lemma LeaseAccounting(s: State, k: TurnKey)
    requires Reachable(s)
    ensures k in s.mem.counts <==> HeldBy(s.mem.leases, k) != {}
    ensures k in s.mem.counts ==> s.mem.counts[k] == |HeldBy(s.mem.leases, k)|
    ensures k in s.mem.waiters <==> k in s.mem.finishes && s.mem.finishes[k].pc.WaitLeases?
    ensures k in s.mem.waiters ==> HeldBy(s.mem.leases, k) != {}
  {
    ReachableInv(s);
    if l :| l in HeldBy(s.mem.leases, k) {
      assert s.mem.leases[l].key in s.mem.counts;
    }
  }

  /** No wakeup is lost: the release of the last lease lets the waiting finish go on, an earlier one does not. */
  lemma LastReleaseWakes(s: State, l: LeaseId)
    requires Reachable(s) && l in s.mem.leases && s.mem.leases[l].key in s.mem.finishes
    ensures
      var k, s' := s.mem.leases[l].key, ReleaseLease(s, l);
      s.mem.finishes[k].pc.WaitLeases? && k in s'.mem.finishes &&
      (s'.mem.finishes[k].pc.LeasesDone? <==> HeldBy(s'.mem.leases, k) == {}) &&
      (s'.mem.finishes[k].pc.WaitLeases? <==> HeldBy(s'.mem.leases, k) != {})
  {
    ReachableInv(s);
    var k, s' := s.mem.leases[l].key, ReleaseLease(s, l);
    assert LeaseOk(s, s.mem.leases[l]);
    FinishFactsHold(s, k);
    ReleaseCounts(s, l);
    if j :| j in HeldBy(s'.mem.leases, k) {
      assert s'.mem.leases[j].key in s'.mem.counts;
    }
  }

  // ---------------------------------------------------------------- main chains

  lemma {:induction false} HeadDepth(initial: CommitId, published: seq<Publication>)
    ensures Depth(Head(initial, published)) == Depth(initial) + |published|
  {
    if published != [] { HeadDepth(initial, published[..|published| - 1]); }
  }

  lemma {:induction false} HeadAncestors(initial: CommitId, published: seq<Publication>, n: nat)
    requires n <= |published|
    ensures Ancestor(Head(initial, published[..n]), Head(initial, published))
  {
    if n == |published| {
      assert published[..n] == published;
    } else {
      var rest := published[..|published| - 1];
      HeadAncestors(initial, rest, n);
      assert rest[..n] == published[..n];
    }
  }

  ghost predicate OnMainChain(s: State, k: TurnKey) {
    k.thread in s.db.threads && s.db.threads[k.thread] in s.chains &&
    PublishedOn(s.chains[s.db.threads[k.thread]], k)
  }

  /** The main ref of a thread is the head its workspace was created with followed by its publications: the n-th commit
      is the result of the n-th finished turn of that thread, whose expected head is the commit before it. */
  lemma MainChain(s: State, h: ThreadId)
    requires Reachable(s) && h in s.db.threads
    ensures
      var w := s.db.threads[h];
      w in s.db.refs && w in s.chains &&
      (var c := s.chains[w];
       s.db.refs[w] == Head(c.initial, c.published) &&
       (forall n :: 0 <= n < |c.published| ==> c.published[n].key.thread == h && PublicationOk(s.db, w, c, n)))
  {
    hide Reachable, RowsCanonical, OneActiveTurn, TurnsOk, Owners, TasksOk, LeaseCountsOk, LeasesOk, SessionsOk;
    hide OperationsOk, PhaseOk, HeadsStored;
    ReachableInv(s);
    var w := s.db.threads[h];
    var c := s.chains[w];
    forall n | 0 <= n < |c.published| ensures c.published[n].key.thread == h && PublicationOk(s.db, w, c, n) {
      assert PublicationOk(s.db, w, c, n);
    }
  }

  /** No turn publishes twice. */
  lemma PublishedOnce(s: State, v: WorkspaceId, w: WorkspaceId, m: nat, n: nat)
    requires Reachable(s) && v in s.chains && w in s.chains
    requires m < |s.chains[v].published| && n < |s.chains[w].published|
    requires s.chains[v].published[m].key == s.chains[w].published[n].key
    ensures v == w && m == n
  {
    hide Reachable, RowsCanonical, OneActiveTurn, TurnsOk, Owners, TasksOk, LeaseCountsOk, LeasesOk, SessionsOk;
    hide OperationsOk, PhaseOk, HeadsStored;
    ReachableInv(s);
    var c := s.chains[v];
    assert PublicationOk(s.db, v, c, m) && PublicationOk(s.db, w, s.chains[w], n);
    HeadDepth(c.initial, c.published[..m]);
    HeadDepth(c.initial, c.published[..n]);
  }

  /** At any point of any run, crashes included: a durable turn is FINISHED exactly when it published on the main chain
      of its own thread, and then its result is a commit on top of its expected head that the main ref leads to. */
  lemma FinishedExactlyWhenPublished(s: State, k: TurnKey)
    requires Reachable(s) && k in s.db.turns && s.db.turns[k].mode.Durable?
    ensures s.db.turns[k].state.Finished? <==> OnMainChain(s, k)
    ensures s.db.turns[k].state.Finished? ==>
      var t, w := s.db.turns[k], s.db.threads[k.thread];
      t.workspace == Some(w) && w in s.db.refs && t.result.Some? && t.expectedHead.Some? &&
      t.result.value.parent == t.expectedHead && Ancestor(t.result.value, s.db.refs[w])
  {
    hide Reachable, RowsCanonical, OneActiveTurn, TurnsOk, Owners, TasksOk, LeaseCountsOk, LeasesOk, SessionsOk;
    hide OperationsOk, PhaseOk, HeadsStored;
    ReachableInv(s);
    if OnMainChain(s, k) {
      var w := s.db.threads[k.thread];
      var n :| 0 <= n < |s.chains[w].published| && s.chains[w].published[n].key == k;
      assert PublicationOk(s.db, w, s.chains[w], n);
    }
    if s.db.turns[k].state.Finished? {
      var w := s.db.turns[k].workspace.value;
      var c := s.chains[w];
      var n :| 0 <= n < |c.published| && c.published[n].key == k;
      assert PublicationOk(s.db, w, c, n);
      assert c.published[..n + 1][..n] == c.published[..n];
      HeadAncestors(c.initial, c.published, n + 1);
    }
  }

  /** The step that makes a durable turn FINISHED appends its publication to the chain of its workspace. */
  lemma PublishAppends(s: State, k: TurnKey, tree: TreeDigest)
    requires Inv(s) && k in s.mem.finishes && s.mem.finishes[k].pc.Snapshotting?
    ensures
      var w, s' := s.mem.finishes[k].pc.workspace, PublishCommit(s, k, tree);
      w in s.chains &&
      s'.chains == s.chains[w := Chain(s.chains[w].initial, s.chains[w].published + [Publication(k, tree)])]
  {
    PublishFactsHold(s, k);
    PublishSucceeds(s, k, tree);
    PublishStep(s, k, tree);
  }

  lemma StepGrows(s: State, a: Step, w: WorkspaceId)
    requires Inv(s) && Enabled(s, a) && w in s.chains
    ensures Inv(Apply(s, a)) && w in Apply(s, a).chains && Extends(s.chains[w], Apply(s, a).chains[w])
  {
    StepKeepsInv(s, a);
  }

  lemma ExtendsTrans(c: Chain, c1: Chain, c2: Chain)
    requires Extends(c, c1) && Extends(c1, c2)
    ensures Extends(c, c2)
  {
  }

  /** Whatever happens later, a workspace keeps what was published on it, in the same order. */
  lemma {:induction false} ChainsOnlyGrow(s: State, run: seq<Step>, w: WorkspaceId)
    requires Inv(s) && Executable(s, run) && w in s.chains
    ensures w in After(s, run).chains && Extends(s.chains[w], After(s, run).chains[w])
    decreases |run|
  {
    if run != [] {
      var s1 := Apply(s, run[0]);
      StepGrows(s, run[0], w);
      ChainsOnlyGrow(s1, run[1..], w);
      ExtendsTrans(s.chains[w], s1.chains[w], After(s1, run[1..]).chains[w]);
    }
  }

  /** FINISHED and FAILED rows never change again, and no turn row disappears. */
  lemma {:induction false} TerminalTurnsNeverChange(s: State, run: seq<Step>, k: TurnKey)
    requires Inv(s) && Executable(s, run) && k in s.db.turns
    ensures k in After(s, run).db.turns
    ensures !ActiveTurnState(s.db.turns[k].state) ==> After(s, run).db.turns[k] == s.db.turns[k]
    decreases |run|
  {
    if run != [] {
      StepKeepsInv(s, run[0]);
      TerminalTurnsNeverChange(Apply(s, run[0]), run[1..], k);
    }
  }

  // ---------------------------------------------------------------- the request of a turn

  /** The row of the turn is there and was made for this request. */
  predicate Asked(db: Tables, k: TurnKey, mode: Mode, request: nat) {
    k in db.turns && db.turns[k].mode == mode && db.turns[k].request == request
  }

  /** Whatever happens after a start was accepted, the row keeps the request and the mode it was given. */
  lemma {:induction false} RequestIsKept(s: State, run: seq<Step>, k: TurnKey, mode: Mode, request: nat)
    requires Inv(s) && Executable(s, run) && Asked(s.db, k, mode, request)
    ensures Asked(After(s, run).db, k, mode, request)
    decreases |run|
  {
    hide Enabled, Apply, Inv;
    if run != [] {
      StepKeepsInv(s, run[0]);
      RequestIsKept(Apply(s, run[0]), run[1..], k, mode, request);
    }
  }

  lemma EnsureKeepsTurns(s: State, thread: ThreadId, w: WorkspaceId)
    ensures EnsureWorkspace(s, thread, w).db.turns == s.db.turns && thread in EnsureWorkspace(s, thread, w).db.threads
  {
  }

  lemma EnrollWrites(s: State, k: TurnKey, request: nat, task: StartTask)
    ensures Enroll(s, k, request, task).db.turns ==
      s.db.turns[k := Turn(task.mode, Starting, request, None, None, None, None)]
  {
  }

  lemma DurableWrites(s: State, k: TurnKey, request: nat, i: InstanceId, w: WorkspaceId)
    ensures StartDurable(s, k, request, i, w).db.turns ==
      s.db.turns[k := Turn(Durable, Starting, request, None, None, None, None)]
  {
    EnsureKeepsTurns(s, k.thread, w);
    var s1 := EnsureWorkspace(s, k.thread, w);
    hide EnsureWorkspace, Enroll;
    var ws := s1.db.threads[k.thread];
    if ws in s1.db.refs {
      EnrollWrites(s1, k, request, StartTask(Preparing, Durable, i, Some(ws), s1.db.refs[ws]));
    }
  }

  lemma StartWrites(s: State, k: TurnKey, mode: Mode, request: nat, i: InstanceId, w: WorkspaceId)
    requires !s.mem.closing && k !in s.db.turns && Idle(s.db, k.thread)
    ensures StartTurn(s, k, mode, request, i, w).db.turns ==
      s.db.turns[k := Turn(mode, Starting, request, None, None, None, None)]
  {
    IdleMeans(s.db, k.thread);
    DurableWrites(s, k, request, i, w);
    hide Idle, HasActiveTurn, StartDurable;
  }

  /** A start on an idle thread of a service that is not closing writes a STARTING row of the request, and over any
      further run the row answers to that request. */
  lemma StartIsRemembered(s: State, k: TurnKey, mode: Mode, request: nat, i: InstanceId, w: WorkspaceId, run: seq<Step>)
    requires Reachable(s) && Enabled(s, Start(k, mode, request, i, w))
    requires !s.mem.closing && k !in s.db.turns && Idle(s.db, k.thread)
    requires Executable(Apply(s, Start(k, mode, request, i, w)), run)
    ensures
      var s1 := Apply(s, Start(k, mode, request, i, w));
      s1.db.turns == s.db.turns[k := Turn(mode, Starting, request, None, None, None, None)] &&
      Asked(After(s1, run).db, k, mode, request)
  {
    hide Inv, Reachable, StartTurn, Idle;
    StartWrites(s, k, mode, request, i, w);
    ReachableInv(s);
    StepKeepsInv(s, Start(k, mode, request, i, w));
    RequestIsKept(Apply(s, Start(k, mode, request, i, w)), run, k, mode, request);
  }

  // ---------------------------------------------------------------- forks

  predicate PublishesOn(a: Step, thread: ThreadId) {
    a.Publish? && a.k.thread == thread
  }

  lemma NotMoved(s: State, a: Step, h: ThreadId)
    requires Inv(s) && Enabled(s, a) && h in s.db.threads && !PublishesOn(a, h)
    ensures s.db.threads[h] in s.db.refs && s.db.threads[h] !in Moved(s, a)
  {
    if a.Publish? { PublishFactsHold(s, a.k); }
  }

  lemma StepLeavesThread(s: State, a: Step, h: ThreadId)
    requires Inv(s) && Enabled(s, a) && h in s.db.threads && !PublishesOn(a, h)
    ensures
      var s' := Apply(s, a);
      Inv(s') && h in s'.db.threads && s'.db.threads[h] == s.db.threads[h] &&
      s.db.threads[h] in s.db.refs && s.db.threads[h] in s'.db.refs &&
      s'.db.refs[s.db.threads[h]] == s.db.refs[s.db.threads[h]]
  {
    NotMoved(s, a, h);
    StepKeepsInv(s, a);
  }

  /** No run without a finishing turn of the thread moves the thread's ref: forks and their sources are independent. */
  lemma {:induction false} OtherThreadsStay(s: State, run: seq<Step>, h: ThreadId)
    requires Inv(s) && Executable(s, run) && h in s.db.threads
    requires forall n :: 0 <= n < |run| ==> !PublishesOn(run[n], h)
    ensures
      var s' := After(s, run);
      h in s'.db.threads && s'.db.threads[h] == s.db.threads[h] &&
      (s.db.threads[h] in s.db.refs ==>
         s.db.threads[h] in s'.db.refs && s'.db.refs[s.db.threads[h]] == s.db.refs[s.db.threads[h]])
    decreases |run|
  {
    hide Inv, Apply, Enabled;
    if run != [] {
      StepLeavesThread(s, run[0], h);
      OtherThreadsStay(Apply(s, run[0]), run[1..], h);
    }
  }

  lemma {:induction false} AncestorTrans(a: CommitId, b: CommitId, c: CommitId)
    requires Ancestor(a, b) && Ancestor(b, c)
    ensures Ancestor(a, c)
  {
    if b != c { AncestorTrans(a, b, c.parent.value); }
  }

  lemma ExtendedHead(c: Chain, c': Chain)
    requires Extends(c, c')
    ensures Ancestor(Head(c.initial, c.published), Head(c'.initial, c'.published))
  {
    HeadAncestors(c.initial, c'.published, |c.published|);
    assert c'.published[..|c.published|] == c.published;
  }

  /** A head only moves to descendants of itself. */
  lemma HeadsDescend(s: State, run: seq<Step>, w: WorkspaceId)
    requires Inv(s) && Executable(s, run) && w in s.db.refs
    ensures w in After(s, run).db.refs && Ancestor(s.db.refs[w], After(s, run).db.refs[w])
  {
    hide Apply, Enabled, HeadsStored, RowsCanonical, TurnsOk, TasksOk, Owners, LeasesOk;
    RunKeepsInv(s, run);
    ChainsOnlyGrow(s, run, w);
    ExtendedHead(s.chains[w], After(s, run).chains[w]);
  }

  /** A fork that is accepted starts the destination at a commit of the source's history,
      and for ever after both heads descend from that fork point. */
  lemma ForkPointIsShared(s: State, source: ThreadId, destination: ThreadId, commit: Option<CommitId>, w: WorkspaceId,
                          run: seq<Step>)
    requires Inv(s) && Enabled(s, Fork(source, destination, commit, w))
    requires Apply(s, Fork(source, destination, commit, w)) != s
    requires Executable(Apply(s, Fork(source, destination, commit, w)), run)
    ensures
      var s1 := Apply(s, Fork(source, destination, commit, w));
      var s2 := After(s1, run);
      source in s.db.threads && s.db.threads[source] in s.db.refs && destination !in s.db.threads &&
      destination in s1.db.threads && s1.db.threads[destination] == w && w in s1.db.refs &&
      Ancestor(s1.db.refs[w], s.db.refs[s.db.threads[source]]) &&
      (commit.Some? ==> s1.db.refs[w] == commit.value) &&
      (commit.None? ==> s1.db.refs[w] == s.db.refs[s.db.threads[source]]) &&
      w in s2.db.refs && s.db.threads[source] in s2.db.refs &&
      Ancestor(s1.db.refs[w], s2.db.refs[w]) && Ancestor(s1.db.refs[w], s2.db.refs[s.db.threads[source]])
  {
    hide RowsCanonical, OneActiveTurn, TurnsOk, Owners, TasksOk, LeaseCountsOk, LeasesOk, SessionsOk, ChainsOk;
    hide OperationsOk, PhaseOk;
    var a := Fork(source, destination, commit, w);
    var s1 := Apply(s, a);
    StepKeepsInv(s, a);
    var ws := s.db.threads[source];
    HeadsDescend(s1, run, w);
    HeadsDescend(s1, run, ws);
    AncestorTrans(s1.db.refs[w], s.db.refs[ws], After(s1, run).db.refs[ws]);
  }

  // ---------------------------------------------------------------- recovery

  predicate IsRecovery(a: Step) {
    a.CleanFinished? || a.RecoverInstance? || a.RecoverTurn?
  }

  ghost predicate RecoveredFrom(s: State, s': State) {
    s'.db.refs == s.db.refs && s'.db.commits == s.db.commits && s'.db.trees == s.db.trees &&
    s'.db.threads == s.db.threads && s'.chains == s.chains && s'.db.turns.Keys == s.db.turns.Keys &&
    (forall k :: k in s.db.turns ==> s'.db.turns[k] == s.db.turns[k] || s'.db.turns[k] == RecoveredTurn(s.db.turns[k]))
  }

  lemma {:induction false} RecoveryTouchesOnlyTurns(s: State, run: seq<Step>)
    requires Executable(s, run) && forall n :: 0 <= n < |run| ==> IsRecovery(run[n])
    ensures RecoveredFrom(s, After(s, run))
    decreases |run|
  {
    if run != [] {
      assert IsRecovery(run[0]);
      RecoveryTouchesOnlyTurns(Apply(s, run[0]), run[1..]);
    }
  }

  /** When recovery is done no turn and no runtime is active, every interrupted turn is FAILED and
      every other turn, every ref, commit and chain is as before the crash. */
  lemma RecoveryOutcome(s: State, run: seq<Step>)
    requires s.phase.Recovering? && Executable(s, run + [RecoverDone])
    requires forall n :: 0 <= n < |run| ==> IsRecovery(run[n])
    ensures
      var s' := After(s, run + [RecoverDone]);
      s'.phase.Up? && RecoveredFrom(s, s') &&
      (forall k :: k in s.db.turns ==>
         s'.db.turns[k] ==
           if s.db.turns[k].state.Finished? || s.db.turns[k].state.Failed? then s.db.turns[k]
           else s.db.turns[k].(state := Failed)) &&
      (forall i :: i in s'.db.instances ==>
         s'.db.instances[i].state.Terminated? || s'.db.instances[i].state.Broken? || s'.db.instances[i].state.Lost?)
  {
    RunThen(s, run, RecoverDone);
    RecoveryTouchesOnlyTurns(s, run);
  }

  lemma {:induction false} RunThen(s: State, run: seq<Step>, a: Step)
    requires Executable(s, run + [a])
    ensures Executable(s, run) && Enabled(After(s, run), a) && After(s, run + [a]) == Apply(After(s, run), a)
    decreases |run|
  {
    if run == [] {
      assert run + [a] == [a];
    } else {
      assert (run + [a])[1..] == run[1..] + [a];
      RunThen(Apply(s, run[0]), run[1..], a);
    }
  }
}
