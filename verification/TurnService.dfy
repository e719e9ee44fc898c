/** src/domain/turn-service.ts in its own form: an object whose maps the calls update in place.
    Each method is the code up to its first await, or from one await to the next. */
module TurnServiceModel {
  import opened Prelude
  import opened Storage
  import opened Protocol
  import opened ProtocolInvariant
  import opened TurnFacts
  import opened RepositoryModel

  datatype ErrorCode = ServiceClosed | InvalidArgument | StoredFailure | ThreadBusy | TurnNotOpen | NotFound

  /** A call that starts a promise, replays a stored turn, or is rejected. */
  datatype Reply = Accepted | Replayed(turn: Turn) | Rejected(code: ErrorCode)

  /** What a repeated start or finish answers from the stored row. */
  function ReplayOf(t: Turn): Reply {
    match t.state
    case Open => Replayed(t)
    case Finished => Replayed(t)
    case Failed => Rejected(StoredFailure)
    case _ => Rejected(ThreadBusy)
  }

  /** The main ref of the turn's thread moved from its head to a commit of the tree on top of it, the result of the
      turn. */
  predicate Advanced(was: Tables, now: Tables, k: TurnKey, tree: TreeDigest) {
    k in now.turns && now.turns[k].result.Some? &&
    (var head := now.turns[k].result.value;
     MainHead(now, k.thread, head) && head.tree == tree && head.parent.Some? &&
     MainHead(was, k.thread, head.parent.value))
  }

  class TurnService {
    const repository: Repository
    var activeLeases: map<LeaseId, Lease>
    var leaseCounts: map<TurnKey, nat>
    var leaseWaiters: set<TurnKey>
    var startPromises: map<TurnKey, StartTask>
    var finishPromises: map<TurnKey, FinishTask>
    var closing: bool
    /** The fields of the session manager. */
    var sessions: map<SessionId, Session>
    var executions: map<SessionId, ExecTask>
    var closingInstances: set<InstanceId>
    /** History of the model. */
    ghost var chains: map<WorkspaceId, Chain>

    ghost function View(): State
      reads this, repository
    {
      State(Up, repository.db,
            Memory(activeLeases, leaseCounts, leaseWaiters, startPromises, finishPromises, sessions, executions,
                   closingInstances, closing),
            chains)
    }

    /** The invariant of the machine holds of the object and its tables. */
    ghost predicate Valid()
      reads this, repository
    {
      Inv(View())
    }

    /** A service on the tables of a recovered daemon. */
    constructor (r: Repository, ghost history: map<WorkspaceId, Chain>)
      requires Inv(State(Up, r.db, EMPTY_MEMORY, history))
      ensures Valid() && repository == r && View() == State(Up, r.db, EMPTY_MEMORY, history)
    {
      hide Inv;
      repository := r;
      activeLeases, leaseCounts, leaseWaiters := map[], map[], {};
      startPromises, finishPromises, closing := map[], map[], false;
      sessions, executions, closingInstances := map[], map[], {};
      chains := history;
    }

    /** `ensureThreadWorkspace`: the thread's workspace and its head. */
    method EnsureThreadWorkspace(thread: ThreadId, w: WorkspaceId) returns (ws: WorkspaceId)
      requires Valid() && !closing && w !in repository.db.workspaces
      modifies this`chains, repository
      ensures View() == EnsureWorkspace(old(View()), thread, w)
      ensures Valid()
      ensures thread in repository.db.threads && ws == repository.db.threads[thread] && ws in repository.db.refs
      ensures repository.db == old(repository.db) || (thread !in old(repository.db.threads) && ws == w &&
        repository.db == old(repository.db).(workspaces := old(repository.db.workspaces) + {w},
                                             refs := old(repository.db.refs)[w := EMPTY_COMMIT],
                                             threads := old(repository.db.threads)[thread := w]))
    {
      hide Inv, Stable, Stored;
      EnsureWorkspaceOk(View(), thread, w);
      var db := repository.db;
      if thread in db.threads { return db.threads[thread]; }
      repository.db := db.(workspaces := db.workspaces + {w}, refs := db.refs[w := EMPTY_COMMIT],
                           threads := db.threads[thread := w]);
      chains := chains[w := Chain(EMPTY_COMMIT, [])];
      return w;
    }

    /** `start`. A fresh turn id gets a STARTING row and a pending start; a known one is replayed without effect. */
    method Start(k: TurnKey, mode: Mode, request: nat, i: InstanceId, w: WorkspaceId) returns (reply: Reply)
      requires Valid() && FreshInstance(View(), i) && w !in repository.db.workspaces
      modifies this, repository
      ensures View() == StartTurn(old(View()), k, mode, request, i, w)
      ensures Valid()
      ensures reply.Accepted? <==>
        !old(closing) && k !in old(repository.db.turns) && Idle(old(repository.db), k.thread)
      ensures reply.Accepted? ==>
        repository.db.turns == old(repository.db.turns)[k := Turn(mode, Starting, request, None, None, None, None)] &&
        repository.db.instances == old(repository.db.instances) && k in startPromises &&
        startPromises == old(startPromises)[k := startPromises[k]] && startPromises[k].pc.Preparing? &&
        startPromises[k].mode == mode && startPromises[k].instance == i &&
        repository.db.workspaces <= old(repository.db.workspaces) + {w} && closing == old(closing)
      ensures !reply.Accepted? ==> View() == old(View())
      ensures old(closing) ==> reply == Rejected(ServiceClosed)
      ensures !old(closing) && k in old(repository.db.turns) ==>
        var t := old(repository.db.turns)[k];
        reply == if t.request != request then Rejected(InvalidArgument)
                 else if t.state.Open? || t.state.Finished? then Replayed(t)
                 else if t.state.Failed? then Rejected(StoredFailure)
                 else Rejected(ThreadBusy)
      ensures !old(closing) && k !in old(repository.db.turns) && !Idle(old(repository.db), k.thread) ==>
        reply == Rejected(ThreadBusy)
    {
      hide Inv, Stable, Idle, HasActiveTurn;
      StartTurnOk(View(), k, mode, request, i, w);
      IdleMeans(repository.db, k.thread);
      if closing { return Rejected(ServiceClosed); }
      if k in repository.db.turns {
        var t := repository.db.turns[k];
        return if t.request != request then Rejected(InvalidArgument) else ReplayOf(t);
      }
      if HasActiveTurn(repository.db, k.thread) { return Rejected(ThreadBusy); }
      var row := Turn(mode, Starting, request, None, None, None, None);
      if mode.Instant? {
        repository.db := SetTurn(repository.db, k, row);
        startPromises := startPromises[k := StartTask(Preparing, Instant, i, None, EMPTY_COMMIT)];
      } else {
        var ws := EnsureThreadWorkspace(k.thread, w);
        repository.db := SetTurn(repository.db, k, row);
        if ws in repository.db.refs {
          startPromises := startPromises[k := StartTask(Preparing, Durable, i, Some(ws), repository.db.refs[ws])];
        }
      }
      return Accepted;
    }

    /** `acquire`: one more live lease on an OPEN turn. */
    method Acquire(k: TurnKey, l: LeaseId) returns (lease: Option<Lease>)
      requires Valid() && l !in activeLeases
      modifies this
      ensures View() == AcquireLease(old(View()), k, l)
      ensures Valid()
      ensures lease.Some? <==> !old(closing) && k in repository.db.turns && repository.db.turns[k].state.Open?
      ensures lease.Some? ==>
        activeLeases == old(activeLeases)[l := lease.value] && lease.value.key == k &&
        repository.db.turns[k].instance == Some(lease.value.instance)
      ensures lease.None? ==> View() == old(View())
    {
      hide Inv, Stable;
      AcquireOk(View(), k, l);
      OpenIsBindable(View(), k);
      if closing || k !in repository.db.turns || !Bindable(repository.db.turns[k]) { return None; }
      var bound := Lease(k, repository.db.turns[k].instance.value);
      activeLeases := activeLeases[l := bound];
      leaseCounts := leaseCounts[k := (if k in leaseCounts then leaseCounts[k] else 0) + 1];
      return Some(bound);
    }

    /** The `release` closure. Releasing twice is releasing once; the last release resolves the waiter.
        The request that holds the lease awaits its call before it releases. */
    method Release(l: LeaseId)
      requires Valid() && forall x :: x in executions ==> executions[x].lease != l
      modifies this
      ensures View() == if l in old(activeLeases) then ReleaseLease(old(View()), l) else old(View())
      ensures Valid()
      ensures activeLeases == old(activeLeases) - {l}
    {
      hide Inv, Stable;
      if l !in activeLeases {
        assert activeLeases - {l} == activeLeases;
        return;
      }
      ReleaseOk(View(), l);
      var k := activeLeases[l].key;
      activeLeases := activeLeases - {l};
      var count: nat := if k in leaseCounts then leaseCounts[k] else 1;
      if count > 1 {
        leaseCounts := leaseCounts[k := count - 1];
        return;
      }
      leaseCounts := leaseCounts - {k};
      if k in leaseWaiters {
        leaseWaiters := leaseWaiters - {k};
        if k in finishPromises {
          finishPromises := finishPromises[k := finishPromises[k].(pc := LeasesDone)];
        }
      }
    }

    /** `finish`: an OPEN turn becomes FINISHING and waits for its leases; any other is answered from its row. */
    method Finish(k: TurnKey) returns (reply: Reply)
      requires Valid()
      modifies this, repository
      ensures View() == FinishTurn(old(View()), k)
      ensures Valid()
      ensures reply.Accepted? <==>
        k in old(repository.db.turns) && old(repository.db.turns)[k].state.Open? && k !in old(finishPromises)
      ensures reply.Accepted? ==>
        repository.db == old(repository.db).(
          turns := old(repository.db.turns)[k := old(repository.db.turns)[k].(state := Finishing)]) &&
        k in finishPromises && finishPromises[k].pc == if k in leaseCounts then WaitLeases else LeasesDone
      ensures !reply.Accepted? ==> View() == old(View())
      ensures k !in old(repository.db.turns) ==> reply == Rejected(TurnNotOpen)
      ensures k in old(repository.db.turns) && !old(repository.db.turns)[k].state.Open? ==>
        var t := old(repository.db.turns)[k];
        reply == if t.state.Finished? then Replayed(t)
                 else if t.state.Failed? then Rejected(StoredFailure)
                 else Rejected(ThreadBusy)
    {
      hide Inv, Stable;
      FinishTurnOk(View(), k);
      CountsPositive(View(), k);
      if k !in repository.db.turns { return Rejected(TurnNotOpen); }
      var t := repository.db.turns[k];
      if !t.state.Open? { return ReplayOf(t); }
      if k in finishPromises { return Rejected(ThreadBusy); }
      var rec := t.(state := Finishing);
      repository.db := SetTurn(repository.db, k, rec);
      if k in leaseCounts && leaseCounts[k] != 0 {
        leaseWaiters := leaseWaiters + {k};
        finishPromises := finishPromises[k := FinishTask(WaitLeases, rec)];
      } else {
        finishPromises := finishPromises[k := FinishTask(LeasesDone, rec)];
      }
      return Accepted;
    }

    /** `fork`: the destination starts at the source's head or at a commit of its history. */
    method Fork(source: ThreadId, destination: ThreadId, commit: Option<CommitId>, w: WorkspaceId)
      returns (head: Result<CommitId, ErrorCode>)
      requires Valid() && w !in repository.db.workspaces
      modifies this, repository
      ensures View() == ForkThread(old(View()), source, destination, commit, w)
      ensures Valid()
      ensures head.Ok? ==> destination in repository.db.threads && repository.db.threads[destination] == w &&
                           w in repository.db.refs && repository.db.refs[w] == head.value
      ensures head.Ok? ==> repository.db == old(repository.db).(
        workspaces := old(repository.db.workspaces) + {w}, refs := old(repository.db.refs)[w := head.value],
        threads := old(repository.db.threads)[destination := w])
      ensures head.Err? ==> View() == old(View())
      ensures var was := old(repository.db);
        (source in was.threads ==> was.threads[source] in was.refs) &&
        head ==
          if old(closing) then Err(ServiceClosed)
          else if source == destination then Err(InvalidArgument)
          else if !Idle(was, source) then Err(ThreadBusy)
          else if source !in was.threads then Err(NotFound)
          else if destination in was.threads then Err(InvalidArgument)
          else if commit.None? then Ok(was.refs[was.threads[source]])
          else if Ancestor(commit.value, was.refs[was.threads[source]]) then Ok(commit.value)
          else Err(InvalidArgument)
    {
      hide Inv, Stable, Ancestor, RowsCanonical, HeadsStored, WorkspacesOk, Idle, HasActiveTurn;
      TablesInOrder(View());
      ThreadsHaveRefs(View());
      IdleMeans(repository.db, source);
      ForkOk(View(), source, destination, commit, w);
      var db := repository.db;
      if closing { return Err(ServiceClosed); }
      if source == destination { return Err(InvalidArgument); }
      if HasActiveTurn(db, source) { return Err(ThreadBusy); }
      if source !in db.threads { return Err(NotFound); }
      if destination in db.threads { return Err(InvalidArgument); }
      var ws := db.threads[source];
      if ws !in db.refs { return Err(NotFound); }
      var current := db.refs[ws];
      if commit.Some? {
        var belongs := repository.CommitBelongsToHistory(current, commit.value);
        HistoryIsAncestry(db.commits, db.trees, current, commit.value);
        if !belongs { return Err(InvalidArgument); }
      }
      var at := if commit.Some? then commit.value else current;
      repository.db := CreateThreadWorkspace(db, destination, w, at);
      chains := chains[w := Chain(at, [])];
      return Ok(at);
    }

    // ---------------------------------------------------------------- starting a turn, from await to await

    /** `createTurnRuntime` once the workspace is materialized. Its lookups find the base commit and its tree, and the
        base of a durable runtime is the current head of the thread. */
    method CreateTurnRuntime(k: TurnKey)
      requires Valid() && k in startPromises && startPromises[k].pc.Preparing?
      modifies this, repository
      ensures View() == Provision(old(View()), k)
      ensures Valid()
      ensures var task := old(startPromises)[k];
        k in startPromises && startPromises[k] == task.(pc := AwaitBackend) &&
        task.instance !in old(repository.db.instances) &&
        repository.db == SetInstance(old(repository.db), task.instance,
                                     Instance(task.mode, Provisioning, task.workspace, task.base, false)) &&
        (task.mode.Durable? ==> MainHead(repository.db, k.thread, task.base))
    {
      hide Inv, Stable, StartFacts;
      var task := startPromises[k];
      if task.base in repository.db.commits && task.base.tree in repository.db.trees {
        var row := Instance(task.mode, Provisioning, task.workspace, task.base, false);
        repository.db := SetInstance(repository.db, task.instance, row);
        startPromises := startPromises[k := task.(pc := AwaitBackend)];
      } else {
        startPromises := startPromises - {k};
      }
      StartStepOk(old(View()), StartProvision(k));
      StartFactsHold(old(View()), k);
      ProvisionFacts(old(View()), k);
    }

    /** The backend has answered the creation: only the row of this runtime changes, and it is usable if it was
        created. */
    method BackendCreated(k: TurnKey, created: bool)
      requires Valid() && k in startPromises && startPromises[k].pc.AwaitBackend?
      modifies this, repository
      ensures View() == RuntimeCreated(old(View()), k, created)
      ensures Valid()
      ensures var i := old(startPromises)[k].instance;
        OnlyInstance(old(repository.db), repository.db, i) && Usable(repository.db.instances[i]) == created &&
        startPromises == old(startPromises)[k := old(startPromises)[k].(
                           pc := if created then RuntimeReady else CreateFailed)] &&
        repository.db.instances[i] ==
          if created then old(repository.db.instances)[i].(state := Ready, handle := true)
          else old(repository.db.instances)[i].(state := Broken)
    {
      hide Inv, Stable, StartFacts, Usable;
      StartStepOk(View(), StartRuntime(k, created));
      StartFactsHold(View(), k);
      RuntimeFacts(View(), k, created);
      var task := startPromises[k];
      if task.instance in repository.db.instances {
        var row := repository.db.instances[task.instance];
        if created { row := row.(state := Ready, handle := true); } else { row := row.(state := Broken); }
        repository.db := SetInstance(repository.db, task.instance, row);
      }
      startPromises := startPromises[k := task.(pc := if created then RuntimeReady else CreateFailed)];
    }

    /** The end of `startCreated`: the turn can be leased, has a usable runtime and expects the current head of its
        thread; or it is FAILED and its thread is free. */
    method SettleStart(k: TurnKey, created: bool)
      requires Valid() && k in startPromises
      requires startPromises[k].pc == if created then RuntimeReady else CreateFailed
      modifies this, repository
      ensures View() == if created then OpenTurn(old(View()), k) else FailStart(old(View()), k)
      ensures Valid()
      ensures k !in startPromises && k in repository.db.turns
      ensures var db := repository.db;
        if created then
          Bindable(db.turns[k]) && Served(db, db.turns[k]) &&
          (db.turns[k].mode.Durable? ==> MainHead(db, k.thread, db.turns[k].expectedHead.value))
        else db.turns[k].state.Failed? && !HasActiveTurn(db, k.thread)
      ensures var task, was := old(startPromises)[k], old(repository.db);
        startPromises == old(startPromises) - {k} && k in was.turns &&
        (var t := was.turns[k].(state := if created then Open else Failed, instance := Some(task.instance));
         repository.db == was.(turns := was.turns[k :=
           if created && task.mode.Durable? then t.(workspace := task.workspace, expectedHead := Some(task.base))
           else t]))
    {
      hide Inv, Stable, StartFacts, OneActiveTurn, HasActiveTurn, Bindable, Served, MainHead;
      TablesInOrder(View());
      StartFactsHold(View(), k);
      if created {
        StartStepOk(View(), StartOpen(k));
        OpenTurnFacts(View(), k);
      } else {
        StartStepOk(View(), StartFail(k));
        FailStartFacts(View(), k);
      }
      var task := startPromises[k];
      startPromises := startPromises - {k};
      if k in repository.db.turns {
        var t := repository.db.turns[k];
        if !created {
          t := t.(state := Failed, instance := Some(task.instance));
        } else if task.mode.Durable? {
          t := t.(state := Open, instance := Some(task.instance), workspace := task.workspace,
                  expectedHead := Some(task.base));
        } else {
          t := t.(state := Open, instance := Some(task.instance));
        }
        repository.db := SetTurn(repository.db, k, t);
      }
    }

    /** `startCreated` when nothing else happens while it waits: the turn is OPEN exactly when the backend created the
        runtime, and then it can be leased and expects the head its thread had at the start. */
    method StartCreated(k: TurnKey, created: bool)
      requires Valid() && k in startPromises && startPromises[k].pc.Preparing?
      modifies this, repository
      ensures Valid() && k !in startPromises && k in repository.db.turns
      ensures repository.db.refs == old(repository.db.refs) && repository.db.threads == old(repository.db.threads)
      ensures var db := repository.db;
        if created then
          Bindable(db.turns[k]) && Served(db, db.turns[k]) &&
          (db.turns[k].mode.Durable? ==> MainHead(db, k.thread, db.turns[k].expectedHead.value))
        else db.turns[k].state.Failed? && !HasActiveTurn(db, k.thread)
      ensures var task, was, now := old(startPromises)[k], old(repository.db), repository.db;
        startPromises == old(startPromises) - {k} && closing == old(closing) && k in was.turns &&
        now.turns == was.turns[k := now.turns[k]] && now.turns[k].instance == Some(task.instance) &&
        now.turns[k].request == was.turns[k].request && now.turns[k].mode == was.turns[k].mode &&
        now.turns[k].state == (if created then Open else Failed) &&
        now.workspaces == was.workspaces && now.instances.Keys == was.instances.Keys + {task.instance}
    {
      hide Inv, Bindable, Served, MainHead, HasActiveTurn;
      CreateTurnRuntime(k);
      BackendCreated(k, created);
      SettleStart(k, created);
    }

    /** A client that starts a turn and, once it is OPEN, repeats the same call is answered with the OPEN row of its own
        request. */
    method StartTwice(k: TurnKey, mode: Mode, request: nat, i: InstanceId, w: WorkspaceId, j: InstanceId,
                      v: WorkspaceId)
      returns (first: Reply, second: Reply)
      requires Valid() && FreshInstance(View(), i) && w !in repository.db.workspaces
      requires FreshInstance(View(), j) && j != i && v !in repository.db.workspaces && v != w
      requires !closing && k !in repository.db.turns && Idle(repository.db, k.thread)
      modifies this, repository
      ensures Valid() && first == Accepted && second.Replayed?
      ensures second.turn.state.Open? && second.turn.request == request && second.turn.mode == mode
      ensures k in repository.db.turns && repository.db.turns[k] == second.turn
    {
      hide Inv, Idle, Bindable, Served, MainHead, HasActiveTurn, StartTurn;
      first := Start(k, mode, request, i, w);
      StartCreated(k, true);
      second := Start(k, mode, request, j, v);
    }

    // ---------------------------------------------------------------- executions

    /** `exec` of the session manager up to the backend call. The runtime of a leased turn is READY or RUNNING, so only
        its closing refuses the execution, and an admitted one belongs to a turn no finish has gone past. */
    method Exec(l: LeaseId, x: SessionId) returns (admitted: bool)
      requires Valid() && l in activeLeases && x !in executions && x !in sessions
      modifies this
      ensures View() == BeginExec(old(View()), l, x)
      ensures Valid()
      ensures admitted <==> activeLeases[l].instance !in closingInstances
      ensures executions ==
        if admitted then old(executions)[x := ExecTask(l, activeLeases[l].instance)] else old(executions)
      ensures var k := activeLeases[l].key;
        k in repository.db.turns &&
        (repository.db.turns[k].state.Open? || (k in finishPromises && finishPromises[k].pc.WaitLeases?))
    {
      hide Inv, Stable, LeasedFacts;
      BeginExecOk(View(), l, x);
      LeasedFactsHold(View(), l);
      BeginExecFacts(View(), l, x);
      var i := activeLeases[l].instance;
      admitted := i !in closingInstances && i in repository.db.instances && repository.db.instances[i].handle &&
        (repository.db.instances[i].state.Ready? || repository.db.instances[i].state.Running?);
      if admitted { executions := executions[x := ExecTask(l, i)]; }
    }

    /** The backend has answered the execution: the new session is active and its runtime RUNNING. No finish that has
        listed the sessions of the runtime, or is past that, can be surprised by it. */
    method ExecStarted(x: SessionId, started: bool)
      requires Valid() && x in executions
      modifies this, repository
      ensures View() == EndExec(old(View()), x, started)
      ensures Valid()
      ensures executions == old(executions) - {x}
      ensures sessions ==
        if started then old(sessions)[x := Session(old(executions)[x].instance, true)] else old(sessions)
      ensures old(executions)[x].instance in old(repository.db.instances)
      ensures var i, was := old(executions)[x].instance, old(repository.db);
        repository.db ==
          if started then was.(instances := was.instances[i := was.instances[i].(state := Running)]) else was
      ensures
        forall k ::
          (k in finishPromises && k in repository.db.turns &&
           repository.db.turns[k].instance == Some(old(executions)[x].instance)) ==> finishPromises[k].pc.WaitLeases?
    {
      hide Inv, Stable;
      SessionStepOk(View(), ExecEnd(x, started));
      EndExecFacts(View(), x, started);
      var i := executions[x].instance;
      executions := executions - {x};
      if started {
        sessions := sessions[x := Session(i, true)];
        repository.db := SetInstanceState(repository.db, i, Running);
      }
    }

    /** A poll, a write, a kill or an abandoned call finds that the command has ended: the session is inactive and its
        runtime READY. */
    method SessionEnded(l: LeaseId, x: SessionId)
      requires Valid() && x in sessions && l in activeLeases && activeLeases[l].instance == sessions[x].instance
      modifies this, repository
      ensures View() == SettleSession(old(View()), x)
      ensures Valid()
      ensures sessions == old(sessions)[x := Session(old(sessions)[x].instance, false)]
      ensures var i, was := old(sessions)[x].instance, old(repository.db);
        i in was.instances &&
        repository.db == was.(instances := was.instances[i := was.instances[i].(state := Ready)])
    {
      hide Inv, Stable, LeasedFacts;
      SessionStepOk(View(), SessionSettle(x, l));
      LeasedFactsHold(View(), l);
      LeasedRuntime(View(), l);
      var i := sessions[x].instance;
      sessions := sessions[x := sessions[x].(active := false)];
      repository.db := SetInstanceState(repository.db, i, Ready);
    }

    /** `reap` and `reapExpired` forget a session. */
    method Forget(x: SessionId)
      requires Valid()
      modifies this
      ensures View() == DropSession(old(View()), x)
      ensures Valid()
      ensures sessions == old(sessions) - {x}
    {
      hide Inv, Stable;
      DropOk(View(), x);
      sessions := sessions - {x};
    }

    // ---------------------------------------------------------------- finishing a turn, from await to await

    /** `closeInstance` up to its first kill: executions are refused from here on, none is in flight, no lease is held,
        and the active sessions are those to be killed. */
    method CloseInstance(k: TurnKey)
      requires Valid() && k in finishPromises && finishPromises[k].pc.LeasesDone?
      modifies this
      ensures View() == BeginClose(old(View()), k)
      ensures Valid()
      ensures k in finishPromises && finishPromises[k].pc.Closing? && HeldBy(activeLeases, k) == {}
      ensures var i := finishPromises[k].pc.instance;
        closingInstances == old(closingInstances) + {i} && sessions == old(sessions) && NoExecution(View().mem, i) &&
        finishPromises[k].pc == Closing(i, ActiveSessions(View().mem, i), false)
    {
      hide Inv, Stable, FinishFacts;
      FinishStepOk(View(), CloseBegin(k));
      FinishFactsHold(View(), k);
      NothingInFlight(View(), k);
      BeginCloseFacts(View(), k);
      var task := finishPromises[k];
      if task.rec.instance.None? {
        finishPromises := finishPromises[k := task.(pc := Deleting(AfterFailure, false))];
      } else {
        var i := task.rec.instance.value;
        closingInstances := closingInstances + {i};
        var active := set x | x in sessions && sessions[x] == Session(i, true);
        finishPromises := finishPromises[k := task.(pc := Closing(i, active, false))];
      }
    }

    /** One session of the kill loop. While no kill has failed, every active session of the runtime is still to be
        killed. */
    method CloseSession(k: TurnKey, x: SessionId, closed: bool)
      requires Valid() && k in finishPromises && finishPromises[k].pc.Closing? && x in finishPromises[k].pc.remaining
      modifies this
      ensures View() == KillSession(old(View()), k, x, closed)
      ensures Valid()
      ensures var pc := old(finishPromises)[k].pc;
        k in finishPromises &&
        finishPromises[k].pc == Closing(pc.instance, pc.remaining - {x}, pc.failed || !closed) &&
        (pc.failed || !closed || ActiveSessions(View().mem, pc.instance) <= pc.remaining - {x})
      ensures sessions ==
        if closed && x in old(sessions) then old(sessions)[x := old(sessions)[x].(active := false)] else old(sessions)
    {
      hide Inv, Stable, FinishFacts, ActiveSessions;
      FinishStepOk(View(), Protocol.CloseSession(k, x, closed));
      FinishFactsHold(View(), k);
      KillFacts(View(), k, x, closed);
      var task := finishPromises[k];
      if closed && x in sessions { sessions := sessions[x := sessions[x].(active := false)]; }
      var pc := Closing(task.pc.instance, task.pc.remaining - {x}, task.pc.failed || !closed);
      finishPromises := finishPromises[k := task.(pc := pc)];
    }

    /** After the kill loop: a failure ends the turn, otherwise the runtime is READY and has no active session. */
    method SessionsClosed(k: TurnKey)
      requires Valid() && k in finishPromises && finishPromises[k].pc.Closing? && finishPromises[k].pc.remaining == {}
      modifies this, repository
      ensures View() == EndClose(old(View()), k)
      ensures Valid()
      ensures k in finishPromises
      ensures var pc := old(finishPromises)[k].pc;
        if pc.failed then finishPromises[k].pc == Deleting(AfterFailure, false) && repository.db == old(repository.db)
        else
          finishPromises[k].pc == Closed(pc.instance) && Quiet(View().mem, pc.instance) &&
          OnlyInstance(old(repository.db), repository.db, pc.instance) &&
          repository.db.instances[pc.instance].handle &&
          repository.db.instances[pc.instance] == old(repository.db.instances)[pc.instance].(state := Ready)
    {
      hide Inv, Stable, FinishFacts, Quiet;
      FinishStepOk(View(), CloseDone(k));
      FinishFactsHold(View(), k);
      if finishPromises[k].pc.failed { EndCloseFailed(View(), k); } else { EndCloseFacts(View(), k); }
      var task := finishPromises[k];
      var i := task.pc.instance;
      if task.pc.failed {
        finishPromises := finishPromises[k := task.(pc := Deleting(AfterFailure, false))];
      } else {
        if i in repository.db.instances && repository.db.instances[i].state.Running? {
          repository.db := SetInstanceState(repository.db, i, Ready);
        }
        finishPromises := finishPromises[k := task.(pc := Closed(i))];
      }
    }

    /** The head of `commitTurnRuntime`. An instant turn goes on to delete its runtime; a durable one always passes the
        checks and commits on the current head of its thread. */
    method CommitTurnRuntime(k: TurnKey)
      requires Valid() && k in finishPromises && finishPromises[k].pc.Closed?
      modifies this, repository
      ensures View() == BeginCommit(old(View()), k)
      ensures Valid()
      ensures k in finishPromises && k in repository.db.turns
      ensures var pc, db := finishPromises[k].pc, repository.db;
        if db.turns[k].mode.Instant? then pc == Deleting(AfterInstant, false) && db == old(repository.db)
        else
          pc.Snapshotting? && SameHeads(old(repository.db), db) && MainHead(db, k.thread, pc.expectedHead) &&
          pc.instance in old(repository.db.instances) &&
          db == old(repository.db).(
            operations := old(repository.db.operations)[k := OpRunning],
            instances := old(repository.db.instances)[pc.instance :=
                           old(repository.db.instances)[pc.instance].(state := Committing)])
    {
      hide Inv, Stable, FinishFacts, CommitReady, MainHead;
      var task := finishPromises[k];
      var rec, i := task.rec, task.pc.instance;
      if rec.mode.Instant? {
        finishPromises := finishPromises[k := task.(pc := Deleting(AfterInstant, false))];
      } else if rec.workspace.None? || rec.expectedHead.None? ||
                !CommitAdmitted(repository.db, k, i, rec.workspace.value, rec.expectedHead.value)
      {
        finishPromises := finishPromises[k := task.(pc := Deleting(AfterFailure, false))];
      } else {
        var db := repository.db.(operations := repository.db.operations[k := OpRunning]);
        repository.db := SetInstance(db, i, db.instances[i].(state := Committing));
        finishPromises := finishPromises[k := task.(pc := Snapshotting(i, rec.workspace.value,
                                                                       rec.expectedHead.value))];
      }
      AfterCloseOk(old(View()), k);
      FinishFactsHold(old(View()), k);
      FinishingTurn(old(View()), k);
      if old(finishPromises)[k].rec.mode.Durable? { CommitAlwaysAdmitted(old(View()), k); }
      BeginCommitFacts(old(View()), k);
    }

    /** The end of `commitTurnRuntime`, once the snapshot is stored: the transaction commits, and the new head of the
        thread is a commit of the snapshot on top of the old one. */
    method PublishSnapshot(k: TurnKey, tree: TreeDigest) returns (head: Result<CommitId, PublishOutcome>)
      requires Valid() && k in finishPromises && finishPromises[k].pc.Snapshotting?
      modifies this, repository
      ensures View() == PublishCommit(old(View()), k, tree)
      ensures Valid()
      ensures head.Ok? && MainHead(repository.db, k.thread, head.value) && head.value.tree == tree
      ensures repository.db.threads == old(repository.db.threads) && !HasActiveTurn(repository.db, k.thread)
      ensures head.value.parent.Some? && MainHead(old(repository.db), k.thread, head.value.parent.value)
      ensures k in repository.db.turns && repository.db.turns[k].mode.Durable?
      ensures repository.db.turns[k].state.Finished? &&
        repository.db.turns[k].result == Some(head.value)
      ensures k in finishPromises && finishPromises[k].pc == Deleting(AfterCommit, false)
      ensures var was, now, pc := old(repository.db), repository.db, old(finishPromises)[k].pc;
        k in was.turns && pc.instance in was.instances &&
        now.refs == was.refs[pc.workspace := head.value] &&
        now.turns == was.turns[k := was.turns[k].(state := Finished, result := Some(head.value))] &&
        now.instances == was.instances[pc.instance := was.instances[pc.instance].(state := Ready)] &&
        now.operations == was.operations[k := OpSucceeded] &&
        now.commits.Keys == was.commits.Keys + {head.value} && now.trees.Keys == was.trees.Keys + {tree}
    {
      hide Inv, Stable, PublishFacts, PublishStatus, OneActiveTurn, HasActiveTurn, MainHead, InsertCommit, InsertTree;
      var pc := finishPromises[k].pc;
      var commit := Node(EMPTY_CONTRACT, tree, Some(pc.expectedHead));
      var p := PublishInput(k, pc.instance, pc.workspace, pc.expectedHead, tree, |tree.content|, commit, EMPTY_CONTRACT,
                            pc.expectedHead);
      var outcome := repository.PublishTurnCommit(p);
      if outcome.Published? {
        ghost var chain := if pc.workspace in chains then chains[pc.workspace] else Chain(pc.expectedHead, []);
        chains := chains[pc.workspace := chain.(published := chain.published + [Publication(k, tree)])];
        finishPromises := finishPromises[k := finishPromises[k].(pc := Deleting(AfterCommit, false))];
        head := Ok(commit);
      } else {
        AbandonSnapshot(k);
        head := Err(outcome);
      }
      PublishStepOk(old(View()), k, tree);
      TablesInOrder(old(View()));
      PublishFactsHold(old(View()), k);
      PublishSucceeds(old(View()), k, tree);
      PublishedFacts(old(View()), k, tree);
      PublishedRows(old(View()), k, tree);
    }

    /** The catch block of `commitTurnRuntime`: the refs and the turn stay, the operation fails, the runtime is READY
        again. */
    method AbandonSnapshot(k: TurnKey)
      requires Valid() && k in finishPromises && finishPromises[k].pc.Snapshotting?
      modifies this, repository
      ensures View() == AbandonCommit(old(View()), k)
      ensures Valid()
      ensures SameHeads(old(repository.db), repository.db)
      ensures k in finishPromises && finishPromises[k].pc == Deleting(AfterFailure, false)
      ensures var i, was := old(finishPromises)[k].pc.instance, old(repository.db);
        i in was.instances &&
        repository.db == was.(operations := was.operations[k := OpFailed],
                              instances := was.instances[i := was.instances[i].(state := Ready)])
    {
      hide Inv, Stable, FinishFacts;
      DeleteStepOk(View(), SnapshotFail(k));
      FinishFactsHold(View(), k);
      AbandonFacts(View(), k);
      FinishingTurn(View(), k);
      var i := finishPromises[k].pc.instance;
      if k in repository.db.operations {
        repository.db := repository.db.(operations := repository.db.operations[k := OpFailed]);
      }
      if i in repository.db.instances && repository.db.instances[i].state.Committing? {
        repository.db := SetInstanceState(repository.db, i, Ready);
      }
      finishPromises := finishPromises[k := finishPromises[k].(pc := Deleting(AfterFailure, false))];
    }

    /** `deleteTurnRuntime` up to the backend call: the runtime cannot be used any more. */
    method DeleteTurnRuntime(k: TurnKey)
      requires Valid() && k in finishPromises && finishPromises[k].pc.Deleting? && !finishPromises[k].pc.begun
      modifies this, repository
      ensures View() == BeginDelete(old(View()), k)
      ensures Valid()
      ensures k in finishPromises && finishPromises[k].pc == Deleting(old(finishPromises)[k].pc.why, true)
      ensures k in repository.db.turns && repository.db.turns == old(repository.db.turns)
      ensures repository.db.turns[k].instance.Some?
      ensures var i := repository.db.turns[k].instance.value;
        OnlyInstance(old(repository.db), repository.db, i) && !Usable(repository.db.instances[i]) &&
        repository.db.instances[i] ==
          if old(repository.db.instances)[i].state.Terminated? then old(repository.db.instances)[i]
          else old(repository.db.instances)[i].(state := Terminating)
    {
      hide Inv, Stable, FinishFacts, Usable;
      DeleteStepOk(View(), DeleteBegin(k));
      FinishFactsHold(View(), k);
      FinishingTurn(View(), k);
      BeginDeleteFacts(View(), k);
      var task := finishPromises[k];
      if task.rec.instance.Some? {
        var i := task.rec.instance.value;
        if i in repository.db.instances && !repository.db.instances[i].state.Terminated? {
          repository.db := SetInstanceState(repository.db, i, Terminating);
        }
      }
      finishPromises := finishPromises[k := task.(pc := Deleting(task.pc.why, true))];
    }

    /** The backend has answered the destruction. The turn has ended, FINISHED when it was published or when an
        instant runtime was destroyed; its runtime is gone. Unless it was published, its thread was still taken and
        is free now. */
    method SettleFinish(k: TurnKey, destroyed: bool)
      requires Valid() && k in finishPromises && finishPromises[k].pc.Deleting? && finishPromises[k].pc.begun
      modifies this, repository
      ensures View() == EndDelete(old(View()), k, destroyed)
      ensures Valid()
      ensures k !in finishPromises && k in old(repository.db.turns)
      ensures var why, was, now := old(finishPromises)[k].pc.why, old(repository.db), repository.db;
        var finished := why.AfterCommit? || (why.AfterInstant? && destroyed);
        now.refs == was.refs && now.threads == was.threads &&
        now.turns == was.turns[k := was.turns[k].(state := if finished then Finished else Failed)] &&
        (HasActiveTurn(now, k.thread) ==> why.AfterCommit? && HasActiveTurn(was, k.thread))
      ensures repository.db.turns[k].instance.Some?
      ensures var i, was, now := repository.db.turns[k].instance.value, old(repository.db), repository.db;
        i in was.instances &&
        now == was.(turns := now.turns, instances := was.instances[i :=
                      if destroyed then was.instances[i].(state := Terminated, handle := false)
                      else was.instances[i].(state := Lost)])
    {
      hide Inv, Stable, FinishFacts, OneActiveTurn, HasActiveTurn;
      TablesInOrder(View());
      DeleteStepOk(View(), DeleteEnd(k, destroyed));
      FinishFactsHold(View(), k);
      FinishingTurn(View(), k);
      EndDeleteFacts(View(), k, destroyed);
      var task := finishPromises[k];
      if task.rec.instance.Some? {
        var i := task.rec.instance.value;
        if i in repository.db.instances {
          var row := repository.db.instances[i];
          repository.db := SetInstance(repository.db, i,
            if destroyed then row.(state := Terminated, handle := false) else row.(state := Lost));
        }
      }
      if k in repository.db.turns {
        var state := repository.db.turns[k].state;
        repository.db := SetTurnState(repository.db, k, StateAfterDelete(task.pc.why, destroyed, state));
      }
      finishPromises := finishPromises - {k};
    }

    // ---------------------------------------------------------------- a whole finish

    /** `closeInstance` when nothing else happens while it waits. `killed` are the sessions the backend can kill. */
    method CloseSessions(k: TurnKey, killed: set<SessionId>)
      requires Valid() && k in finishPromises && finishPromises[k].pc.LeasesDone?
      modifies this, repository
      ensures Valid() && k in finishPromises && k in repository.db.turns && repository.db.turns[k].instance.Some?
      ensures SameHeads(old(repository.db), repository.db)
      ensures var i := repository.db.turns[k].instance.value;
        finishPromises[k].pc ==
          if ActiveSessions(old(View()).mem, i) <= killed then Closed(i) else Deleting(AfterFailure, false)
    {
      hide Inv, ActiveSessions, Quiet, FinishFacts;
      FinishFactsHold(View(), k);
      FinishingTurn(View(), k);
      CloseInstance(k);
      ghost var i, all := finishPromises[k].pc.instance, finishPromises[k].pc.remaining;
      while finishPromises[k].pc.remaining != {}
        invariant Valid() && k in finishPromises && finishPromises[k].pc.Closing?
        invariant repository.db == old(repository.db) && finishPromises[k].pc.instance == i
        invariant finishPromises[k].pc.remaining <= all
        invariant finishPromises[k].pc.failed <==> !(all - finishPromises[k].pc.remaining <= killed)
        decreases finishPromises[k].pc.remaining
      {
        var x :| x in finishPromises[k].pc.remaining;
        CloseSession(k, x, x in killed);
      }
      assert all - {} == all;
      SessionsClosed(k);
    }

    /** `commitTurnRuntime` when nothing else happens while it waits; `snapshot` is the tree the backend delivers, if
        any. */
    method CommitSnapshot(k: TurnKey, snapshot: Option<TreeDigest>)
      requires Valid() && k in finishPromises && finishPromises[k].pc.Closed?
      modifies this, repository
      ensures Valid() && k in finishPromises && k in old(repository.db.turns) && k in repository.db.turns
      ensures repository.db.threads == old(repository.db.threads)
      ensures repository.db.turns[k].mode == old(repository.db.turns)[k].mode
      ensures var was, now, pc := old(repository.db), repository.db, finishPromises[k].pc;
        if now.turns[k].mode.Instant? then pc == Deleting(AfterInstant, false) && SameHeads(was, now)
        else if snapshot.None? then pc == Deleting(AfterFailure, false) && SameHeads(was, now)
        else pc == Deleting(AfterCommit, false) && !HasActiveTurn(now, k.thread) &&
             Advanced(was, now, k, snapshot.value)
    {
      hide Inv, HasActiveTurn, FinishFacts;
      FinishFactsHold(View(), k);
      FinishingTurn(View(), k);
      CommitTurnRuntime(k);
      if finishPromises[k].pc.Snapshotting? {
        if snapshot.Some? {
          var head := PublishSnapshot(k, snapshot.value);
        } else {
          AbandonSnapshot(k);
        }
      }
    }

    /** `finishOpen` past the wait for its leases, when nothing else happens while it waits. An instant turn finishes
        exactly when its sessions were killed and its runtime destroyed. A durable one finishes exactly when its
        sessions were killed and the snapshot arrived, and only then its thread's main ref moves: to a commit of the
        snapshot on the old head. Either way the thread is free afterwards. */
    method FinishOpen(k: TurnKey, killed: set<SessionId>, snapshot: Option<TreeDigest>, destroyed: bool)
      requires Valid() && k in finishPromises && finishPromises[k].pc.LeasesDone?
      modifies this, repository
      ensures Valid() && k !in finishPromises && k in old(repository.db.turns) && k in repository.db.turns
      ensures old(repository.db.turns)[k].instance.Some? && !HasActiveTurn(repository.db, k.thread)
      ensures var was, now := old(repository.db), repository.db;
        var closed := ActiveSessions(old(View()).mem, was.turns[k].instance.value) <= killed;
        if was.turns[k].mode.Instant? then
          now.refs == was.refs && now.turns[k].state == (if closed && destroyed then Finished else Failed)
        else if closed && snapshot.Some? then
          now.turns[k].state.Finished? && Advanced(was, now, k, snapshot.value)
        else now.refs == was.refs && now.turns[k].state.Failed?
    {
      hide Inv, HasActiveTurn, ActiveSessions, Usable;
      CloseSessions(k, killed);
      if finishPromises[k].pc.Closed? {
        CommitSnapshot(k, snapshot);
      }
      ghost var committed := repository.db;
      DeleteTurnRuntime(k);
      SameThreads(committed, repository.db, k.thread);
      SettleFinish(k, destroyed);
    }

    // ---------------------------------------------------------------- closing the service

    /** `close` up to its first await: from here on starts, leases and forks are refused. */
    method Close()
      requires Valid()
      modifies this
      ensures View() == old(View()).(mem := old(View()).mem.(closing := true))
      ensures Valid() && closing
    {
      hide Inv, Stable;
      CloseOk(View());
      closing := true;
    }

    /** One round of the last loop of `closeAll`. */
    method FailLeftTurn(k: TurnKey, destroyed: bool)
      requires Valid() && Drained(View()) && Active(repository.db, k)
      modifies repository
      ensures View() == SweepTurn(old(View()), k, destroyed)
      ensures Valid()
      ensures var was, now := old(repository.db), repository.db;
        k in was.turns && now == was.(turns := now.turns, instances := now.instances) &&
        now.turns == was.turns[k := was.turns[k].(state := Failed)] &&
        now.instances ==
          if was.turns[k].instance.Some? && was.turns[k].instance.value in was.instances then
            var i := was.turns[k].instance.value;
            was.instances[i := if destroyed then was.instances[i].(state := Terminated, handle := false)
                               else was.instances[i].(state := Lost)]
          else was.instances
    {
      hide Inv, Stable, Drained;
      SweepOk(View(), k, destroyed);
      var t := repository.db.turns[k];
      if t.instance.Some? && t.instance.value in repository.db.instances {
        var row := repository.db.instances[t.instance.value];
        repository.db := SetInstance(repository.db, t.instance.value,
                                     if destroyed then row.(state := Terminated, handle := false)
                                     else row.(state := Lost));
      }
      repository.db := SetTurnState(repository.db, k, Failed);
    }

    /** The last loop of `closeAll`, once every pending start and finish has settled: whatever is still STARTING or
        FINISHING fails. `destroyed` are the turns whose runtimes the backend can destroy. */
    method FailLeftTurns(destroyed: set<TurnKey>)
      requires Valid() && closing && startPromises == map[] && finishPromises == map[]
      requires forall k :: k in repository.db.turns ==> !repository.db.turns[k].state.Open?
      modifies repository
      ensures Valid()
      ensures var was, now := old(repository.db), repository.db;
        now == was.(turns := now.turns, instances := now.instances) && now.turns.Keys == was.turns.Keys &&
        forall k :: k in was.turns ==>
          now.turns[k] ==
            if was.turns[k].state.Finished? || was.turns[k].state.Failed? then was.turns[k]
            else was.turns[k].(state := Failed)
    {
      hide Inv, SweepTurn;
      ghost var was := repository.db;
      var left := set k | k in repository.db.turns &&
        (repository.db.turns[k].state.Starting? || repository.db.turns[k].state.Finishing?);
      while left != {}
        invariant Valid() && left <= was.turns.Keys
        invariant repository.db == was.(turns := repository.db.turns, instances := repository.db.instances)
        invariant repository.db.turns.Keys == was.turns.Keys
        invariant forall k :: k in was.turns ==>
          (k in left ==> was.turns[k].state.Starting? || was.turns[k].state.Finishing?) &&
          repository.db.turns[k] ==
            if k in left || was.turns[k].state.Finished? || was.turns[k].state.Failed? then was.turns[k]
            else was.turns[k].(state := Failed)
        decreases |left|
      {
        var k :| k in left;
        left := left - {k};
        FailLeftTurn(k, k in destroyed);
      }
    }
  }
}
