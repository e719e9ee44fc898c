/** The turn protocol as a state machine. One step is the code the daemon runs between two
    awaits; a SQLite transaction is one step; a crash keeps the tables and drops the rest. */
module Protocol {
  import opened Prelude
  import opened Storage

  type LeaseId = nat
  type SessionId = nat

  // ---------------------------------------------------------------- state

  /** Where `startCreated` is suspended. */
  datatype StartPc = Preparing | AwaitBackend | RuntimeReady | CreateFailed

  datatype StartTask = StartTask(pc: StartPc, mode: Mode, instance: InstanceId, workspace: Option<WorkspaceId>,
                                 base: CommitId)

  /** Why `deleteTurnRuntime` was called: by `failTurn`, after a published commit, or to end an instant turn. */
  datatype DeleteReason = AfterFailure | AfterCommit | AfterInstant

  /** Where `finishOpen` is suspended. */
  datatype FinishPc =
    | WaitLeases
    | LeasesDone
    | Closing(instance: InstanceId, remaining: set<SessionId>, failed: bool)
    | Closed(instance: InstanceId)
    | Snapshotting(instance: InstanceId, workspace: WorkspaceId, expectedHead: CommitId)
    | Deleting(why: DeleteReason, begun: bool)

  /** `rec` is the turn record `finish` captured. */
  datatype FinishTask = FinishTask(pc: FinishPc, rec: Turn)

  datatype Lease = Lease(key: TurnKey, instance: InstanceId)
  datatype Session = Session(instance: InstanceId, active: bool)
  datatype ExecTask = ExecTask(lease: LeaseId, instance: InstanceId)

  /** The maps that live only in the process. */
  datatype Memory = Memory(
    leases: map<LeaseId, Lease>,
    counts: map<TurnKey, nat>,
    waiters: set<TurnKey>,
    starts: map<TurnKey, StartTask>,
    finishes: map<TurnKey, FinishTask>,
    sessions: map<SessionId, Session>,
    execs: map<SessionId, ExecTask>,
    closingInstances: set<InstanceId>,
    closing: bool)

  const EMPTY_MEMORY := Memory(map[], map[], {}, map[], map[], map[], map[], {}, false)

  /** A history variable of the model: for each workspace the head it was created with and
      what was published on it since, in order. */
  datatype Publication = Publication(key: TurnKey, tree: TreeDigest)
  datatype Chain = Chain(initial: CommitId, published: seq<Publication>)

  datatype Phase = Down | Recovering | Up

  datatype State = State(phase: Phase, db: Tables, mem: Memory, chains: map<WorkspaceId, Chain>)

  const INITIAL := State(Down, Tables(map[], map[], {}, map[], map[], map[], map[], map[]), EMPTY_MEMORY, map[])

  /** The head a chain leads to: every publication is one commit on top of the previous head. */
  function Head(initial: CommitId, published: seq<Publication>): CommitId {
    if published == [] then initial
    else
      var last := |published| - 1;
      Node(EMPTY_CONTRACT, published[last].tree, Some(Head(initial, published[..last])))
  }

  /** The commit, its tree object and those of all its ancestors have their rows. */
  predicate Stored(commits: map<CommitId, CommitRow>, trees: map<TreeDigest, TreeRow>, c: CommitId) {
    c in commits && c.tree in trees && (c.parent.Some? ==> Stored(commits, trees, c.parent.value))
  }

  predicate HeadsStored(db: Tables) {
    forall w :: w in db.refs ==> Stored(db.commits, db.trees, db.refs[w])
  }

  /** Garbage collection leaves only the commit and tree rows in the given sets. */
  function Collected(db: Tables, commits: set<CommitId>, trees: set<TreeDigest>): Tables {
    db.(commits := map c | c in db.commits && c in commits :: db.commits[c],
        trees := map t | t in db.trees && t in trees :: db.trees[t])
  }

  // ---------------------------------------------------------------- steps

  datatype Step =
    | Initialize
    | CleanFinished(k: TurnKey, destroyed: bool)
    | RecoverInstance(i: InstanceId, destroyed: bool)
    | RecoverTurn(k: TurnKey)
    | RecoverDone
    | Start(k: TurnKey, mode: Mode, request: nat, i: InstanceId, w: WorkspaceId)
    | StartAbort(k: TurnKey)
    | StartProvision(k: TurnKey)
    | StartRuntime(k: TurnKey, created: bool)
    | StartFail(k: TurnKey)
    | StartOpen(k: TurnKey)
    | Acquire(k: TurnKey, l: LeaseId)
    | Release(l: LeaseId)
    | ExecBegin(l: LeaseId, x: SessionId)
    | ExecEnd(x: SessionId, started: bool)
    | SessionSettle(x: SessionId, l: LeaseId)
    | SessionDrop(x: SessionId)
    | Finish(k: TurnKey)
    | CloseBegin(k: TurnKey)
    | CloseSession(k: TurnKey, x: SessionId, closed: bool)
    | CloseDone(k: TurnKey)
    | AfterClose(k: TurnKey)
    | SnapshotFail(k: TurnKey)
    | Publish(k: TurnKey, tree: TreeDigest)
    | DeleteBegin(k: TurnKey)
    | DeleteEnd(k: TurnKey, destroyed: bool)
    | Fork(source: ThreadId, destination: ThreadId, commit: Option<CommitId>, w: WorkspaceId)
    | Close
    | Sweep(k: TurnKey, destroyed: bool)
    | ServiceClose(i: InstanceId)
    | Collect(commits: set<CommitId>, trees: set<TreeDigest>)
    | Crash

  predicate FreshInstance(s: State, i: InstanceId) {
    i !in s.db.instances && forall k :: k in s.mem.starts ==> s.mem.starts[k].instance != i
  }

  /** No start, no finish and no OPEN turn is left: what `closeAll` waits for before its sweep. */
  predicate Drained(s: State) {
    s.mem.closing && s.mem.starts == map[] && s.mem.finishes == map[] &&
    forall k :: k in s.db.turns ==> !s.db.turns[k].state.Open?
  }

  predicate NoActiveTurn(db: Tables) {
    forall k :: k in db.turns ==> !ActiveTurnState(db.turns[k].state)
  }

  predicate NoActiveInstance(db: Tables) {
    forall i :: i in db.instances ==> !ActiveInstanceState(db.instances[i].state)
  }

  predicate Leased(mem: Memory, k: TurnKey) {
    exists l :: l in mem.leases && mem.leases[l].key == k
  }

  /** When the step can be the next one. A call that the daemon answers with an error is enabled too. */
  predicate Enabled(s: State, a: Step) {
    match a
    case Initialize => s.phase.Down?
    case CleanFinished(k, _) =>
      (s.phase.Recovering? || (s.phase.Up? && Drained(s) && NoActiveTurn(s.db))) &&
      k in s.db.turns && s.db.turns[k].state.Finished? && s.db.turns[k].mode.Durable? &&
      s.db.turns[k].instance.Some? && s.db.turns[k].instance.value in s.db.instances &&
      s.db.instances[s.db.turns[k].instance.value].handle &&
      !s.db.instances[s.db.turns[k].instance.value].state.Terminated?
    case RecoverInstance(i, _) =>
      s.phase.Recovering? && i in s.db.instances && ActiveInstanceState(s.db.instances[i].state)
    case RecoverTurn(k) =>
      s.phase.Recovering? && NoActiveInstance(s.db) && k in s.db.turns && ActiveTurnState(s.db.turns[k].state)
    case RecoverDone => s.phase.Recovering? && NoActiveInstance(s.db) && NoActiveTurn(s.db)
    case Start(_, _, _, i, w) => s.phase.Up? && FreshInstance(s, i) && w !in s.db.workspaces
    case StartAbort(k) => k in s.mem.starts && s.mem.starts[k].pc.Preparing?
    case StartProvision(k) => k in s.mem.starts && s.mem.starts[k].pc.Preparing?
    case StartRuntime(k, _) => k in s.mem.starts && s.mem.starts[k].pc.AwaitBackend?
    case StartFail(k) => k in s.mem.starts && s.mem.starts[k].pc.CreateFailed?
    case StartOpen(k) => k in s.mem.starts && s.mem.starts[k].pc.RuntimeReady?
    case Acquire(_, l) => s.phase.Up? && l !in s.mem.leases
    // The handler of a tool call awaits the call before it releases its lease.
    case Release(l) => l in s.mem.leases && forall x :: x in s.mem.execs ==> s.mem.execs[x].lease != l
    case ExecBegin(l, x) => l in s.mem.leases && x !in s.mem.execs && x !in s.mem.sessions
    case ExecEnd(x, _) => x in s.mem.execs
    case SessionSettle(x, l) =>
      x in s.mem.sessions && l in s.mem.leases && s.mem.leases[l].instance == s.mem.sessions[x].instance
    case SessionDrop(x) => x in s.mem.sessions
    case Finish(_) => s.phase.Up?
    case CloseBegin(k) => k in s.mem.finishes && s.mem.finishes[k].pc.LeasesDone?
    case CloseSession(k, x, _) =>
      k in s.mem.finishes && s.mem.finishes[k].pc.Closing? && x in s.mem.finishes[k].pc.remaining
    case CloseDone(k) =>
      k in s.mem.finishes && s.mem.finishes[k].pc.Closing? && s.mem.finishes[k].pc.remaining == {}
    case AfterClose(k) => k in s.mem.finishes && s.mem.finishes[k].pc.Closed?
    case SnapshotFail(k) => k in s.mem.finishes && s.mem.finishes[k].pc.Snapshotting?
    case Publish(k, _) => k in s.mem.finishes && s.mem.finishes[k].pc.Snapshotting?
    case DeleteBegin(k) => k in s.mem.finishes && s.mem.finishes[k].pc.Deleting? && !s.mem.finishes[k].pc.begun
    case DeleteEnd(k, _) => k in s.mem.finishes && s.mem.finishes[k].pc.Deleting? && s.mem.finishes[k].pc.begun
    case Fork(_, _, _, w) => s.phase.Up? && w !in s.db.workspaces
    case Close => s.phase.Up?
    case Sweep(k, _) => s.phase.Up? && Drained(s) && k in s.db.turns && ActiveTurnState(s.db.turns[k].state)
    case ServiceClose(i) =>
      s.phase.Up? && Drained(s) && NoActiveTurn(s.db) && i in s.db.instances &&
      ActiveInstanceState(s.db.instances[i].state)
    case Collect(commits, trees) =>
      s.phase.Up? && Drained(s) && NoActiveTurn(s.db) && NoActiveInstance(s.db) &&
      HeadsStored(Collected(s.db, commits, trees))
    case Crash => true
  }

  function WithStart(s: State, k: TurnKey, task: StartTask): State {
    s.(mem := s.mem.(starts := s.mem.starts[k := task]))
  }

  function WithoutStart(s: State, k: TurnKey): State {
    s.(mem := s.mem.(starts := s.mem.starts - {k}))
  }

  function WithPc(s: State, k: TurnKey, pc: FinishPc): State
    requires k in s.mem.finishes
  {
    s.(mem := s.mem.(finishes := s.mem.finishes[k := s.mem.finishes[k].(pc := pc)]))
  }

  function WithoutFinish(s: State, k: TurnKey): State {
    s.(mem := s.mem.(finishes := s.mem.finishes - {k}))
  }

  /** The rows of a new thread workspace, and the start of its chain. */
  function AddWorkspace(s: State, thread: ThreadId, w: WorkspaceId, head: CommitId): State {
    s.(db := CreateThreadWorkspace(s.db, thread, w, head), chains := s.chains[w := Chain(head, [])])
  }

  /** `ensureThreadWorkspace`. */
  function EnsureWorkspace(s: State, thread: ThreadId, w: WorkspaceId): State {
    if thread in s.db.threads then s else AddWorkspace(s, thread, w, EMPTY_COMMIT)
  }

  /** The STARTING row and the suspended `startCreated`. */
  function Enroll(s: State, k: TurnKey, request: nat, task: StartTask): State {
    s.(db := SetTurn(s.db, k, Turn(task.mode, Starting, request, None, None, None, None)),
       mem := s.mem.(starts := s.mem.starts[k := task]))
  }

  /** The workspace is found or made, and its head is the base of the turn. */
  function StartDurable(s: State, k: TurnKey, request: nat, i: InstanceId, w: WorkspaceId): State {
    var s1 := EnsureWorkspace(s, k.thread, w);
    var ws := s1.db.threads[k.thread];
    if ws in s1.db.refs then Enroll(s1, k, request, StartTask(Preparing, Durable, i, Some(ws), s1.db.refs[ws]))
    else s1.(db := SetTurn(s1.db, k, Turn(Durable, Starting, request, None, None, None, None)))
  }

  /** A repeated start replays the stored turn; a thread with an active turn is busy. */
  predicate StartRefused(s: State, k: TurnKey) {
    s.mem.closing || k in s.db.turns || HasActiveTurn(s.db, k.thread)
  }

  /** `start` up to its first await; no await lies between the turn row and the workspace rows. */
  function StartTurn(s: State, k: TurnKey, mode: Mode, request: nat, i: InstanceId, w: WorkspaceId): State {
    if StartRefused(s, k) then s
    else if mode.Durable? then StartDurable(s, k, request, i, w)
    else Enroll(s, k, request, StartTask(Preparing, Instant, i, None, EMPTY_COMMIT))
  }

  /** `createTurnRuntime` up to `backend.create`. A missing commit or tree row makes the start throw. */
  function Provision(s: State, k: TurnKey): State
    requires k in s.mem.starts
  {
    var task := s.mem.starts[k];
    if task.base in s.db.commits && task.base.tree in s.db.trees then
      var row := Instance(task.mode, Provisioning, task.workspace, task.base, false);
      WithStart(s.(db := SetInstance(s.db, task.instance, row)), k, task.(pc := AwaitBackend))
    else WithoutStart(s, k)
  }

  function RuntimeCreated(s: State, k: TurnKey, created: bool): State
    requires k in s.mem.starts
  {
    var task := s.mem.starts[k];
    var db := if task.instance !in s.db.instances then s.db
      else
        var row := s.db.instances[task.instance];
        SetInstance(s.db, task.instance, if created then row.(state := Ready, handle := true)
                    else row.(state := Broken));
    WithStart(s.(db := db), k, task.(pc := if created then RuntimeReady else CreateFailed))
  }

  /** `updateTurn` with state OPEN. */
  function OpenTurn(s: State, k: TurnKey): State
    requires k in s.mem.starts
  {
    var task := s.mem.starts[k];
    if k !in s.db.turns then WithoutStart(s, k)
    else
      var t := s.db.turns[k].(state := Open, instance := Some(task.instance));
      var t' := if task.mode.Durable? then t.(workspace := task.workspace, expectedHead := Some(task.base)) else t;
      WithoutStart(s.(db := SetTurn(s.db, k, t')), k)
  }

  function FailStart(s: State, k: TurnKey): State
    requires k in s.mem.starts
  {
    if k !in s.db.turns then WithoutStart(s, k)
    else
      var t := s.db.turns[k].(state := Failed, instance := Some(s.mem.starts[k].instance));
      WithoutStart(s.(db := SetTurn(s.db, k, t)), k)
  }

  /** `bound` accepts the record. */
  predicate Bindable(t: Turn) {
    t.state.Open? && t.instance.Some? && (t.mode.Durable? ==> t.workspace.Some? && t.expectedHead.Some?)
  }

  function AcquireLease(s: State, k: TurnKey, l: LeaseId): State {
    if s.mem.closing || k !in s.db.turns || !Bindable(s.db.turns[k]) then s
    else
      var count := if k in s.mem.counts then s.mem.counts[k] else 0;
      s.(mem := s.mem.(leases := s.mem.leases[l := Lease(k, s.db.turns[k].instance.value)],
                       counts := s.mem.counts[k := count + 1]))
  }

  /** The last release of a turn wakes the finish that registered a waiter. */
  function ReleaseLease(s: State, l: LeaseId): State
    requires l in s.mem.leases
  {
    var k := s.mem.leases[l].key;
    var count: int := if k in s.mem.counts then s.mem.counts[k] else 1;
    var last := count <= 1;
    var finishes := if last && k in s.mem.waiters && k in s.mem.finishes
                    then s.mem.finishes[k := s.mem.finishes[k].(pc := LeasesDone)] else s.mem.finishes;
    s.(mem := s.mem.(leases := s.mem.leases - {l},
                     counts := if last then s.mem.counts - {k} else s.mem.counts[k := count - 1],
                     waiters := if last then s.mem.waiters - {k} else s.mem.waiters,
                     finishes := finishes))
  }

  /** The checks at the head of `exec`: the runtime is not closing and is READY or RUNNING. */
  predicate ExecAdmitted(s: State, i: InstanceId) {
    i !in s.mem.closingInstances && i in s.db.instances && s.db.instances[i].handle &&
    (s.db.instances[i].state.Ready? || s.db.instances[i].state.Running?)
  }

  /** `exec` up to the backend call. */
  function BeginExec(s: State, l: LeaseId, x: SessionId): State
    requires l in s.mem.leases
  {
    var i := s.mem.leases[l].instance;
    if ExecAdmitted(s, i) then s.(mem := s.mem.(execs := s.mem.execs[x := ExecTask(l, i)])) else s
  }

  function EndExec(s: State, x: SessionId, started: bool): State
    requires x in s.mem.execs
  {
    var i := s.mem.execs[x].instance;
    var mem := s.mem.(execs := s.mem.execs - {x});
    if started then s.(mem := mem.(sessions := mem.sessions[x := Session(i, true)]),
                       db := SetInstanceState(s.db, i, Running))
    else s.(mem := mem)
  }

  /** A poll, write, kill or abandoned call that finds the session ended. */
  function SettleSession(s: State, x: SessionId): State
    requires x in s.mem.sessions
  {
    var i := s.mem.sessions[x].instance;
    s.(mem := s.mem.(sessions := s.mem.sessions[x := Session(i, false)]), db := SetInstanceState(s.db, i, Ready))
  }

  /** `reap` and `reapExpired` forget a session. */
  function DropSession(s: State, x: SessionId): State {
    s.(mem := s.mem.(sessions := s.mem.sessions - {x}))
  }

  /** `finish` up to its first await; the waiter is registered when leases are held. */
  function FinishTurn(s: State, k: TurnKey): State {
    if k !in s.db.turns || !s.db.turns[k].state.Open? || k in s.mem.finishes then s
    else
      var t := s.db.turns[k].(state := Finishing);
      var held := k in s.mem.counts && s.mem.counts[k] != 0;
      s.(db := SetTurn(s.db, k, t),
         mem := s.mem.(finishes := s.mem.finishes[k := FinishTask(if held then WaitLeases else LeasesDone, t)],
                       waiters := if held then s.mem.waiters + {k} else s.mem.waiters))
  }

  function ActiveSessions(mem: Memory, i: InstanceId): set<SessionId> {
    set x | x in mem.sessions && mem.sessions[x] == Session(i, true)
  }

  /** `closeInstance`: no new execution from here on; the active sessions are listed. */
  function BeginClose(s: State, k: TurnKey): State
    requires k in s.mem.finishes
  {
    if s.mem.finishes[k].rec.instance.None? then WithPc(s, k, Deleting(AfterFailure, false))
    else
      var i := s.mem.finishes[k].rec.instance.value;
      var s' := s.(mem := s.mem.(closingInstances := s.mem.closingInstances + {i}));
      WithPc(s', k, Closing(i, ActiveSessions(s.mem, i), false))
  }

  /** One round of the kill loop; a session dropped in the meantime is only marked. */
  function KillSession(s: State, k: TurnKey, x: SessionId, closed: bool): State
    requires k in s.mem.finishes && s.mem.finishes[k].pc.Closing?
  {
    var pc := s.mem.finishes[k].pc;
    var sessions := if closed && x in s.mem.sessions
                    then s.mem.sessions[x := s.mem.sessions[x].(active := false)] else s.mem.sessions;
    WithPc(s.(mem := s.mem.(sessions := sessions)), k,
           pc.(remaining := pc.remaining - {x}, failed := pc.failed || !closed))
  }

  function EndClose(s: State, k: TurnKey): State
    requires k in s.mem.finishes && s.mem.finishes[k].pc.Closing?
  {
    var i := s.mem.finishes[k].pc.instance;
    if s.mem.finishes[k].pc.failed then WithPc(s, k, Deleting(AfterFailure, false))
    else
      var db := if i in s.db.instances && s.db.instances[i].state.Running? then SetInstanceState(s.db, i, Ready)
                else s.db;
      WithPc(s.(db := db), k, Closed(i))
  }

  /** The checks at the head of `commitTurnRuntime`, and the unique index on operations. */
  predicate CommitAdmitted(db: Tables, k: TurnKey, i: InstanceId, w: WorkspaceId, head: CommitId) {
    i in db.instances &&
    (var row := db.instances[i];
     row.handle && row.mode.Durable? && row.workspace == Some(w) && row.base == head && row.state.Ready?) &&
    w in db.refs && k !in db.operations
  }

  /** After the sessions: an instant turn deletes its runtime, a durable one starts its commit. */
  function BeginCommit(s: State, k: TurnKey): State
    requires k in s.mem.finishes && s.mem.finishes[k].pc.Closed?
  {
    var rec, i := s.mem.finishes[k].rec, s.mem.finishes[k].pc.instance;
    if rec.mode.Instant? then WithPc(s, k, Deleting(AfterInstant, false))
    else if rec.workspace.None? || rec.expectedHead.None? ||
            !CommitAdmitted(s.db, k, i, rec.workspace.value, rec.expectedHead.value) then
      WithPc(s, k, Deleting(AfterFailure, false))
    else
      var db := s.db.(operations := s.db.operations[k := OpRunning]);
      WithPc(s.(db := SetInstance(db, i, db.instances[i].(state := Committing))), k,
             Snapshotting(i, rec.workspace.value, rec.expectedHead.value))
  }

  /** The catch block of `commitTurnRuntime`. */
  function AbandonCommit(s: State, k: TurnKey): State
    requires k in s.mem.finishes && s.mem.finishes[k].pc.Snapshotting?
  {
    var i := s.mem.finishes[k].pc.instance;
    var db := if k in s.db.operations then s.db.(operations := s.db.operations[k := OpFailed]) else s.db;
    var db := if i in db.instances && db.instances[i].state.Committing? then SetInstanceState(db, i, Ready) else db;
    WithPc(s.(db := db), k, Deleting(AfterFailure, false))
  }

  function PublishRequest(k: TurnKey, pc: FinishPc, tree: TreeDigest): PublishInput
    requires pc.Snapshotting?
  {
    var parent := pc.expectedHead;
    PublishInput(k, pc.instance, pc.workspace, parent, tree, |tree.content|,
                 Node(EMPTY_CONTRACT, tree, Some(parent)), EMPTY_CONTRACT, parent)
  }

  /** The snapshot is stored: run the publish transaction. */
  function PublishCommit(s: State, k: TurnKey, tree: TreeDigest): State
    requires k in s.mem.finishes && s.mem.finishes[k].pc.Snapshotting?
  {
    var p := PublishRequest(k, s.mem.finishes[k].pc, tree);
    if PublishStatus(s.db, p).Published? then
      var chain := if p.workspace in s.chains then s.chains[p.workspace] else Chain(p.parent, []);
      var chain' := chain.(published := chain.published + [Publication(k, tree)]);
      WithPc(s.(db := PublishedTables(s.db, p), chains := s.chains[p.workspace := chain']), k,
             Deleting(AfterCommit, false))
    else AbandonCommit(s, k)
  }

  function BeginDelete(s: State, k: TurnKey): State
    requires k in s.mem.finishes && s.mem.finishes[k].pc.Deleting?
  {
    var task := s.mem.finishes[k];
    var db := if task.rec.instance.None? || task.rec.instance.value !in s.db.instances ||
                 s.db.instances[task.rec.instance.value].state.Terminated? then s.db
              else SetInstanceState(s.db, task.rec.instance.value, Terminating);
    WithPc(s.(db := db), k, task.pc.(begun := true))
  }

  /** `failTurn` fails the turn; a published turn stays as it is; an instant turn ends with its runtime. */
  function StateAfterDelete(why: DeleteReason, destroyed: bool, state: TurnState): TurnState {
    match why
    case AfterFailure => Failed
    case AfterCommit => state
    case AfterInstant => if destroyed then Finished else Failed
  }

  /** The backend answered the destroy: the instance row, then the turn row, then the pending finish is forgotten. */
  function EndDelete(s: State, k: TurnKey, destroyed: bool): State
    requires k in s.mem.finishes && s.mem.finishes[k].pc.Deleting?
  {
    var task := s.mem.finishes[k];
    var db := match task.rec.instance
      case None => s.db
      case Some(i) =>
        if i !in s.db.instances then s.db
        else SetInstance(s.db, i, DestroyedRow(s.db.instances[i], destroyed));
    var db := if k in db.turns then SetTurnState(db, k, StateAfterDelete(task.pc.why, destroyed, db.turns[k].state))
              else db;
    WithoutFinish(s.(db := db), k)
  }

  /** `commitBelongsToHistory` on an inductive identifier: the candidate is the head or one of its ancestors. */
  predicate Ancestor(candidate: CommitId, head: CommitId) {
    candidate == head || (head.parent.Some? && Ancestor(candidate, head.parent.value))
  }

  /** The number of ancestors of a commit. */
  function Depth(c: CommitId): nat {
    if c.parent.None? then 0 else 1 + Depth(c.parent.value)
  }

  function ForkThread(s: State, source: ThreadId, destination: ThreadId, commit: Option<CommitId>,
                      w: WorkspaceId): State {
    if s.mem.closing || source == destination || HasActiveTurn(s.db, source) ||
       source !in s.db.threads || destination in s.db.threads || s.db.threads[source] !in s.db.refs then s
    else
      var current := s.db.refs[s.db.threads[source]];
      if commit.Some? && !Ancestor(commit.value, current) then s
      else
        var head := if commit.Some? then commit.value else current;
        AddWorkspace(s, destination, w, head)
  }

  /** `closeAll` fails what is still active once every task has settled. */
  function SweepTurn(s: State, k: TurnKey, destroyed: bool): State
    requires k in s.db.turns
  {
    var t := s.db.turns[k];
    var db :=
      if t.instance.Some? && t.instance.value in s.db.instances then
        SetInstance(s.db, t.instance.value, DestroyedRow(s.db.instances[t.instance.value], destroyed))
      else s.db;
    s.(db := SetTurnState(db, k, Failed))
  }

  function DestroyedRow(row: Instance, destroyed: bool): Instance {
    if destroyed then row.(state := Terminated, handle := false) else row.(state := Lost)
  }

  function WithEmptyCommit(db: Tables): Tables {
    db.(trees := InsertTree(db.trees, EMPTY_TREE, TreeRowOf(EMPTY_TREE)),
        commits := InsertCommit(db.commits, EMPTY_COMMIT, RowOf(EMPTY_COMMIT)))
  }

  function WithoutRunning(operations: map<TurnKey, OpStatus>): map<TurnKey, OpStatus> {
    map k | k in operations && !operations[k].OpRunning? :: operations[k]
  }

  /** The canonical empty commit is stored, and recovery starts by forgetting running operations. */
  function InitializeDaemon(s: State): State {
    var db := WithEmptyCommit(s.db);
    s.(phase := Recovering, db := db.(operations := WithoutRunning(db.operations)))
  }

  /** The successor state. */
  function Apply(s: State, a: Step): State
    requires Enabled(s, a)
  {
    match a
    case Initialize => InitializeDaemon(s)
    case CleanFinished(k, destroyed) =>
      var i := s.db.turns[k].instance.value;
      s.(db := SetInstance(s.db, i, DestroyedRow(s.db.instances[i], destroyed)))
    case RecoverInstance(i, destroyed) =>
      var row := s.db.instances[i];
      s.(db := SetInstance(s.db, i, row.(state := Lost, handle := row.handle && !destroyed)))
    case RecoverTurn(k) => s.(db := SetTurnState(s.db, k, Failed))
    case RecoverDone => s.(phase := Up)
    case Start(k, mode, request, i, w) => StartTurn(s, k, mode, request, i, w)
    case StartAbort(k) => WithoutStart(s, k)
    case StartProvision(k) => Provision(s, k)
    case StartRuntime(k, created) => RuntimeCreated(s, k, created)
    case StartFail(k) => FailStart(s, k)
    case StartOpen(k) => OpenTurn(s, k)
    case Acquire(k, l) => AcquireLease(s, k, l)
    case Release(l) => ReleaseLease(s, l)
    case ExecBegin(l, x) => BeginExec(s, l, x)
    case ExecEnd(x, started) => EndExec(s, x, started)
    case SessionSettle(x, _) => SettleSession(s, x)
    case SessionDrop(x) => DropSession(s, x)
    case Finish(k) => FinishTurn(s, k)
    case CloseBegin(k) => BeginClose(s, k)
    case CloseSession(k, x, closed) => KillSession(s, k, x, closed)
    case CloseDone(k) => EndClose(s, k)
    case AfterClose(k) => BeginCommit(s, k)
    case SnapshotFail(k) => AbandonCommit(s, k)
    case Publish(k, tree) => PublishCommit(s, k, tree)
    case DeleteBegin(k) => BeginDelete(s, k)
    case DeleteEnd(k, destroyed) => EndDelete(s, k, destroyed)
    case Fork(source, destination, commit, w) => ForkThread(s, source, destination, commit, w)
    case Close => s.(mem := s.mem.(closing := true))
    case Sweep(k, destroyed) => SweepTurn(s, k, destroyed)
    case ServiceClose(i) => s.(db := SetInstance(s.db, i, s.db.instances[i].(state := Terminated, handle := false)))
    case Collect(commits, trees) => s.(db := Collected(s.db, commits, trees))
    case Crash => s.(phase := Down, mem := EMPTY_MEMORY)
  }
}
