/** The metadata tables (src/storage/schema.ts) and the operations of
    src/storage/repository.ts that change several of them at once. */
module Storage {
  import opened Prelude

  type ThreadId = nat
  type TurnId = nat
  type WorkspaceId = nat
  type InstanceId = nat

  datatype TurnKey = TurnKey(thread: ThreadId, turn: TurnId)

  /** The digest of a tree object. SHA-256 is taken to be collision-free, so a digest is its content. */
  datatype TreeDigest = TreeDigest(content: seq<byte>)

  /** A commit identifier: the digest of contract, tree and parent identifier. */
  datatype CommitId = Node(contract: nat, tree: TreeDigest, parent: Option<CommitId>)

  const EMPTY_CONTRACT: nat := 0
  const EMPTY_TREE := TreeDigest([67, 70, 83, 45, 118, 49, 0])
  const EMPTY_COMMIT := Node(EMPTY_CONTRACT, EMPTY_TREE, None)

  datatype Mode = Instant | Durable
  datatype TurnState = Starting | Open | Finishing | Finished | Failed
  datatype InstanceState = Provisioning | Ready | Running | Committing | Terminating | Terminated | Broken | Lost
  datatype OpStatus = OpRunning | OpSucceeded | OpFailed

  datatype CommitRow = CommitRow(tree: TreeDigest, contract: nat, parent: Option<CommitId>)
  datatype TreeRow = TreeRow(path: TreeDigest, sizeBytes: nat)

  datatype Turn = Turn(
    mode: Mode,
    state: TurnState,
    request: nat,
    instance: Option<InstanceId>,
    workspace: Option<WorkspaceId>,
    expectedHead: Option<CommitId>,
    result: Option<CommitId>)

  datatype Instance = Instance(
    mode: Mode,
    state: InstanceState,
    workspace: Option<WorkspaceId>,
    base: CommitId,
    handle: bool)

  /** `refs` has no name column: 'main' is the only ref name the program inserts. */
  datatype Tables = Tables(
    commits: map<CommitId, CommitRow>,
    trees: map<TreeDigest, TreeRow>,
    workspaces: set<WorkspaceId>,
    refs: map<WorkspaceId, CommitId>,
    threads: map<ThreadId, WorkspaceId>,
    turns: map<TurnKey, Turn>,
    instances: map<InstanceId, Instance>,
    operations: map<TurnKey, OpStatus>)

  predicate ActiveTurnState(state: TurnState) {
    state.Starting? || state.Open? || state.Finishing?
  }

  predicate ActiveInstanceState(state: InstanceState) {
    state.Provisioning? || state.Ready? || state.Running? || state.Committing? || state.Terminating?
  }

  /** A finished durable turn. */
  predicate DurablyFinished(t: Turn) {
    t.state.Finished? && t.mode.Durable?
  }

  /** The row `commitDigest` makes an identifier stand for. */
  function RowOf(id: CommitId): CommitRow {
    CommitRow(id.tree, id.contract, id.parent)
  }

  function TreeRowOf(digest: TreeDigest): TreeRow {
    TreeRow(digest, |digest.content|)
  }

  function InsertCommit(commits: map<CommitId, CommitRow>, id: CommitId, row: CommitRow): map<CommitId, CommitRow> {
    if id in commits then commits else commits[id := row]
  }

  function InsertTree(trees: map<TreeDigest, TreeRow>, digest: TreeDigest, row: TreeRow): map<TreeDigest, TreeRow> {
    if digest in trees then trees else trees[digest := row]
  }

  /** Does the thread have a STARTING, OPEN or FINISHING turn? */
  predicate HasActiveTurn(db: Tables, thread: ThreadId) {
    exists k :: k in db.turns && k.thread == thread && ActiveTurnState(db.turns[k].state)
  }

  /** Every turn of the thread has ended. */
  predicate Idle(db: Tables, thread: ThreadId) {
    forall k :: k in db.turns && k.thread == thread ==> db.turns[k].state.Finished? || db.turns[k].state.Failed?
  }

  lemma IdleMeans(db: Tables, thread: ThreadId)
    ensures Idle(db, thread) <==> !HasActiveTurn(db, thread)
  {
  }

  function SetTurn(db: Tables, k: TurnKey, t: Turn): Tables {
    db.(turns := db.turns[k := t])
  }

  /** An update of a turn row; a missing row makes the SQL update touch nothing. */
  function SetTurnState(db: Tables, k: TurnKey, state: TurnState): Tables {
    if k in db.turns then SetTurn(db, k, db.turns[k].(state := state)) else db
  }

  function SetInstance(db: Tables, i: InstanceId, row: Instance): Tables {
    db.(instances := db.instances[i := row])
  }

  /** An update of an instance row; a missing row makes the SQL update touch nothing. */
  function SetInstanceState(db: Tables, i: InstanceId, state: InstanceState): Tables {
    if i in db.instances then SetInstance(db, i, db.instances[i].(state := state)) else db
  }

  function CreateThreadWorkspace(db: Tables, thread: ThreadId, w: WorkspaceId, head: CommitId): Tables {
    db.(workspaces := db.workspaces + {w}, refs := db.refs[w := head], threads := db.threads[thread := w])
  }

  datatype PublishInput = PublishInput(
    key: TurnKey,
    instance: InstanceId,
    workspace: WorkspaceId,
    expectedHead: CommitId,
    tree: TreeDigest,
    sizeBytes: nat,
    commit: CommitId,
    contract: nat,
    parent: CommitId)

  datatype PublishOutcome = Published | RefConflict | TurnClosed | ConstraintFailed

  /** The first two statements of the publish transaction: inserts that do nothing on conflict. */
  function WithCommit(db: Tables, p: PublishInput): Tables {
    db.(trees := InsertTree(db.trees, p.tree, TreeRow(p.tree, p.sizeBytes)),
        commits := InsertCommit(db.commits, p.commit, CommitRow(p.tree, p.contract, Some(p.parent))))
  }

  /** Which statement of the transaction, if any, rolls it back. */
  function PublishStatus(db: Tables, p: PublishInput): PublishOutcome {
    if p.commit !in db.commits && p.parent !in db.commits && p.parent != p.commit then ConstraintFailed
    else if p.workspace !in db.refs || db.refs[p.workspace] != p.expectedHead then RefConflict
    else if p.key !in db.turns || !db.turns[p.key].state.Finishing? ||
            db.turns[p.key].instance != Some(p.instance) ||
            db.turns[p.key].workspace != Some(p.workspace) ||
            db.turns[p.key].expectedHead != Some(p.expectedHead) then TurnClosed
    else Published
  }

  /** The tables after a transaction that committed. */
  function PublishedTables(db: Tables, p: PublishInput): Tables
    requires PublishStatus(db, p).Published?
  {
    var d := WithCommit(db, p);
    var d := d.(refs := d.refs[p.workspace := p.commit]);
    var d := SetTurn(d, p.key, d.turns[p.key].(state := Finished, result := Some(p.commit)));
    var d := SetInstanceState(d, p.instance, Ready);
    if p.key in d.operations then d.(operations := d.operations[p.key := OpSucceeded]) else d
  }
}
