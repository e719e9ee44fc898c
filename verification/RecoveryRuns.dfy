/** Recovery and garbage collection as runs of the turn protocol: their loops and the machine reach the same tables. */
module RecoveryRuns {
  import opened Prelude
  import opened Storage
  import opened Protocol
  import opened ProtocolInvariant
  import opened Recovery
  import opened TurnRuns
  import opened GarbageCollection

  // ---------------------------------------------------------------- runs

  lemma {:induction false} RunConcat(s: State, a: seq<Step>, b: seq<Step>)
    requires Executable(s, a) && Executable(After(s, a), b)
    ensures Executable(s, a + b) && After(s, a + b) == After(After(s, a), b)
    decreases |a|
  {
    if a == [] {
      assert a + b == b;
    } else {
      assert (a + b)[1..] == a[1..] + b;
      RunConcat(Apply(s, a[0]), a[1..], b);
    }
  }

  lemma RunStep(s: State, a: Step)
    requires Enabled(s, a)
    ensures Executable(s, [a]) && After(s, [a]) == Apply(s, a)
  {
    hide Enabled, Apply;
    assert [a][1..] == [];
    assert Executable(Apply(s, a), []);
  }

  lemma RunFirst(s: State, a: Step, run: seq<Step>)
    requires Enabled(s, a) && Executable(Apply(s, a), run)
    ensures Executable(s, [a] + run) && After(s, [a] + run) == After(Apply(s, a), run)
  {
    hide Enabled, Apply;
    RunStep(s, a);
    RunConcat(s, [a], run);
  }

  ghost predicate All(run: seq<Step>, kind: Step -> bool) {
    forall n :: 0 <= n < |run| ==> kind(run[n])
  }

  predicate IsCleanup(a: Step) { a.CleanFinished? }

  function WithInstances(s: State, m: Runtimes): State {
    s.(db := s.db.(instances := m))
  }

  // ---------------------------------------------------------------- the loops of recovery

  predicate Cleanable(s: State) {
    s.phase.Recovering? || (s.phase.Up? && Drained(s) && NoActiveTurn(s.db))
  }

  /** The rows a loop from `m` to `m'` still has to change. */
  function Changed(m: Runtimes, m': Runtimes): set<InstanceId> {
    set i | i in m && i in m' && m[i] != m'[i]
  }

  lemma NoneChanged(m: Runtimes, m': Runtimes)
    requires m.Keys == m'.Keys && Changed(m, m') == {}
    ensures m == m'
  {
    forall i | i in m ensures m[i] == m'[i] {
      assert i !in Changed(m, m');
    }
  }

  lemma ChangedIn(m: Runtimes, m': Runtimes, i: InstanceId)
    requires i in Changed(m, m')
    ensures i in m && i in m'
  {
  }

  lemma OneLessChanged(m: Runtimes, m': Runtimes, i: InstanceId)
    requires i in Changed(m, m')
    ensures |Changed(m[i := m'[i]], m')| < |Changed(m, m')|
  {
    assert Changed(m[i := m'[i]], m') == Changed(m, m') - {i};
  }

  lemma CleanedOn(turns: map<TurnKey, Turn>, m: Runtimes, m': Runtimes, i: InstanceId)
    requires CleanedUp(turns, m, m') && i in m'
    ensures CleanedUp(turns, m[i := m'[i]], m')
  {
    forall j | j in m' ensures CleanedRow(turns, j, m[i := m'[i]][j], m'[j]) {
      assert CleanedRow(turns, j, m[j], m'[j]);
    }
  }

  lemma InterruptedOn(m: Runtimes, m': Runtimes, i: InstanceId)
    requires Interrupted(m, m') && i in m'
    ensures Interrupted(m[i := m'[i]], m')
  {
    forall j | j in m' ensures InterruptedRow(m[i := m'[i]][j], m'[j]) {
      assert InterruptedRow(m[j], m'[j]);
    }
  }

  lemma CleanStep(s: State, m': Runtimes, i: InstanceId) returns (a: Step)
    requires Cleanable(s) && CleanedUp(s.db.turns, s.db.instances, m') && i in Changed(s.db.instances, m')
    ensures IsCleanup(a) && Enabled(s, a)
    ensures Apply(s, a) == WithInstances(s, s.db.instances[i := m'[i]])
  {
    var row := s.db.instances[i];
    assert CleanedRow(s.db.turns, i, row, m'[i]);
    var k :| k in s.db.turns && DurablyFinished(s.db.turns[k]) && s.db.turns[k].instance == Some(i);
    a := CleanFinished(k, m'[i] == DestroyedRow(row, true));
  }

  /** Whatever rows the cleanup loop leaves, some steps of the machine leave. */
  lemma {:induction false} CleanupIsARun(s: State, m': Runtimes) returns (run: seq<Step>)
    requires Cleanable(s) && CleanedUp(s.db.turns, s.db.instances, m')
    ensures Executable(s, run) && After(s, run) == WithInstances(s, m') && All(run, IsCleanup)
    decreases |Changed(s.db.instances, m')|
  {
    hide Enabled, Apply, Changed, CleanedRow;
    if Changed(s.db.instances, m') == {} {
      NoneChanged(s.db.instances, m');
      run := [];
    } else {
      var i :| i in Changed(s.db.instances, m');
      ChangedIn(s.db.instances, m', i);
      var a := CleanStep(s, m', i);
      var s1 := WithInstances(s, s.db.instances[i := m'[i]]);
      CleanedOn(s.db.turns, s.db.instances, m', i);
      OneLessChanged(s.db.instances, m', i);
      var rest := CleanupIsARun(s1, m');
      RunFirst(s, a, rest);
      run := [a] + rest;
    }
  }

  predicate IsInstanceRecovery(a: Step) { a.RecoverInstance? }

  lemma InterruptStep(s: State, m': Runtimes, i: InstanceId) returns (a: Step)
    requires s.phase.Recovering? && Interrupted(s.db.instances, m') && i in Changed(s.db.instances, m')
    ensures IsInstanceRecovery(a) && Enabled(s, a)
    ensures Apply(s, a) == WithInstances(s, s.db.instances[i := m'[i]])
  {
    var row := s.db.instances[i];
    assert InterruptedRow(row, m'[i]);
    a := RecoverInstance(i, row.handle && !m'[i].handle);
  }

  lemma {:induction false} InterruptionIsARun(s: State, m': Runtimes) returns (run: seq<Step>)
    requires s.phase.Recovering? && Interrupted(s.db.instances, m')
    ensures Executable(s, run) && After(s, run) == WithInstances(s, m') && All(run, IsInstanceRecovery)
    decreases |Changed(s.db.instances, m')|
  {
    hide Enabled, Apply, Changed, InterruptedRow;
    if Changed(s.db.instances, m') == {} {
      NoneChanged(s.db.instances, m');
      run := [];
    } else {
      var i :| i in Changed(s.db.instances, m');
      ChangedIn(s.db.instances, m', i);
      var a := InterruptStep(s, m', i);
      InterruptedOn(s.db.instances, m', i);
      OneLessChanged(s.db.instances, m', i);
      var rest := InterruptionIsARun(WithInstances(s, s.db.instances[i := m'[i]]), m');
      RunFirst(s, a, rest);
      run := [a] + rest;
    }
  }

  predicate IsTurnRecovery(a: Step) { a.RecoverTurn? }

  function WithTurns(s: State, turns: map<TurnKey, Turn>): State {
    s.(db := s.db.(turns := turns))
  }

  function ActiveTurns(turns: map<TurnKey, Turn>): set<TurnKey> {
    set k | k in turns && ActiveTurnState(turns[k].state)
  }

  lemma NoneActive(turns: map<TurnKey, Turn>)
    requires ActiveTurns(turns) == {}
    ensures RecoveredTurns(turns) == turns
  {
    forall k | k in turns ensures RecoveredTurn(turns[k]) == turns[k] {
      assert k !in ActiveTurns(turns);
    }
  }

  lemma FailStep(s: State, k: TurnKey)
    requires s.phase.Recovering? && NoActiveInstance(s.db) && k in ActiveTurns(s.db.turns)
    ensures
      var turns := s.db.turns;
      var failed := turns[k := turns[k].(state := Failed)];
      Enabled(s, RecoverTurn(k)) && Apply(s, RecoverTurn(k)) == WithTurns(s, failed) &&
      RecoveredTurns(failed) == RecoveredTurns(turns) && |ActiveTurns(failed)| < |ActiveTurns(turns)|
  {
    hide NoActiveInstance;
    var turns := s.db.turns;
    var failed := turns[k := turns[k].(state := Failed)];
    assert ActiveTurns(failed) == ActiveTurns(turns) - {k};
    assert RecoveredTurns(failed) == RecoveredTurns(turns);
  }

  lemma {:induction false} FailuresAreARun(s: State) returns (run: seq<Step>)
    requires s.phase.Recovering? && NoActiveInstance(s.db)
    ensures Executable(s, run) && After(s, run) == WithTurns(s, RecoveredTurns(s.db.turns)) && All(run, IsTurnRecovery)
    decreases |ActiveTurns(s.db.turns)|
  {
    hide Enabled, Apply, RecoveredTurns, ActiveTurns;
    if ActiveTurns(s.db.turns) == {} {
      NoneActive(s.db.turns);
      run := [];
    } else {
      var k :| k in ActiveTurns(s.db.turns);
      FailStep(s, k);
      var rest := FailuresAreARun(Apply(s, RecoverTurn(k)));
      RunFirst(s, RecoverTurn(k), rest);
      run := [RecoverTurn(k)] + rest;
    }
  }

  // ---------------------------------------------------------------- a whole recovery

  lemma AllConcat(a: seq<Step>, b: seq<Step>, kind: Step -> bool)
    requires All(a, kind) && All(b, kind)
    ensures All(a + b, kind)
  {
  }

  /** The three loops one after the other, and the end of recovery. */
  lemma LoopsAreARun(s: State, cleaned: Runtimes, m: Runtimes) returns (run: seq<Step>)
    requires s.phase.Recovering? && CleanedUp(s.db.turns, s.db.instances, cleaned) && Interrupted(cleaned, m)
    ensures All(run, IsRecovery) && Executable(s, run + [RecoverDone])
    ensures After(s, run + [RecoverDone]) ==
      s.(phase := Up, db := s.db.(instances := m, turns := RecoveredTurns(s.db.turns)))
  {
    var db := s.db.(instances := m, turns := RecoveredTurns(s.db.turns));
    IdleAfterLoops(s.db, cleaned, m);
    hide Apply, Enabled, CleanedUp, Interrupted, NoActiveInstance, NoActiveTurn, RecoveredTurns;
    var a := CleanupIsARun(s, cleaned);
    var s1 := WithInstances(s, cleaned);
    var b := InterruptionIsARun(s1, m);
    var s2 := WithInstances(s, m);
    assert NoActiveInstance(s2.db);
    var c := FailuresAreARun(s2);
    var s3 := s.(db := db);
    RunConcat(s1, b, c);
    RunConcat(s, a, b + c);
    run := a + (b + c);
    DoneStep(s3);
    RunConcat(s, run, [RecoverDone]);
    AllConcat(b, c, IsRecovery);
    AllConcat(a, b + c, IsRecovery);
  }

  lemma IdleAfterLoops(db: Tables, cleaned: Runtimes, m: Runtimes)
    requires Interrupted(cleaned, m)
    ensures NoActiveInstance(db.(instances := m))
    ensures NoActiveInstance(db.(instances := m, turns := RecoveredTurns(db.turns)))
    ensures NoActiveTurn(db.(instances := m, turns := RecoveredTurns(db.turns)))
  {
    forall i | i in m ensures !ActiveInstanceState(m[i].state) {
      assert InterruptedRow(cleaned[i], m[i]);
    }
  }

  lemma DoneStep(s: State)
    requires s.phase.Recovering? && NoActiveInstance(s.db) && NoActiveTurn(s.db)
    ensures Executable(s, [RecoverDone]) && After(s, [RecoverDone]) == s.(phase := Up)
  {
    RunStep(s, RecoverDone);
  }

  /** Any tables the loops of `recover` may leave are left by some run of recovery steps that ends in RecoverDone. */
  lemma RecoverIsARun(s: State, now: Tables) returns (run: seq<Step>)
    requires s.phase.Recovering? && Recovered(s.db, now) && WithoutRunning(s.db.operations) == s.db.operations
    ensures All(run, IsRecovery) && Executable(s, run + [RecoverDone])
    ensures After(s, run + [RecoverDone]) == s.(phase := Up, db := now)
  {
    hide Apply, Enabled, CleanedUp, Interrupted;
    var cleaned :| CleanedUp(s.db.turns, s.db.instances, cleaned) && Interrupted(cleaned, now.instances);
    run := LoopsAreARun(s, cleaned, now.instances);
  }

  /** A restart of the daemon, from a crash until it serves again. */
  lemma RestartIsARun(s: State, now: Tables) returns (run: seq<Step>)
    requires s.phase.Down? && Recovered(WithEmptyCommit(s.db), now)
    ensures All(run, IsRecovery) && Executable(s, [Initialize] + run + [RecoverDone])
    ensures After(s, [Initialize] + run + [RecoverDone]) == s.(phase := Up, db := now)
  {
    assert Enabled(s, Initialize);
    var s1 := InitializeDaemon(s);
    assert Apply(s, Initialize) == s1;
    hide Apply, Enabled, CleanedUp, Interrupted, WithEmptyCommit;
    assert WithoutRunning(s1.db.operations) == s1.db.operations;
    run := RecoverIsARun(s1, now);
    RunFirst(s, Initialize, run + [RecoverDone]);
    assert [Initialize] + run + [RecoverDone] == [Initialize] + (run + [RecoverDone]);
  }

  function LostRow(row: Instance): Instance {
    if ActiveInstanceState(row.state) then row.(state := Lost) else row
  }

  /** Recovery can always be completed, whatever the crash left and even if the backend destroys nothing. */
  lemma RecoveryCanFinish(s: State) returns (run: seq<Step>)
    requires s.phase.Recovering?
    ensures All(run, IsRecovery) && Executable(s, run + [RecoverDone]) && After(s, run + [RecoverDone]).phase.Up?
  {
    var m := map i | i in s.db.instances :: LostRow(s.db.instances[i]);
    assert CleanedUp(s.db.turns, s.db.instances, s.db.instances);
    assert Interrupted(s.db.instances, m);
    hide CleanedUp, Interrupted, Apply, Enabled;
    run := LoopsAreARun(s, s.db.instances, m);
  }

  /** What recovery steps, in any order, can have made of a runtime row. */
  ghost predicate StepRow(turns: map<TurnKey, Turn>, i: InstanceId, row: Instance, row': Instance) {
    CleanedRow(turns, i, row, row') ||
    (ActiveInstanceState(row.state) && row' == row.(state := Lost, handle := row'.handle) &&
     (row'.handle ==> row.handle))
  }

  ghost predicate StepRows(turns: map<TurnKey, Turn>, m: Runtimes, m': Runtimes) {
    m'.Keys == m.Keys && forall i :: i in m ==> StepRow(turns, i, m[i], m'[i])
  }

  /** Recovery never changes the row of a durably finished turn. */
  ghost predicate SameFinished(turns: map<TurnKey, Turn>, turns': map<TurnKey, Turn>) {
    forall k :: k in turns' && DurablyFinished(turns'[k]) ==> k in turns && turns[k] == turns'[k]
  }

  lemma RecoveryStepRow(turns: map<TurnKey, Turn>, m: Runtimes, s: State, a: Step)
    requires Enabled(s, a) && IsRecovery(a) && StepRows(turns, m, s.db.instances) && SameFinished(turns, s.db.turns)
    ensures StepRows(turns, m, Apply(s, a).db.instances)
  {
    if !a.RecoverTurn? {
      var i := if a.RecoverInstance? then a.i else s.db.turns[a.k].instance.value;
      assert StepRow(turns, i, m[i], s.db.instances[i]);
      assert StepRow(turns, i, m[i], Apply(s, a).db.instances[i]);
    }
  }

  lemma RecoveryStepTurns(turns: map<TurnKey, Turn>, s: State, a: Step)
    requires Enabled(s, a) && IsRecovery(a) && SameFinished(turns, s.db.turns)
    ensures SameFinished(turns, Apply(s, a).db.turns)
  {
  }

  lemma {:induction false} RecoveryStepRows(turns: map<TurnKey, Turn>, m: Runtimes, s: State, run: seq<Step>)
    requires Executable(s, run) && All(run, IsRecovery)
    requires StepRows(turns, m, s.db.instances) && SameFinished(turns, s.db.turns)
    ensures StepRows(turns, m, After(s, run).db.instances)
    decreases |run|
  {
    hide StepRows, SameFinished, Apply, Enabled, IsRecovery;
    if run != [] {
      var a := run[0];
      assert IsRecovery(a);
      RecoveryStepRow(turns, m, s, a);
      RecoveryStepTurns(turns, s, a);
      RecoveryStepRows(turns, m, Apply(s, a), run[1..]);
    }
  }

  /** The rows of a finished recovery are those of a cleanup followed by the interruption of what is still active. */
  lemma StepRowsAreLoops(turns: map<TurnKey, Turn>, m: Runtimes, m': Runtimes) returns (cleaned: Runtimes)
    requires StepRows(turns, m, m') && forall i :: i in m' ==> !ActiveInstanceState(m'[i].state)
    ensures CleanedUp(turns, m, cleaned) && Interrupted(cleaned, m')
  {
    cleaned := map i | i in m :: if CleanedRow(turns, i, m[i], m'[i]) then m'[i] else m[i];
    forall i | i in m ensures CleanedRow(turns, i, m[i], cleaned[i]) && InterruptedRow(cleaned[i], m'[i]) {
      assert StepRow(turns, i, m[i], m'[i]);
    }
  }

  /** The converse: whatever order recovery steps are taken in, the tables they end with are tables `recover` may
      leave. */
  lemma RunIsRecover(s: State, run: seq<Step>)
    requires s.phase.Recovering? && WithoutRunning(s.db.operations) == s.db.operations
    requires Executable(s, run + [RecoverDone]) && All(run, IsRecovery)
    ensures Recovered(s.db, After(s, run + [RecoverDone]).db)
  {
    hide Apply, Enabled, StepRows, CleanedUp, Interrupted;
    var s' := After(s, run + [RecoverDone]);
    RecoveryOutcome(s, run);
    RunThen(s, run, RecoverDone);
    RecoveryKeepsTables(s, run);
    DoneKeepsTables(After(s, run));
    assert s'.db.turns == RecoveredTurns(s.db.turns);
    StartRows(s.db.turns, s.db.instances);
    RecoveryStepRows(s.db.turns, s.db.instances, s, run);
    var cleaned := StepRowsAreLoops(s.db.turns, s.db.instances, s'.db.instances);
  }

  lemma StartRows(turns: map<TurnKey, Turn>, m: Runtimes)
    ensures StepRows(turns, m, m)
  {
  }

  lemma DoneKeepsTables(s: State)
    requires Enabled(s, RecoverDone)
    ensures Apply(s, RecoverDone) == s.(phase := Up)
  {
  }

  lemma {:induction false} RecoveryKeepsTables(s: State, run: seq<Step>)
    requires Executable(s, run) && All(run, IsRecovery)
    ensures After(s, run).db == s.db.(instances := After(s, run).db.instances, turns := After(s, run).db.turns)
    decreases |run|
  {
    if run != [] {
      assert IsRecovery(run[0]);
      RecoveryKeepsTables(Apply(s, run[0]), run[1..]);
    }
  }

  // ---------------------------------------------------------------- a whole collection

  /** A collection, refused or not, is a run of the daemon that is shutting down: its cleanup, then `Collect`. */
  lemma CollectionIsARun(s: State, now: Tables, refused: Option<CommitId>) returns (run: seq<Step>)
    requires Inv(s) && s.phase.Up? && Drained(s) && NoActiveTurn(s.db) && NoActiveInstance(s.db)
    requires CleanedUp(s.db.turns, s.db.instances, now.instances) && Collection(s.db, now, refused)
    ensures
      var collect := Collect(now.commits.Keys, now.trees.Keys);
      All(run, IsCleanup) && Executable(s, run + [collect]) && After(s, run + [collect]) == s.(db := now)
  {
    var collect := Collect(now.commits.Keys, now.trees.Keys);
    var s1 := WithInstances(s, now.instances);
    hide Inv, Apply, Enabled, CleanedUp, Collection;
    run := CleanupIsARun(s, now.instances);
    CollectStep(s, now, refused);
    RunStep(s1, collect);
    RunConcat(s, run, [collect]);
  }

  lemma CleanedIdle(s: State, m: Runtimes)
    requires NoActiveInstance(s.db) && CleanedUp(s.db.turns, s.db.instances, m)
    ensures NoActiveInstance(WithInstances(s, m).db)
  {
    forall i | i in m ensures !ActiveInstanceState(m[i].state) {
      assert CleanedRow(s.db.turns, i, s.db.instances[i], m[i]);
    }
  }

  lemma CollectStep(s: State, now: Tables, refused: Option<CommitId>)
    requires Inv(s) && s.phase.Up? && Drained(s) && NoActiveTurn(s.db) && NoActiveInstance(s.db)
    requires CleanedUp(s.db.turns, s.db.instances, now.instances) && Collection(s.db, now, refused)
    ensures
      var s1, collect := WithInstances(s, now.instances), Collect(now.commits.Keys, now.trees.Keys);
      Enabled(s1, collect) && Apply(s1, collect) == s.(db := now)
  {
    hide Inv, CleanedUp, Collection, CanonicalRows, HeadsStored, NoActiveInstance, Collected;
    RowsAndHeads(s);
    CleanedIdle(s, now.instances);
    CollectionKeepsHeads(s.db, now, refused);
    CollectionIsCollect(s.db, now, refused);
    RowsOnly(s.db, now);
  }

  lemma RowsOnly(was: Tables, now: Tables)
    requires now == Collected(was, now.commits.Keys, now.trees.Keys).(instances := now.instances)
    ensures Collected(was.(instances := now.instances), now.commits.Keys, now.trees.Keys) == now
  {
  }

  lemma RowsAndHeads(s: State)
    requires Inv(s)
    ensures CanonicalRows(s.db.commits) && HeadsStored(s.db)
  {
  }

  // ---------------------------------------------------------------- a collection that is refused

  const UP_EMPTY := State(
    Up, Tables(map[EMPTY_COMMIT := RowOf(EMPTY_COMMIT)], map[EMPTY_TREE := TreeRowOf(EMPTY_TREE)], {}, map[], map[],
               map[], map[], map[]),
    EMPTY_MEMORY, map[])

  const OPEN_TURN := Turn(Instant, Open, 0, Some(7), None, None, None)
  const FINISHING_TURN := OPEN_TURN.(state := Finishing)

  /** One instant turn on runtime 7. */
  function OneTurn(t: Turn, state: InstanceState, mem: Memory): State {
    var row := Instance(Instant, state, None, EMPTY_COMMIT, !state.Terminated?);
    State(Up, UP_EMPTY.db.(turns := map[INSTANT_KEY := t], instances := map[7 := row]), mem, map[])
  }

  function Shutting(closingInstances: set<InstanceId>, pc: FinishPc): Memory {
    EMPTY_MEMORY.(closing := true, closingInstances := closingInstances,
                  finishes := map[INSTANT_KEY := FinishTask(pc, FINISHING_TURN)])
  }

  const ONE_OPEN := OneTurn(OPEN_TURN, Ready, EMPTY_MEMORY)
  const CLOSED_EMPTY := State(Up, AFTER_INSTANT, EMPTY_MEMORY.(closing := true, closingInstances := {7}), map[])

  predicate Steps(s: State, a: Step, s': State) {
    Enabled(s, a) && Apply(s, a) == s'
  }

  lemma RunSteps(s: State, a: Step, s1: State, run: seq<Step>, s2: State)
    requires Steps(s, a, s1) && Executable(s1, run) && After(s1, run) == s2
    ensures Executable(s, [a] + run) && After(s, [a] + run) == s2
  {
    hide Enabled, Apply;
    RunFirst(s, a, run);
  }

  lemma FirstStart()
    ensures Executable(INITIAL, [Initialize, RecoverDone]) && After(INITIAL, [Initialize, RecoverDone]) == UP_EMPTY
  {
    var s1 := Apply(INITIAL, Initialize);
    assert Apply(s1, RecoverDone) == UP_EMPTY;
    hide Apply, Enabled;
    RunStep(s1, RecoverDone);
    RunFirst(INITIAL, Initialize, [RecoverDone]);
    assert [Initialize] + [RecoverDone] == [Initialize, RecoverDone];
  }

  const STARTING := UP_EMPTY.(
    db := UP_EMPTY.db.(turns := map[INSTANT_KEY := Turn(Instant, Starting, 0, None, None, None, None)]),
    mem := EMPTY_MEMORY.(starts := map[INSTANT_KEY := StartTask(Preparing, Instant, 7, None, EMPTY_COMMIT)]))

  lemma StartSteps()
    ensures Steps(UP_EMPTY, Start(INSTANT_KEY, Instant, 0, 7, 0), STARTING)
  {
  }

  const PROVISIONED := OneTurn(
    OPEN_TURN.(state := Starting, instance := None), Ready,
    EMPTY_MEMORY.(starts := map[INSTANT_KEY := StartTask(RuntimeReady, Instant, 7, None, EMPTY_COMMIT)]))

  lemma OpenSteps()
    ensures Steps(PROVISIONED, StartOpen(INSTANT_KEY), ONE_OPEN)
  {
  }

  lemma InstantStart() returns (run: seq<Step>)
    ensures Executable(STARTING, run) && After(STARTING, run) == ONE_OPEN
  {
    var k := INSTANT_KEY;
    var s1 := Apply(STARTING, StartProvision(k));
    assert Apply(s1, StartRuntime(k, true)) == PROVISIONED;
    hide Apply, Enabled, Steps;
    OpenSteps();
    run := [];
    RunSteps(PROVISIONED, StartOpen(k), ONE_OPEN, run, ONE_OPEN);
    run := [StartOpen(k)] + run;
    RunFirst(s1, StartRuntime(k, true), run);
    run := [StartRuntime(k, true)] + run;
    RunFirst(STARTING, StartProvision(k), run);
    run := [StartProvision(k)] + run;
  }

  const SHUTTING := ONE_OPEN.(mem := EMPTY_MEMORY.(closing := true))

  lemma FinishSteps()
    ensures Steps(ONE_OPEN, Close, SHUTTING)
    ensures Steps(SHUTTING, Protocol.Finish(INSTANT_KEY), OneTurn(FINISHING_TURN, Ready, Shutting({}, LeasesDone)))
  {
  }

  lemma CloseSteps()
    ensures Steps(OneTurn(FINISHING_TURN, Ready, Shutting({}, LeasesDone)), CloseBegin(INSTANT_KEY),
                  OneTurn(FINISHING_TURN, Ready, Shutting({7}, Closing(7, {}, false))))
    ensures Steps(OneTurn(FINISHING_TURN, Ready, Shutting({7}, Closing(7, {}, false))), CloseDone(INSTANT_KEY),
                  OneTurn(FINISHING_TURN, Ready, Shutting({7}, Closed(7))))
  {
    assert ActiveSessions(Shutting({}, LeasesDone), 7) == {};
  }

  lemma DeleteSteps()
    ensures Steps(OneTurn(FINISHING_TURN, Ready, Shutting({7}, Closed(7))), AfterClose(INSTANT_KEY),
                  OneTurn(FINISHING_TURN, Ready, Shutting({7}, Deleting(AfterInstant, false))))
  {
  }

  lemma DestroySteps()
    ensures Steps(OneTurn(FINISHING_TURN, Ready, Shutting({7}, Deleting(AfterInstant, false))),
                  DeleteBegin(INSTANT_KEY),
                  OneTurn(FINISHING_TURN, Terminating, Shutting({7}, Deleting(AfterInstant, true))))
  {
  }

  lemma EndStep()
    ensures Steps(OneTurn(FINISHING_TURN, Terminating, Shutting({7}, Deleting(AfterInstant, true))),
                  DeleteEnd(INSTANT_KEY, true), CLOSED_EMPTY)
  {
  }

  lemma InstantFinish() returns (run: seq<Step>)
    ensures Executable(ONE_OPEN, run) && After(ONE_OPEN, run) == CLOSED_EMPTY
  {
    FinishSteps();
    CloseSteps();
    DeleteSteps();
    DestroySteps();
    EndStep();
    hide Steps, OneTurn, Shutting;
    var k, t := INSTANT_KEY, FINISHING_TURN;
    var s2, s3 := OneTurn(t, Ready, Shutting({}, LeasesDone)), OneTurn(t, Ready, Shutting({7}, Closing(7, {}, false)));
    var s4, s5 := OneTurn(t, Ready, Shutting({7}, Closed(7))),
      OneTurn(t, Ready, Shutting({7}, Deleting(AfterInstant, false)));
    var s6 := OneTurn(t, Terminating, Shutting({7}, Deleting(AfterInstant, true)));
    run := [];
    RunSteps(s6, DeleteEnd(k, true), CLOSED_EMPTY, run, CLOSED_EMPTY);
    run := [DeleteEnd(k, true)] + run;
    RunSteps(s5, DeleteBegin(k), s6, run, CLOSED_EMPTY);
    run := [DeleteBegin(k)] + run;
    RunSteps(s4, AfterClose(k), s5, run, CLOSED_EMPTY);
    run := [AfterClose(k)] + run;
    RunSteps(s3, CloseDone(k), s4, run, CLOSED_EMPTY);
    run := [CloseDone(k)] + run;
    RunSteps(s2, CloseBegin(k), s3, run, CLOSED_EMPTY);
    run := [CloseBegin(k)] + run;
    RunSteps(SHUTTING, Protocol.Finish(k), s2, run, CLOSED_EMPTY);
    run := [Protocol.Finish(k)] + run;
    RunSteps(ONE_OPEN, Close, SHUTTING, run, CLOSED_EMPTY);
    run := [Close] + run;
  }

  /** A daemon that only served one instant turn shuts down with tables on which every collection is refused. */
  lemma RefusalIsReachable()
    ensures Reachable(CLOSED_EMPTY) && Drained(CLOSED_EMPTY)
    ensures NoActiveTurn(CLOSED_EMPTY.db) && NoActiveInstance(CLOSED_EMPTY.db)
    ensures forall now, refused :: Collects(CLOSED_EMPTY.db, now, refused) ==> refused == Some(EMPTY_COMMIT)
  {
    FirstStart();
    var a := InstantStart();
    var b := InstantFinish();
    StartSteps();
    RunConcat(STARTING, a, b);
    var start := Start(INSTANT_KEY, Instant, 0, 7, 0);
    RunSteps(UP_EMPTY, start, STARTING, a + b, CLOSED_EMPTY);
    RunConcat(INITIAL, [Initialize, RecoverDone], [start] + (a + b));
    forall now, refused | Collects(CLOSED_EMPTY.db, now, refused) ensures refused == Some(EMPTY_COMMIT) {
      TerminatedRuntimePinsItsBase(now, refused);
    }
  }
}
