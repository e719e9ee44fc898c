/** src/domain/recovery.ts: what a restarted daemon does to the tables, and garbage collection. */
module Recovery {
  import opened Prelude
  import opened Storage
  import opened Protocol
  import opened RepositoryModel

  // ---------------------------------------------------------------- recovery

  function RecoveredTurn(t: Turn): Turn {
    if ActiveTurnState(t.state) then t.(state := Failed) else t
  }

  function RecoveredTurns(turns: map<TurnKey, Turn>): map<TurnKey, Turn> {
    map k | k in turns :: RecoveredTurn(turns[k])
  }

  type Runtimes = map<InstanceId, Instance>

  /** What cleanup may do to a runtime row: nothing, or destroy the runtime a finished durable turn left. */
  ghost predicate CleanedRow(turns: map<TurnKey, Turn>, i: InstanceId, row: Instance, row': Instance) {
    row' == row ||
    (row.handle && !row.state.Terminated? &&
     (row' == row.(state := Terminated, handle := false) || row' == row.(state := Lost)) &&
     exists k :: k in turns && DurablyFinished(turns[k]) && turns[k].instance == Some(i))
  }

  ghost predicate CleanedUp(turns: map<TurnKey, Turn>, m: Runtimes, m': Runtimes) {
    m'.Keys == m.Keys && forall i :: i in m ==> CleanedRow(turns, i, m[i], m'[i])
  }

  /** The row an interrupted runtime is left with. */
  ghost predicate InterruptedRow(row: Instance, row': Instance) {
    if ActiveInstanceState(row.state) then
      row' == row.(state := Lost, handle := row'.handle) && (row'.handle ==> row.handle)
    else row' == row
  }

  ghost predicate Interrupted(m: Runtimes, m': Runtimes) {
    m'.Keys == m.Keys && forall i :: i in m ==> InterruptedRow(m[i], m'[i])
  }

  /** What a recovery may make of the tables. */
  ghost predicate Recovered(was: Tables, now: Tables) {
    now == was.(turns := RecoveredTurns(was.turns), operations := WithoutRunning(was.operations),
                instances := now.instances) &&
    exists cleaned :: CleanedUp(was.turns, was.instances, cleaned) && Interrupted(cleaned, now.instances)
  }

  lemma RecoveredIsIdle(was: Tables, now: Tables)
    requires Recovered(was, now)
    ensures NoActiveTurn(now) && NoActiveInstance(now)
  {
    var cleaned :| CleanedUp(was.turns, was.instances, cleaned) && Interrupted(cleaned, now.instances);
    forall i | i in now.instances ensures !ActiveInstanceState(now.instances[i].state) {
      assert InterruptedRow(cleaned[i], now.instances[i]);
    }
  }

  /** With no active runtime left, the second half of a recovery changes no row. */
  lemma NothingInterrupted(turns: map<TurnKey, Turn>, m: Runtimes, cleaned: Runtimes, m': Runtimes)
    requires CleanedUp(turns, m, cleaned) && Interrupted(cleaned, m')
    requires forall i :: i in m ==> !ActiveInstanceState(m[i].state)
    ensures m' == cleaned
  {
    forall i | i in m ensures m'[i] == cleaned[i] {
      assert CleanedRow(turns, i, m[i], cleaned[i]) && InterruptedRow(cleaned[i], m'[i]);
    }
  }

  /** A second recovery may only destroy what the first one could not: it leaves every other table as it is, and
      every runtime without a handle. */
  lemma RecoverAgain(was: Tables, now: Tables, again: Tables)
    requires Recovered(was, now) && Recovered(now, again)
    ensures again == now.(instances := again.instances) && CleanedUp(now.turns, now.instances, again.instances)
    ensures forall i :: i in now.instances && !now.instances[i].handle ==> again.instances[i] == now.instances[i]
  {
    hide CleanedUp, Interrupted;
    RecoveredIsIdle(was, now);
    assert again.turns == now.turns && again.operations == now.operations;
    var cleaned :| CleanedUp(now.turns, now.instances, cleaned) && Interrupted(cleaned, again.instances);
    NothingInterrupted(now.turns, now.instances, cleaned, again.instances);
    HandlelessStay(now.turns, now.instances, again.instances);
  }

  lemma HandlelessStay(turns: map<TurnKey, Turn>, m: Runtimes, m': Runtimes)
    requires CleanedUp(turns, m, m')
    ensures m'.Keys == m.Keys && forall i :: i in m && !m[i].handle ==> m'[i] == m[i]
  {
    forall i | i in m ensures !m[i].handle ==> m'[i] == m[i] {
      assert CleanedRow(turns, i, m[i], m'[i]);
    }
  }

  /** The row of a runtime before and after recovery: a runtime in use is LOST, or TERMINATED when it was what a
      finished turn left behind; one not in use stays as it is, or has been destroyed or LOST if it had a handle. */
  predicate RecoveredRuntime(row: Instance, row': Instance) {
    row'.mode == row.mode && row'.workspace == row.workspace && row'.base == row.base && (row'.handle ==> row.handle) &&
    (row'.state.Terminated? || row'.state.Broken? || row'.state.Lost?) &&
    (row.state.Terminated? ==> row' == row) &&
    (row.state.Broken? || row.state.Lost? ==>
       row' == row || (row.handle && (row'.state.Lost? || (row'.state.Terminated? && !row'.handle)))) &&
    (row'.state.Terminated? && row' != row ==> row.handle && !row'.handle)
  }

  lemma RuntimesRecovered(was: Tables, now: Tables)
    requires Recovered(was, now)
    ensures now.instances.Keys == was.instances.Keys
    ensures forall i :: i in now.instances ==> RecoveredRuntime(was.instances[i], now.instances[i])
  {
    var cleaned :| CleanedUp(was.turns, was.instances, cleaned) && Interrupted(cleaned, now.instances);
    forall i | i in now.instances ensures RecoveredRuntime(was.instances[i], now.instances[i]) {
      assert CleanedRow(was.turns, i, was.instances[i], cleaned[i]);
      assert InterruptedRow(cleaned[i], now.instances[i]);
    }
  }

  class RecoveryManager {
    const repository: Repository

    constructor (r: Repository)
      ensures repository == r
    {
      repository := r;
    }

    /** Destroys what finished durable turns left behind. The backend's answers are arbitrary. */
    method CleanupFinishedTurnRuntimes()
      modifies repository
      ensures repository.db == old(repository.db).(instances := repository.db.instances)
      ensures CleanedUp(old(repository.db.turns), old(repository.db.instances), repository.db.instances)
    {
      var turns := set k | k in repository.db.turns && DurablyFinished(repository.db.turns[k]);
      while turns != {}
        invariant repository.db == old(repository.db).(instances := repository.db.instances)
        invariant turns <= old(repository.db.turns).Keys
        invariant forall k :: k in turns ==> DurablyFinished(old(repository.db.turns)[k])
        invariant CleanedUp(old(repository.db.turns), old(repository.db.instances), repository.db.instances)
        decreases |turns|
      {
        var k :| k in turns;
        turns := turns - {k};
        var instance := repository.db.turns[k].instance;
        if instance.Some? && instance.value in repository.db.instances {
          var i := instance.value;
          var row := repository.db.instances[i];
          if row.handle && !row.state.Terminated? {
            var destroyed: bool := *;
            assert CleanedRow(old(repository.db.turns), i, old(repository.db.instances)[i], row);
            repository.db := SetInstance(repository.db, i, DestroyedRow(row, destroyed));
          }
        }
      }
    }

    /** After a restart: interrupted operations are forgotten, interrupted runtimes are LOST, interrupted turns FAILED;
        no ref, commit, tree, workspace or thread row is touched. */
    method Recover()
      modifies repository
      ensures Recovered(old(repository.db), repository.db)
      ensures var was, now := old(repository.db), repository.db;
        now == was.(turns := now.turns, instances := now.instances, operations := now.operations) &&
        now.turns.Keys == was.turns.Keys && now.instances.Keys == was.instances.Keys
      ensures forall k :: k in repository.db.operations <==>
        k in old(repository.db.operations) && !old(repository.db.operations)[k].OpRunning?
      ensures forall k :: k in repository.db.operations ==>
        repository.db.operations[k] == old(repository.db.operations)[k]
      ensures forall k :: k in repository.db.turns ==>
        repository.db.turns[k] ==
          if old(repository.db.turns)[k].state.Finished? || old(repository.db.turns)[k].state.Failed?
          then old(repository.db.turns)[k] else old(repository.db.turns)[k].(state := Failed)
      ensures forall i :: i in repository.db.instances ==>
        RecoveredRuntime(old(repository.db.instances)[i], repository.db.instances[i])
    {
      var db := repository.db;
      repository.db := db.(operations := WithoutRunning(db.operations));
      CleanupFinishedTurnRuntimes();
      ghost var cleaned := repository.db;
      var interrupted := set i | i in repository.db.instances && ActiveInstanceState(repository.db.instances[i].state);
      while interrupted != {}
        invariant repository.db == cleaned.(instances := repository.db.instances)
        invariant repository.db.instances.Keys == cleaned.instances.Keys
        invariant interrupted <= cleaned.instances.Keys
        invariant forall i :: i in interrupted ==> ActiveInstanceState(cleaned.instances[i].state)
        invariant forall i :: i in cleaned.instances ==>
          if i in interrupted then repository.db.instances[i] == cleaned.instances[i]
          else InterruptedRow(cleaned.instances[i], repository.db.instances[i])
        decreases |interrupted|
      {
        var i :| i in interrupted;
        interrupted := interrupted - {i};
        var row := repository.db.instances[i];
        var destroyed := false;
        if row.handle {
          destroyed := *;
        }
        repository.db := SetInstance(repository.db, i, row.(state := Lost, handle := row.handle && !destroyed));
      }
      assert Interrupted(cleaned.instances, repository.db.instances);
      FailInterruptedTurns();
      RuntimesRecovered(old(repository.db), repository.db);
    }

    /** The last loop of `recover`. */
    method FailInterruptedTurns()
      modifies repository
      ensures repository.db == old(repository.db).(turns := RecoveredTurns(old(repository.db.turns)))
    {
      ghost var was := repository.db.turns;
      var active := set k | k in repository.db.turns && ActiveTurnState(repository.db.turns[k].state);
      while active != {}
        invariant repository.db == old(repository.db).(turns := repository.db.turns)
        invariant repository.db.turns.Keys == was.Keys && active <= was.Keys
        invariant forall k :: k in active ==> ActiveTurnState(was[k].state)
        invariant forall k :: k in was ==>
          repository.db.turns[k] == if k in active then was[k] else RecoveredTurn(was[k])
        decreases |active|
      {
        var k :| k in active;
        active := active - {k};
        repository.db := SetTurn(repository.db, k, repository.db.turns[k].(state := Failed));
      }
    }
  }
}
