/** The live-restore command and its worker, run as the source runs them: each is a
    sequence of protocol steps, between which other threads may take theirs. */
module RestoreCalls {
  import opened LiveRestore

  /** How the command ends: refused while another operation holds the lease, given up or
      failed before there is a row, refused by the request's row, failed after the row was
      stored, or with a worker started. */
  datatype Ending = Busy | NotBegun | AlreadyKnown | PreparationFailed | WorkerStarted

  class RestoreProcess {
    var state: State
    ghost var trace: seq<Step>
    ghost const origin: Table
    /** Everything that is prepared outside the protocol works. */
    const faultless: bool

    /** The state is the one that the steps so far lead to. */
    ghost predicate Valid()
      reads this
    {
      IsRun(Start(origin), trace) && state == Run(Start(origin), trace) && Safe(state)
    }

    constructor (table: Table, faultless: bool)
      ensures Valid() && trace == [] && state == Start(table) && this.faultless == faultless
    {
      state, origin, trace, this.faultless := Start(table), table, [], faultless;
    }

    method Do(step: Step)
      requires Valid() && Enabled(state, step)
      modifies this
      ensures Valid() && state == Apply(old(state), step) && trace == old(trace) + [step]
    {
      StepSafe(state, step);
      RunAppend(Start(origin), trace, step);
      state := Apply(state, step);
      trace := trace + [step];
    }

    /** `restore_backup_live`. While the lease is taken nothing happens. Without a database, a
        bundle at the given path or a successful `begin`, the lease is given back and
        nothing else happens, and so it is for a request id that is known. A new one gets
        a started row; then either the worker has the lease and the one launch of this
        request, or the lease is given back and the row stays started. */
    method RestoreBackupLive(t: Thread, worker: Thread, request: RequestId) returns (ending: Ending)
      requires Valid() && !Holds(state, t) && !Holds(state, worker)
      modifies this
      ensures Valid() && old(trace) <= trace
      ensures ending.Busy? <==> old(state).active
      ensures ending.Busy? || ending.NotBegun? ==> state == old(state)
      ensures ending.AlreadyKnown? ==> request in old(state).table && state == old(state)
      ensures ending.PreparationFailed? ==> !state.active && state.work == map[] && Abandoned(state, request)
      ensures ending.PreparationFailed? || ending.WorkerStarted? ==>
                request !in old(state).table && state.table == old(state).table[request := Row(true, Started)]
      ensures ending.WorkerStarted? ==>
                state.active && state.work == map[worker := Restoring(request)]
                && state.launches == old(state).launches + [Launch(state.database, request)]
      ensures faultless && !old(state).active ==>
                ending == if request in old(state).table then AlreadyKnown else WorkerStarted
    {
      NobodyHolds(state);
      if state.active {
        Do(Refused(t));
        return Busy;
      }
      Do(Acquire(t, request));
      var refused: bool := *;
      if refused && !faultless {
        Do(End(t));
        assert state.work == map[];
        return NotBegun;
      }
      if request in state.table {
        Do(Begin(t));
        assert state.work == map[];
        return AlreadyKnown;
      }
      Do(Begin(t));
      var prepared: bool := *;
      if !prepared && !faultless {
        Do(End(t));
        assert state.work == map[];
        return PreparationFailed;
      }
      Do(Spawn(t, worker));
      assert state.work == map[worker := Restoring(request)];
      ending := WorkerStarted;
    }

    /** The worker: it restores, and acts on the outcome. After a success the process is
        started again on the new database. After an abort or a rollback the row is failed,
        if that can be stored. After a failed rollback nothing is written. In every case
        the lease is free again. */
    method RunWorker(worker: Thread, table: Table) returns (outcome: Outcome)
      requires Valid() && worker in state.work && state.work[worker].Restoring?
      modifies this
      ensures Valid() && old(trace) <= trace
      ensures !state.active && state.work == map[] && state.launches == old(state).launches
      ensures outcome.Succeeded? ==> state.table == table && state.database != old(state).database
      ensures outcome.AbortedBeforeChange? || outcome.RolledBack? ==>
                Undone(old(state).table, old(state).database, old(state).work[worker].request)
      ensures outcome.RollbackFailed? && state.database == old(state).database ==> state.table == old(state).table
    {
      outcome := *;
      var swapped: bool := *;
      if outcome.AbortedBeforeChange? || (outcome.RolledBack? && !swapped) || (outcome.RollbackFailed? && !swapped) {
        FinishBeforeSwap(worker, outcome);
      } else {
        assert GoodWork(state, state.work[worker]);
        Do(Swap(worker, table));
        FinishAfterSwap(worker, outcome);
      }
    }

    /** The database is the one it was, with the table as it was but for the request's row,
        which is failed, unless that could not be stored. */
    ghost predicate Undone(table: Table, database: nat, request: RequestId)
      reads this
    {
      state.database == database
      && (state.table == table[request := Row(true, Failed)] || (!faultless && state.table == table))
    }

    /** The restore ended with the database still in place. */
    method FinishBeforeSwap(worker: Thread, outcome: Outcome)
      requires Valid() && worker in state.work && state.work[worker].Restoring? && !outcome.Succeeded?
      modifies this
      ensures Valid() && old(trace) <= trace
      ensures !state.active && state.work == map[] && state.launches == old(state).launches
      ensures !outcome.RollbackFailed? ==> Undone(old(state).table, old(state).database, old(state).work[worker].request)
      ensures outcome.RollbackFailed? ==> state.table == old(state).table && state.database == old(state).database
    {
      OnlyHolder(state, worker);
      Do(Finish(worker, outcome));
      if outcome.RollbackFailed? {
        assert state.work == map[];
      } else {
        CompleteRow(worker);
      }
    }

    /** The restore ended after the database had been replaced. */
    method FinishAfterSwap(worker: Thread, outcome: Outcome)
      requires Valid() && worker in state.work && state.work[worker].Swapped? && !outcome.AbortedBeforeChange?
      modifies this
      ensures Valid() && old(trace) <= trace
      ensures !state.active && state.work == map[] && state.launches == old(state).launches
      ensures !outcome.RolledBack? ==> state.table == old(state).table && state.database == old(state).database
      ensures outcome.RolledBack? ==>
                Undone(old(state).work[worker].table, old(state).work[worker].database, old(state).work[worker].request)
    {
      OnlyHolder(state, worker);
      Do(Finish(worker, outcome));
      if outcome.Succeeded? {
        Do(Restart(worker));
      } else if outcome.RolledBack? {
        CompleteRow(worker);
      } else {
        assert state.work == map[];
      }
    }

    /** The completion of the audit row, which may fail, and the end of the worker. */
    method CompleteRow(worker: Thread)
      requires Valid() && worker in state.work && state.work[worker].Completing?
      modifies this
      ensures Valid() && old(trace) <= trace
      ensures !state.active && state.work == map[] && state.launches == old(state).launches
      ensures Undone(old(state).table, old(state).database, old(state).work[worker].request)
    {
      assert GoodWork(state, state.work[worker]);
      OnlyHolder(state, worker);
      var stored: bool := *;
      Do(Complete(worker, stored || faultless));
      assert state.work == map[];
    }
  }

  lemma {:induction false} RunAppend(s: State, steps: seq<Step>, step: Step)
    requires IsRun(s, steps) && Enabled(Run(s, steps), step)
    ensures IsRun(s, steps + [step]) && Run(s, steps + [step]) == Apply(Run(s, steps), step)
    decreases |steps|
  {
    var all := steps + [step];
    if |steps| == 0 {
      assert all == [step] && all[1..] == [];
    } else {
      RunAppend(Apply(s, steps[0]), steps[1..], step);
      assert all[1..] == steps[1..] + [step];
    }
  }

  lemma NobodyHolds(s: State)
    requires Safe(s)
    ensures !s.active ==> s.work == map[]
  {
    if !s.active {
      forall t ensures t !in s.work { assert !Holds(s, t); }
    }
  }

  lemma OnlyHolder(s: State, t: Thread)
    requires Safe(s) && t in s.work
    ensures s.work == map[t := s.work[t]]
  {
    assert forall u :: u in s.work <==> u == t;
  }
}
