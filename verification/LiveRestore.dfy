/** The process-wide recovery lease and the live restore that runs under it: any number
    of threads, interleaved at every step, with early returns, panics, hand-over to a
    worker, crashes and restarts. */
module LiveRestore {
  type RequestId = string
  type Thread = int

  /** How `run_restore` ends. Only the first leaves the database replaced for good. */
  datatype Outcome = Succeeded | AbortedBeforeChange | RolledBack | RollbackFailed

  datatype Status = Started | Done | Failed

  /** A row of `operations.recovery_attempts`; all recovery operations share the table. */
  datatype Row = Row(restore: bool, status: Status)

  type Table = map<RequestId, Row>

  /** What a thread that holds the lease is doing. The replaced database is kept until the
      restore has succeeded or has been rolled back. */
  datatype Work =
    | Other
    | Calling(request: RequestId)
    | Prepared(request: RequestId)
    | Restoring(request: RequestId)
    | Swapped(request: RequestId, table: Table, database: nat)
    | Completing(request: RequestId, outcome: Outcome)
    | Restarting(request: RequestId)

  /** A run of the worker on a database. */
  datatype Launch = Launch(database: nat, request: RequestId)

  datatype State = State(
    active: bool,
    work: map<Thread, Work>,
    table: Table,
    database: nat,
    databases: nat,
    launches: seq<Launch>)

  datatype Step =
    | AcquireOther(t: Thread)
    | Acquire(t: Thread, request: RequestId)
    | Refused(t: Thread)
    | WriteOther(t: Thread, request: RequestId, row: Row)
    | Begin(t: Thread)
    | Spawn(t: Thread, worker: Thread)
    | Swap(t: Thread, table: Table)
    | Finish(t: Thread, outcome: Outcome)
    | Complete(t: Thread, stored: bool)
    | End(t: Thread)
    | Restart(t: Thread)
    | Crash

  // ---------------------------------------------------------------------------
  // The steps
  // ---------------------------------------------------------------------------

  predicate Holds(s: State, t: Thread) { t in s.work }

  /** `compare_exchange(false, true)` succeeds exactly when the flag is off. */
  predicate CanAcquire(s: State, t: Thread) { !s.active && !Holds(s, t) }

  predicate Enabled(s: State, step: Step)
  {
    match step
    case AcquireOther(t) => CanAcquire(s, t)
    case Acquire(t, _) => CanAcquire(s, t)
    case Refused(t) => s.active && !Holds(s, t)
    case WriteOther(t, q, row) =>
      Holds(s, t) && s.work[t].Other? && !row.restore && (q in s.table ==> !s.table[q].restore)
    case Begin(t) => Holds(s, t) && s.work[t].Calling?
    case Spawn(t, w) => Holds(s, t) && s.work[t].Prepared? && (w == t || !Holds(s, w))
    case Swap(t, _) => Holds(s, t) && s.work[t].Restoring?
    case Finish(t, o) =>
      Holds(s, t) && ((s.work[t].Restoring? && !o.Succeeded?) || (s.work[t].Swapped? && !o.AbortedBeforeChange?))
    case Complete(t, _) => Holds(s, t) && s.work[t].Completing?
    case End(t) => Holds(s, t)
    case Restart(t) => Holds(s, t) && s.work[t].Restarting?
    case Crash => true
  }

  /** The thread's lease is dropped: by an early return, an error, a panic, or the end of
      its work. `Drop` stores false. */
  function Dropped(s: State, t: Thread): State { s.(active := false, work := s.work - {t}) }

  function Taken(s: State, t: Thread, work: Work): State { s.(active := true, work := s.work[t := work]) }

  /** `begin_live_restore`: a request id that is known in any way ends the call; a new one
      gets a started row. */
  function AfterBegin(s: State, t: Thread): State
    requires t in s.work && s.work[t].Calling?
  {
    var q := s.work[t].request;
    if q in s.table then Dropped(s, t)
    else s.(table := s.table[q := Row(true, Started)], work := s.work[t := Prepared(q)])
  }

  /** What the worker does with its outcome: restart, complete the row, or nothing. */
  function AfterFinish(s: State, t: Thread, outcome: Outcome): State
    requires t in s.work && (s.work[t].Restoring? || s.work[t].Swapped?)
  {
    var q := s.work[t].request;
    match outcome
    case Succeeded => s.(work := s.work[t := Restarting(q)])
    case AbortedBeforeChange => s.(work := s.work[t := Completing(q, outcome)])
    case RolledBack =>
      if s.work[t].Swapped?
      then s.(table := s.work[t].table, database := s.work[t].database, work := s.work[t := Completing(q, outcome)])
      else s.(work := s.work[t := Completing(q, outcome)])
    case RollbackFailed => Dropped(s, t)
  }

  /** `complete_recovery_attempt` with a failure: only a started row changes. */
  function AfterComplete(s: State, t: Thread, stored: bool): State
    requires t in s.work && s.work[t].Completing?
  {
    var q := s.work[t].request;
    var table := if stored && q in s.table && s.table[q].status.Started? then s.table[q := Row(true, Failed)] else s.table;
    Dropped(s.(table := table), t)
  }

  function Apply(s: State, step: Step): State
    requires Enabled(s, step)
  {
    match step
    case AcquireOther(t) => Taken(s, t, Other)
    case Acquire(t, q) => Taken(s, t, Calling(q))
    case Refused(_) => s
    case WriteOther(_, q, row) => s.(table := s.table[q := row])
    case Begin(t) => AfterBegin(s, t)
    case Spawn(t, w) =>
      var q := s.work[t].request;
      s.(work := (s.work - {t})[w := Restoring(q)], launches := s.launches + [Launch(s.database, q)])
    case Swap(t, table) =>
      s.(table := table, database := s.databases, databases := s.databases + 1,
         work := s.work[t := Swapped(s.work[t].request, s.table, s.database)])
    case Finish(t, outcome) => AfterFinish(s, t, outcome)
    case Complete(t, stored) => AfterComplete(s, t, stored)
    case End(t) => Dropped(s, t)
    case Restart(_) => s.(active := false, work := map[])
    case Crash => s.(active := false, work := map[])
  }

  ghost predicate IsRun(s: State, steps: seq<Step>)
    decreases |steps|
  {
    |steps| == 0 || (Enabled(s, steps[0]) && IsRun(Apply(s, steps[0]), steps[1..]))
  }

  ghost function Run(s: State, steps: seq<Step>): State
    requires IsRun(s, steps)
    decreases |steps|
  {
    if |steps| == 0 then s else Run(Apply(s, steps[0]), steps[1..])
  }

  function Start(table: Table): State { State(false, map[], table, 0, 1, []) }

  // ---------------------------------------------------------------------------
  // What every step keeps
  // ---------------------------------------------------------------------------

  /** At most one lease exists, and the flag is on exactly when one does. */
  ghost predicate OneLease(s: State)
  {
    && (forall t, u :: t in s.work && u in s.work ==> t == u)
    && (s.active <==> exists t :: Holds(s, t))
  }

  /** Every launch on a database left its request in that database's table. */
  ghost predicate Remembered(launches: seq<Launch>, database: nat, table: Table)
  {
    forall i :: 0 <= i < |launches| && launches[i].database == database ==> launches[i].request in table
  }

  ghost predicate GoodWork(s: State, w: Work)
  {
    match w
    case Prepared(q) => q in s.table && s.table[q] == Row(true, Started) && Launch(s.database, q) !in s.launches
    case Restoring(q) => q in s.table && s.table[q] == Row(true, Started)
    case Swapped(q, table, database) =>
      database < s.database && Remembered(s.launches, database, table)
      && q in table && table[q] == Row(true, Started)
    case Completing(q, outcome) =>
      q in s.table && s.table[q] == Row(true, Started) && (outcome.AbortedBeforeChange? || outcome.RolledBack?)
    case _ => true
  }

  ghost predicate LaunchesDistinct(launches: seq<Launch>)
  {
    forall i, k :: 0 <= i < k < |launches| ==> launches[i] != launches[k]
  }

  ghost predicate Safe(s: State)
  {
    && OneLease(s)
    && s.database < s.databases
    && (forall i :: 0 <= i < |s.launches| ==> s.launches[i].database < s.databases)
    && LaunchesDistinct(s.launches)
    && Remembered(s.launches, s.database, s.table)
    && (forall t :: t in s.work ==> GoodWork(s, s.work[t]))
  }

  lemma StepKeepsLease(s: State, step: Step)
    requires OneLease(s) && Enabled(s, step)
    ensures OneLease(Apply(s, step))
  {
    var next := Apply(s, step);
    forall t | t in s.work ensures s.active { assert Holds(s, t); }
    assert step.AcquireOther? || step.Acquire? ==> Holds(next, step.t);
    assert step.Spawn? ==> Holds(next, step.worker);
    assert step.Swap? || step.WriteOther? || step.Begin? || step.Finish? ==> Holds(s, step.t);
    assert step.Swap? || step.WriteOther? || (step.Begin? && next.active) || (step.Finish? && next.active) ==>
      Holds(next, step.t);
  }

  lemma StepKeepsLaunches(s: State, step: Step)
    requires Safe(s) && Enabled(s, step)
    ensures LaunchesDistinct(Apply(s, step).launches)
    ensures Remembered(Apply(s, step).launches, Apply(s, step).database, Apply(s, step).table)
    ensures forall i :: 0 <= i < |Apply(s, step).launches| ==> Apply(s, step).launches[i].database < Apply(s, step).databases
    ensures Apply(s, step).database < Apply(s, step).databases
  {
  }

  lemma StepKeepsWork(s: State, step: Step)
    requires Safe(s) && Enabled(s, step)
    ensures forall t :: t in Apply(s, step).work ==> GoodWork(Apply(s, step), Apply(s, step).work[t])
  {
  }

  lemma StepSafe(s: State, step: Step)
    requires Safe(s) && Enabled(s, step)
    ensures Safe(Apply(s, step))
  {
    StepKeepsLease(s, step);
    StepKeepsLaunches(s, step);
    StepKeepsWork(s, step);
  }

  lemma {:induction false} RunSafe(s: State, steps: seq<Step>)
    requires Safe(s) && IsRun(s, steps)
    ensures Safe(Run(s, steps))
    decreases |steps|
  {
    if |steps| > 0 {
      StepSafe(s, steps[0]);
      RunSafe(Apply(s, steps[0]), steps[1..]);
    }
  }

  // ---------------------------------------------------------------------------
  // Over whole runs
  // ---------------------------------------------------------------------------

  /** In every interleaving, no two threads hold a lease, and the flag is on exactly when
      one does; an attempt to acquire is refused exactly while somebody else holds it. */
  lemma LeaseIsExclusive(table: Table, steps: seq<Step>, t: Thread, u: Thread)
    requires IsRun(Start(table), steps)
    ensures var s := Run(Start(table), steps);
      && (Holds(s, t) && Holds(s, u) ==> t == u)
      && (s.active <==> exists x :: Holds(s, x))
      && (!Holds(s, t) ==> (Enabled(s, Refused(t)) <==> exists x :: Holds(s, x)))
  {
    RunSafe(Start(table), steps);
  }

  /** Whatever the holder was doing, once it has ended anybody can acquire again. */
  lemma LeaseComesBack(table: Table, steps: seq<Step>, holder: Thread, t: Thread, request: RequestId)
    requires IsRun(Start(table), steps) && Holds(Run(Start(table), steps), holder)
    ensures Enabled(Run(Start(table), steps), End(holder))
    ensures Enabled(Apply(Run(Start(table), steps), End(holder)), Acquire(t, request))
  {
    RunSafe(Start(table), steps);
  }

  /** On one database, no live-restore request id starts the worker twice, over all calls,
      failures, crashes and restarts. */
  lemma LaunchedOnce(table: Table, steps: seq<Step>, i: nat, k: nat)
    requires IsRun(Start(table), steps) && i < k < |Run(Start(table), steps).launches|
    ensures var launches := Run(Start(table), steps).launches;
      launches[i].request == launches[k].request ==> launches[i].database != launches[k].database
  {
    RunSafe(Start(table), steps);
  }

  /** A row fails only by the completion that follows an aborted or rolled-back restore of
      its own request. */
  lemma FailsOnlyAfterUndo(table: Table, steps: seq<Step>, step: Step, q: RequestId)
    requires IsRun(Start(table), steps) && Enabled(Run(Start(table), steps), step)
    ensures var s := Run(Start(table), steps);
      var next := Apply(s, step);
      q in s.table && s.table[q] == Row(true, Started)
      && next.database == s.database && q in next.table && next.table[q] != s.table[q] ==>
        step.Complete? && step.stored && s.work[step.t].Completing? && s.work[step.t].request == q
        && (s.work[step.t].outcome.AbortedBeforeChange? || s.work[step.t].outcome.RolledBack?)
        && next.table[q] == Row(true, Failed)
  {
    RunSafe(Start(table), steps);
    var s := Run(Start(table), steps);
    assert step.Complete? || step.Finish? ==> GoodWork(s, s.work[step.t]);
  }

  /** The request's row is started and nobody works on it any more. */
  ghost predicate Abandoned(s: State, q: RequestId)
  {
    q in s.table && s.table[q] == Row(true, Started)
    && (forall t :: t in s.work && !s.work[t].Other? && !s.work[t].Calling? ==> s.work[t].request != q)
    && (forall t :: t in s.work ==> !s.work[t].Swapped?)
  }

  lemma AbandonedStep(s: State, step: Step, q: RequestId)
    requires Safe(s) && Enabled(s, step) && Abandoned(s, q) && !step.Swap?
    ensures Abandoned(Apply(s, step), q)
  {
  }

  ghost predicate NoSwap(steps: seq<Step>) { forall i :: 0 <= i < |steps| ==> !steps[i].Swap? }

  /** Such a row stays started as long as the database is not replaced, and so its request
      id can never be used again for a restore. */
  lemma {:induction false} AbandonedStays(s: State, steps: seq<Step>, q: RequestId)
    requires Safe(s) && IsRun(s, steps) && Abandoned(s, q) && NoSwap(steps)
    ensures Abandoned(Run(s, steps), q)
    decreases |steps|
  {
    if |steps| > 0 {
      AbandonedStep(s, steps[0], q);
      StepSafe(s, steps[0]);
      AbandonedStays(Apply(s, steps[0]), steps[1..], q);
    }
  }

  /** A failed rollback, and any crash or panic after the row was started, write nothing:
      the database and its table stay as they are, and if that is the table with the
      request's started row, the row is abandoned for good. It is, unless the database had
      been replaced; then it is the table that the restore brought. */
  lemma EndAbandons(s: State, t: Thread, q: RequestId)
    requires Safe(s) && t in s.work && !s.work[t].Other? && !s.work[t].Calling? && s.work[t].request == q
    ensures Dropped(s, t).table == s.table == Apply(s, Crash).table
    ensures Dropped(s, t).database == s.database == Apply(s, Crash).database
    ensures !s.work[t].Swapped? && !s.work[t].Restarting? ==> q in s.table && s.table[q] == Row(true, Started)
    ensures q in s.table && s.table[q] == Row(true, Started) ==>
              Abandoned(Dropped(s, t), q) && Abandoned(Apply(s, Crash), q)
    ensures Enabled(s, Finish(t, RollbackFailed)) ==> Apply(s, Finish(t, RollbackFailed)) == Dropped(s, t)
  {
    assert GoodWork(s, s.work[t]);
  }
}
