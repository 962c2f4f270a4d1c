/** The calls that create backups, run as the source runs them. Each drives the
    protocol step by step, so all that holds of runs holds of any sequence of calls. */
module BackupCalls {
  import opened Text
  import opened BackupProtocol
  import opened BackupSafety
  import opened BackupRuns

  const IDENTIFIER_COLLISION_ATTEMPTS: nat := 3

  const DAILY_DUE_AFTER_SECONDS: int := 20 * 3600

  datatype Reason = Daily | PreUpdate

  /** How a call ended: with an answer for its caller, or with the process. */
  datatype Ending = Told(result: Option<Result>) | Skipped | Stopped

  /** A daily backup is not due while the last success is less than 20 hours old. A last
      success in the future does not count. */
  predicate Due(reason: Reason, lastSuccess: Option<int>, now: int)
  {
    reason.PreUpdate? || lastSuccess.None? || now < lastSuccess.value
    || now - lastSuccess.value >= DAILY_DUE_AFTER_SECONDS
  }

  // ---------------------------------------------------------------------------
  // What a call comes to
  // ---------------------------------------------------------------------------

  /** The request id is known, and it is this actor's and this operation's. */
  predicate Belongs(s: State, request: RequestId, kind: Kind, actor: int)
  {
    request in s.rows && s.rows[request].kind == kind && s.rows[request].actor == actor
  }

  /** The first of the names the clock gives that no row has. */
  function FirstFree(rows: Table, candidates: seq<Name>): Option<Name>
  {
    if |candidates| == 0 then None
    else if NameTaken(rows, candidates[0]) then FirstFree(rows, candidates[1..])
    else Some(candidates[0])
  }

  /** The directory has room for the row's bundle: no folder of that name, and, for the
      embedded engine, no staging directory of that bundle and attempt. */
  predicate HasRoom(s: State, row: Row, directory: Directory)
  {
    && Place(directory, row.bundle) !in s.published
    && (s.mode.External? || Stage(directory, row.bundle, row.attempt, 0) !in s.stages)
  }

  /** What a started row comes to in a directory, if nothing fails: a replayed manual
      backup takes up a folder or fails; otherwise a valid bundle of the right schema
      version is published where there is room for it. */
  function Outcome(s: State, request: RequestId, row: Row, replay: bool, directory: Directory, b: Bundle): Option<Result>
  {
    var place := Place(directory, row.bundle);
    if replay && row.kind.Manual? && place in s.published then
      if TakesUp(s, s.published[place].content)
      then Some(Result(request, row.bundle, s.published[place].kind, s.published[place].content)) else None
    else if HasRoom(s, row, directory) && s.validate(b) == Some(EngineVersion(s))
    then Some(Result(request, row.bundle, row.kind, b)) else None
  }

  /** What a call is answered, if nothing fails. A known request id is answered from its
      row, or continued; a new one gets a row under the first free name. */
  function Expected(s: State, request: RequestId, kind: Kind, actor: int, candidates: seq<Name>,
                    directory: Directory, b: Bundle): Option<Result>
  {
    if request in s.rows then
      if !Belongs(s, request, kind, actor) then None
      else
        match s.rows[request].status
        case Succeeded(r) => Some(r)
        case Failed => None
        case Started => Outcome(s.(target := s.schema), request, s.rows[request], true, directory, b)
    else
      match FirstFree(s.rows, candidates)
      case None => None
      case Some(name) =>
        Outcome(s.(target := s.schema), request, Row(actor, kind, name, s.attempts, Started), false, directory, b)
  }

  /** An answer that a call with these inputs may give: the expected one, or, after a
      fault, a failure. */
  predicate MayAnswer(result: Option<Result>, expected: Option<Result>, faultless: bool)
  {
    result == expected || (result.None? && !faultless)
  }

  /** Each step leads from one of the states to the next. */
  ghost predicate Leads(states: seq<State>, steps: seq<Step>)
  {
    |states| == |steps| + 1 && forall i :: 0 <= i < |steps| ==> LeadsTo(states[i], steps[i], states[i + 1])
  }

  ghost predicate LeadsTo(s: State, step: Step, t: State) { Enabled(s, step) && t == Apply(s, step) }

  lemma {:induction false} LeadsIsRun(states: seq<State>, steps: seq<Step>)
    requires Leads(states, steps)
    ensures IsRun(states[0], steps) && Run(states[0], steps) == states[|steps|]
    decreases |steps|
  {
    if |steps| > 0 {
      assert LeadsTo(states[0], steps[0], states[1]);
      assert Leads(states[1..], steps[1..]) by {
        forall i | 0 <= i < |steps| - 1 ensures LeadsTo(states[1..][i], steps[1..][i], states[1..][i + 1]) {
          assert LeadsTo(states[i + 1], steps[i + 1], states[i + 2]);
        }
      }
      LeadsIsRun(states[1..], steps[1..]);
    }
  }

  /** The call's row is known, nothing is being deleted while the call is at work, and a
      success is about to be answered only when it is stored. */
  ghost predicate Orderly(s: State)
  {
    && Known(s)
    && (s.removing.Some? ==> s.call.Idle? || s.call.Answering?)
    && (s.call.Answering? && s.call.result.Some? ==> s.rows[s.call.request].status == Succeeded(s.call.result.value))
  }

  class BackupProcess {
    var state: State
    ghost var trace: seq<Step>
    ghost var states: seq<State>
    /** Nothing fails in the outside world, and the process is not stopped. */
    const faultless: bool

    /** The state is the one that the steps so far lead to. */
    ghost predicate Valid()
      reads this
    {
      Leads(states, trace) && Safe(states[0]) && state == states[|trace|] && Orderly(state)
    }

    /** All that every step keeps holds of the state. */
    lemma StateSafe()
      requires Valid()
      ensures Safe(state)
    {
      LeadsIsRun(states, trace);
      RunSafe(states[0], trace);
    }

    lemma StageGood()
      requires Valid() && state.call.Staging? && state.call.stage in state.stages
      ensures state.call.stage.name == state.rows[state.call.request].bundle
      ensures state.stages[state.call.stage].request == state.call.request
      ensures state.stages[state.call.stage].kind == state.rows[state.call.request].kind
      ensures state.stages[state.call.stage].phase.Checked? ==> Accepts(state, state.stages[state.call.stage].content)
    {
      StateSafe();
      assert GoodStage(state, state.call.stage);
    }

    /** The external engine's next staging directory is always new. */
    lemma StageFree()
      requires Valid() && state.call.Placed?
      ensures state.mode.External? ==> NextStage(state) !in state.stages
    {
      StateSafe();
      var stage := NextStage(state);
      assert stage in state.stages ==> GoodStage(state, stage);
    }

    lemma RemovedIsAutomatic()
      requires Valid() && state.removing.Some?
      ensures state.removing.value in state.published && state.published[state.removing.value].kind.Automatic?
    {
      StateSafe();
    }

    lemma StoredResultBelongs(request: RequestId)
      requires Valid() && request in state.rows && state.rows[request].status.Succeeded?
      ensures state.rows[request].status.result.request == request
      ensures state.rows[request].status.result.bundle == state.rows[request].bundle
    {
      StateSafe();
      assert GoodRow(state.rows, state.attempts, request);
    }

    /** What is expected of a new request without restores, and of a started one whose name
        is free in the directory, or whose folder is there. */
    lemma SuccessExpected(request: RequestId, kind: Kind, actor: int, candidates: seq<Name>, directory: Directory, b: Bundle)
      requires Valid()
      ensures NewAndUndisturbed(state, request, candidates) && state.validate(b) == Some(state.schema) ==>
                Expected(state, request, kind, actor, candidates, directory, b).Some?
      ensures CanRetry(state, request, kind, actor, directory) && state.validate(b) == Some(state.schema) ==>
                (Expected(state, request, kind, actor, candidates, directory, b).Some?
                 <==> state.mode.External? || EmbeddedStage(state, request, directory) !in state.stages)
      ensures CanResume(state, request, actor, directory) ==>
                (Expected(state, request, Manual, actor, candidates, directory, b).Some?
                 <==> state.mode.Embedded? || IsCurrent(state, request, directory))
    {
      if NewAndUndisturbed(state, request, candidates) && state.validate(b) == Some(state.schema) {
        StateSafe();
        FirstFreeFound(state.rows, candidates);
        NewRequestSucceeds(state, request, kind, actor, candidates, directory, b);
      }
      if CanRetry(state, request, kind, actor, directory) && state.validate(b) == Some(state.schema) {
        RetrySucceeds(state, request, kind, actor, candidates, directory, b);
      }
      if CanResume(state, request, actor, directory) {
        ResumeSucceeds(state, request, actor, candidates, directory, b);
      }
    }

    constructor (mode: Mode, validate: Bundle -> Option<Version>, schema: Version, destination: Directory,
                 fallback: Directory, faultless: bool)
      ensures Valid() && trace == [] && state == Start(mode, validate, schema, destination, fallback)
      ensures this.faultless == faultless
    {
      this.faultless := faultless;
      state := Start(mode, validate, schema, destination, fallback);
      states := [Start(mode, validate, schema, destination, fallback)];
      trace := [];
    }

    method Do(step: Step)
      requires Valid() && Enabled(state, step)
      modifies this
      ensures Valid() && state == Apply(old(state), step) && trace == old(trace) + [step]
    {
      StateSafe();
      StepSafe(state, step);
      state := Apply(state, step);
      trace := trace + [step];
      states := states + [state];
    }

    /** The process may stop here. */
    method Interrupted() returns (stopped: bool)
      requires Valid()
      modifies this
      ensures Valid() && old(trace) <= trace
      ensures state == if stopped then old(state).(call := Idle, removing := None) else old(state)
      ensures faultless ==> !stopped
    {
      stopped := *;
      stopped := stopped && !faultless;
      if stopped {
        Do(Crash);
      }
    }

    /** A step that can fail in the outside world; then the call goes on to report
        failure. */
    method Try(step: Step) returns (failed: bool)
      requires Valid() && Enabled(state, step) && Enabled(state, Fail(true))
      modifies this
      ensures Valid() && old(trace) <= trace
      ensures failed ==> state.call == Finishing(old(state).call.request, None) && SameTable(old(state), state)
      ensures !failed ==> state == Apply(old(state), step)
      ensures faultless ==> !failed
    {
      failed := *;
      failed := failed && !faultless;
      if failed {
        var cleaned: bool := *;
        Do(Fail(cleaned));
      } else {
        Do(step);
      }
    }

    /** Such a step, after which the process may stop. */
    method Work(step: Step) returns (go: bool)
      requires Valid() && Enabled(state, step) && Enabled(state, Fail(true)) && !step.Fail?
      modifies this
      ensures Valid() && old(trace) <= trace
      ensures go ==> state == Apply(old(state), step)
      ensures !go ==>
                GivenUp(state, old(state).call.request) && SameAnswers(old(state), state)
                && (state.published == old(state).published
                    || (step.Publish? && state.published == AfterPublish(old(state)).published))
      ensures faultless ==> go
    {
      var failed := Try(step);
      if failed { return false; }
      var stopped := Interrupted();
      go := !stopped;
    }

    /** A step that cannot fail, after which the process may stop. */
    method Proceed(step: Step) returns (stopped: bool)
      requires Valid() && Enabled(state, step)
      modifies this
      ensures Valid() && old(trace) <= trace
      ensures state == if stopped then Apply(old(state), step).(call := Idle, removing := None) else Apply(old(state), step)
      ensures faultless ==> !stopped
    {
      Do(step);
      stopped := Interrupted();
    }

    /** From an empty staging directory to a validated bundle in it. */
    method FillStage(assembled: Bundle, stamped: Bundle) returns (go: bool)
      requires Valid() && InStage(state, Empty) && Known(state)
      modifies this
      ensures Valid() && old(trace) <= trace && SameTable(old(state), state)
      ensures go ==>
                state.validate(stamped) == Some(old(state).target) && state == Advance(old(state), Checked, stamped)
      ensures !go ==> GivenUp(state, old(state).call.request)
      ensures faultless ==> !state.call.Idle? && (go <==> state.validate(stamped) == Some(old(state).target))
    {
      go := Work(Assemble(assembled));
      if !go { return; }
      go := Work(Stamp(stamped));
      if !go { return; }
      if state.validate(state.stages[state.call.stage].content) != Some(state.target) {
        Do(Fail(true));
        return false;
      }
      go := Work(Check);
      if go { assert state == Advance(old(state), Checked, stamped); }
    }

    /** Renames the staged bundle to its final path, unless something is there by now. */
    method PublishStaged() returns (go: bool)
      requires Valid() && InStage(state, Checked)
      modifies this
      ensures Valid() && old(trace) <= trace
      ensures go ==> FinalPlace(old(state), old(state).call.stage.directory) !in old(state).published
                     && state == AfterPublish(old(state))
      ensures !go ==> GivenUp(state, old(state).call.request) && OnlyFor(old(state), state, old(state).call.request)
      ensures faultless ==>
                !state.call.Idle?
                && (go <==> FinalPlace(old(state), old(state).call.stage.directory) !in old(state).published)
    {
      if FinalPlace(state, state.call.stage.directory) in state.published {
        Do(Fail(true));
        return false;
      }
      StageGood();
      go := Work(Publish);
    }

    /** Validates what is at the final path. */
    method InspectPublished()
      requires Valid() && state.call.Published? && FinalPlace(state, state.call.directory) in state.published
      modifies this
      ensures Valid() && old(trace) <= trace && SameTable(old(state), state)
      ensures state.call.Finishing? && state.call.request == old(state).call.request
      ensures state.call.result.Some? ==>
                state.call.result.value == ResultAt(old(state), old(state).call.request, old(state).call.directory)
                && IntactAt(state, FinalPlace(old(state), old(state).call.directory))
                && PassesInspection(old(state), FinalPlace(old(state), old(state).call.directory))
      ensures faultless ==>
                (state.call.result.Some? <==>
                   PassesInspection(old(state), FinalPlace(old(state), old(state).call.directory)))
    {
      if !PassesInspection(state, FinalPlace(state, state.call.directory)) {
        Do(Fail(true));
        return;
      }
      var cleaned: bool := *;
      var failed := Try(Inspect(cleaned));
    }

    /** From a validated bundle in the staging directory to one at the final path. */
    method PublishAndInspect()
      requires Valid() && InStage(state, Checked)
      requires FinalPlace(state, state.call.stage.directory) !in state.published
      modifies this
      ensures Valid() && old(trace) <= trace && OnlyFor(old(state), state, old(state).call.request)
      ensures Ended(state, old(state).call.request)
      ensures faultless ==> state.call.Finishing? && state.call.result.Some?
      ensures state.call.Finishing? && state.call.result.Some? ==>
                state.call.result.value == StagedResult(old(state))
                && IntactAt(state, FinalPlace(old(state), old(state).call.stage.directory))
    {
      StageGood();
      var go := PublishStaged();
      if !go { return; }
      InspectPublished();
    }

    /** A new staging directory, with a validated bundle in it at the end. */
    method OpenAndFill(assembled: Bundle, stamped: Bundle) returns (go: bool)
      requires Valid() && Enabled(state, OpenStage)
      modifies this
      ensures Valid() && old(trace) <= trace && SameTable(old(state), state)
      ensures go ==>
                state.validate(stamped) == Some(EngineVersion(old(state)))
                && state == Advance(AfterOpen(old(state)), Checked, stamped)
      ensures !go ==> GivenUp(state, old(state).call.request)
      ensures faultless ==> !state.call.Idle? && (go <==> state.validate(stamped) == Some(EngineVersion(old(state))))
    {
      go := Work(OpenStage);
      if !go { return; }
      go := FillStage(assembled, stamped);
    }

    /** The engine: stage, assemble, stamp, validate, publish, validate again. It takes up
        no existing folder and no existing staging directory. A success is a new folder
        with the bundle, and without faults it comes about exactly where there is room for
        a valid one. */
    method CreateBundle(assembled: Bundle, stamped: Bundle)
      requires Valid() && state.call.Placed? && !MayResume(state)
      modifies this
      ensures Valid() && old(trace) <= trace && OnlyFor(old(state), state, old(state).call.request)
      ensures Ended(state, old(state).call.request)
      ensures faultless ==> state.call.Finishing?
      ensures state.call.Finishing? ==> MayAnswer(state.call.result, CreateOutcome(old(state), stamped), faultless)
      ensures state.call.Finishing? && state.call.result.Some? ==>
                IntactAt(state, FinalPlace(old(state), old(state).call.directory))
      ensures FinalPlace(old(state), old(state).call.directory) in old(state).published ==>
                state.published == old(state).published
    {
      StageFree();
      if FinalPlace(state, state.call.directory) in state.published || NextStage(state) in state.stages {
        Do(Fail(true));
        return;
      }
      var go := OpenAndFill(assembled, stamped);
      if !go { return; }
      PublishAndInspect();
    }

    /** One `begin` without a conflict: it answers, or the row is started. A reply that gets
        lost leaves the row started, and the caller with an error. */
    method BeginOnce(request: RequestId, kind: Kind, actor: int, candidate: Name) returns (ending: Option<Ending>)
      requires Valid() && Quiet(state) && !Conflicts(state, request, kind, actor, candidate)
      modifies this
      ensures Valid() && old(trace) <= trace
      ensures ending.None? ==>
                (request in old(state).rows ==> old(state).rows[request].status.Started?)
                && state == AfterBegin(old(state), request, kind, actor, candidate)
      ensures ending.Some? ==>
                EndsWithBegin(old(state), state, request, kind, actor, [candidate], ending.value, faultless)
    {
      if request in state.rows && state.rows[request].status.Succeeded? { StoredResultBelongs(request); }
      var lost: bool := *;
      if lost && !faultless && request !in state.rows {
        LostBegin(state, request, kind, actor, candidate);
        Do(LoseBegin(request, kind, actor, candidate));
        return Some(Told(None));
      }
      Do(Begin(request, kind, actor, candidate));
      if !state.call.Idle? {
        return None;
      }
      return Some(Told(state.answers[|state.answers| - 1].result));
    }

    /** The single `begin` of the external engine: a conflict is the end of the call. */
    method BeginExternal(request: RequestId, actor: int, candidate: Name) returns (ending: Option<Ending>)
      requires Valid() && Quiet(state)
      modifies this
      ensures Valid() && old(trace) <= trace
      ensures match ending
        case None => CanBegin(old(state), request, Manual, actor, [candidate])
                     && state == BegunState(old(state), request, Manual, actor, [candidate])
        case Some(e) => EndsWithBegin(old(state), state, request, Manual, actor, [candidate], e, faultless)
    {
      var refused: bool := *;
      if (refused && !faultless) || Conflicts(state, request, Manual, actor, candidate) {
        ConflictIsEnd(state, request, Manual, actor, candidate);
        Do(Refuse(request));
        return Some(Told(None));
      }
      ending := BeginOnce(request, Manual, actor, candidate);
    }

    /** `begin` of the embedded engine, tried again while the bundle name of the current
        second is taken: the clock gives a candidate each time. Either the call is over, or
        its row is started; a new row has the first free name. */
    method BeginAttempt(request: RequestId, kind: Kind, actor: int, candidates: seq<Name>) returns (ending: Option<Ending>)
      requires Valid() && Quiet(state) && |candidates| == IDENTIFIER_COLLISION_ATTEMPTS
      modifies this
      ensures Valid() && old(trace) <= trace
      ensures match ending
        case None => CanBegin(old(state), request, kind, actor, candidates)
                     && state == BegunState(old(state), request, kind, actor, candidates)
        case Some(e) => EndsWithBegin(old(state), state, request, kind, actor, candidates, e, faultless)
    {
      var attempts := 0;
      while attempts < IDENTIFIER_COLLISION_ATTEMPTS
        invariant attempts <= IDENTIFIER_COLLISION_ATTEMPTS
        invariant Valid() && state == old(state) && trace == old(trace)
        invariant request in state.rows ==> attempts == 0 || !Belongs(state, request, kind, actor)
        invariant request !in state.rows ==> FirstFree(state.rows, candidates) == FirstFree(state.rows, candidates[attempts..])
      {
        var candidate := candidates[attempts];
        attempts := attempts + 1;
        var refused: bool := *;
        if refused && !faultless {
          break;
        }
        if !Conflicts(state, request, kind, actor, candidate) {
          ending := BeginOnce(request, kind, actor, candidate);
          return;
        }
        assert request !in state.rows ==> candidates[attempts - 1..][1..] == candidates[attempts..];
      }
      Do(Refuse(request));
      ending := Some(Told(None));
    }

    /** After the row is started: find the destination, take up or create the folder. */
    method FindOrCreate(directory: Directory, assembled: Bundle, stamped: Bundle)
      requires Valid() && state.call.Begun? && Known(state) && Enabled(state, Locate(directory))
      modifies this
      ensures Valid() && old(trace) <= trace && OnlyFor(old(state), state, old(state).call.request)
      ensures Ended(state, old(state).call.request)
      ensures faultless ==> state.call.Finishing?
      ensures state.call.Finishing? ==>
                MayAnswer(state.call.result, BegunOutcome(old(state), directory, stamped), faultless)
      ensures state.call.Finishing? && state.call.result.Some? ==> IntactAt(state, FinalPlace(old(state), directory))
      ensures FinalPlace(old(state), directory) in old(state).published ==> state.published == old(state).published
    {
      var failed := Try(Locate(directory));
      if failed { return; }
      if MayResume(state) {
        Do(Resume);
        InspectPublished();
      } else {
        CreateBundle(assembled, stamped);
      }
    }

    /** Stores the outcome. The completion may fail, and a stored success may be reported
        as a failure. */
    method Store() returns (stopped: bool)
      requires Valid() && state.call.Finishing?
      modifies this
      ensures Valid() && old(trace) <= trace
      ensures state.published == old(state).published && state.answers == old(state).answers
      ensures state.validate == old(state).validate
      ensures RowsOnlyFor(old(state), state, old(state).call.request)
      ensures stopped ==> Quiet(state)
      ensures !stopped ==>
                state.call.Answering? && state.call.request == old(state).call.request && state.removing.None?
                && MayAnswer(state.call.result, old(state).call.result, faultless)
      ensures faultless ==> !stopped
    {
      stopped := Interrupted();
      if stopped { return; }
      var stored: bool := *;
      var told: bool := *;
      stopped := Proceed(Complete(stored || faultless, told || faultless));
    }

    /** From the started row to the stored outcome. */
    method MakeAndStore(directory: Directory, assembled: Bundle, stamped: Bundle) returns (stopped: bool)
      requires Valid() && state.call.Begun? && Known(state) && Enabled(state, Locate(directory))
      modifies this
      ensures Valid() && old(trace) <= trace
      ensures state.answers == old(state).answers
      ensures RowsOnlyFor(old(state), state, old(state).call.request)
      ensures FoldersOnlyFor(old(state), state, old(state).call.request)
      ensures stopped ==> Quiet(state)
      ensures !stopped ==>
                state.call.Answering? && state.call.request == old(state).call.request && state.removing.None?
                && MayAnswer(state.call.result, BegunOutcome(old(state), directory, stamped), faultless)
                && (state.call.result.Some? ==> IntactAt(state, FinalPlace(old(state), directory)))
      ensures FinalPlace(old(state), directory) in old(state).published ==> state.published == old(state).published
      ensures faultless ==> !stopped
    {
      stopped := Interrupted();
      if stopped { return; }
      FindOrCreate(directory, assembled, stamped);
      if state.call.Idle? { return true; }
      ghost var found := state;
      stopped := Store();
      assert RowsOnlyFor(found, state, found.call.request);
    }

    /** From the started row to the end of a manual backup. */
    method ContinueManual(directory: Directory, assembled: Bundle, stamped: Bundle) returns (ending: Ending)
      requires Valid() && state.call.Begun? && Enabled(state, Locate(directory))
      modifies this
      ensures Valid() && old(trace) <= trace && Quiet(state) && !ending.Skipped?
      ensures ending.Told? ==>
                && AnswerTo(old(state), state, old(state).call.request, ending.result)
                && MayAnswer(ending.result, BegunOutcome(old(state), directory, stamped), faultless)
      ensures ending.Stopped? ==> state.answers == old(state).answers
      ensures RowsOnlyFor(old(state), state, old(state).call.request)
      ensures FoldersOnlyFor(old(state), state, old(state).call.request)
      ensures FinalPlace(old(state), directory) in old(state).published ==> state.published == old(state).published
      ensures faultless ==> ending.Told?
    {
      var stopped := MakeAndStore(directory, assembled, stamped);
      if stopped {
        return Stopped;
      }
      ending := Told(state.call.result);
      Do(Tell);
    }

    /** `create_manual_backup` of the embedded engine. A call that ends has given exactly one
        answer: without faults the expected one, and a fault can only turn it into a
        failure. A success is stored in the row of the request; and only that row, and a
        folder of that request, are touched. A request that was settled before changes
        nothing. */
    method CreateManualBackup(request: RequestId, actor: int, candidates: seq<Name>, assembled: Bundle, stamped: Bundle)
        returns (ending: Ending)
      requires Valid() && Quiet(state) && |candidates| == IDENTIFIER_COLLISION_ATTEMPTS
      modifies this
      ensures Valid() && old(trace) <= trace && Quiet(state)
      ensures OneAnswer(old(state), state, request, ending, faultless,
                        Expected(old(state), request, Manual, actor, candidates, old(state).destination, stamped))
      ensures OnlyRequest(old(state), state, request, old(state).destination)
    {
      ghost var before := state;
      var begun := BeginAttempt(request, Manual, actor, candidates);
      if begun.Some? {
        SettledExpected(before, state, request, Manual, actor, candidates, begun.value, faultless, state.destination, stamped);
        return begun.value;
      }
      ghost var started := state;
      BegunExpected(before, request, Manual, actor, candidates, state.destination, stamped);
      ending := ContinueManual(state.destination, assembled, stamped);
      OnlyForJoins(before, started, state, request);
    }

    /** `create_operator_backup_external`: the same, but for a single `begin`. */
    method CreateExternalBackup(request: RequestId, actor: int, candidate: Name, assembled: Bundle, stamped: Bundle)
        returns (ending: Ending)
      requires Valid() && Quiet(state)
      modifies this
      ensures Valid() && old(trace) <= trace && Quiet(state)
      ensures OneAnswer(old(state), state, request, ending, faultless,
                        Expected(old(state), request, Manual, actor, [candidate], old(state).destination, stamped))
      ensures OnlyRequest(old(state), state, request, old(state).destination)
    {
      ghost var before := state;
      var begun := BeginExternal(request, actor, candidate);
      if begun.Some? {
        SettledExpected(before, state, request, Manual, actor, [candidate], begun.value, faultless, state.destination, stamped);
        return begun.value;
      }
      ghost var started := state;
      BegunExpected(before, request, Manual, actor, [candidate], state.destination, stamped);
      ending := ContinueManual(state.destination, assembled, stamped);
      OnlyForJoins(before, started, state, request);
    }

    /** `create_operator_backup`, for either engine. Without faults a new request succeeds if
        there were no restores; a retry whose folder is not there exactly if no staging
        directory is in its way; and one whose folder is there exactly if the engine is the
        embedded one or the folder has the current schema version. */
    method CreateOperatorBackup(request: RequestId, actor: int, candidates: seq<Name>, assembled: Bundle, stamped: Bundle)
        returns (ending: Ending)
      requires Valid() && Quiet(state) && |candidates| == IDENTIFIER_COLLISION_ATTEMPTS
      modifies this
      ensures Valid() && old(trace) <= trace && Quiet(state)
      ensures OneAnswer(old(state), state, request, ending, faultless,
                        Expected(old(state), request, Manual, actor, Tried(old(state), candidates),
                                 old(state).destination, stamped))
      ensures faultless && NewAndUndisturbed(old(state), request, Tried(old(state), candidates))
              && old(state).validate(stamped) == Some(old(state).schema) ==>
                ending.Told? && ending.result.Some?
      ensures faultless && CanRetry(old(state), request, Manual, actor, old(state).destination)
              && old(state).validate(stamped) == Some(old(state).schema) ==>
                ending.Told?
                && (ending.result.Some? <==>
                      old(state).mode.External?
                      || EmbeddedStage(old(state), request, old(state).destination) !in old(state).stages)
      ensures faultless && CanResume(old(state), request, actor, old(state).destination) ==>
                ending.Told?
                && (ending.result.Some? <==>
                      old(state).mode.Embedded? || IsCurrent(old(state), request, old(state).destination))
      ensures OnlyRequest(old(state), state, request, old(state).destination)
    {
      SuccessExpected(request, Manual, actor, Tried(state, candidates), state.destination, stamped);
      if state.mode.External? {
        ending := CreateExternalBackup(request, actor, candidates[0], assembled, stamped);
      } else {
        ending := CreateManualBackup(request, actor, candidates, assembled, stamped);
      }
    }

    /** A file, or an empty directory, is deleted. The process may stop after it. */
    method RemovePath(place: Place) returns (stopped: bool)
      requires Valid() && state.call.Answering? && state.removing == Some(place)
      requires place in state.published && state.published[place].content != NOTHING
      modifies this
      ensures Valid() && old(trace) <= trace && OnlyRemoves(old(state), state, place) && place in state.published
      ensures Paths(state.published[place].content) < Paths(old(state).published[place].content)
      ensures if stopped then Quiet(state) else state.call == old(state).call && state.removing == Some(place)
      ensures faultless ==> !stopped
    {
      RemovedIsAutomatic();
      SomethingToLose(state.published[place].content);
      var path :| path in Paths(state.published[place].content) && CanLose(state.published[place].content, path);
      ghost var before := state;
      stopped := Proceed(Lose(path));
      LoseRemoves(before, state, place, path);
    }

    /** Files and directories are deleted until nothing is left, the disk refuses, or the
        process stops. */
    method EmptyFolder(place: Place) returns (emptied: bool, stopped: bool)
      requires Valid() && state.call.Answering? && state.removing == Some(place) && place in state.published
      modifies this
      ensures Valid() && old(trace) <= trace && OnlyRemoves(old(state), state, place)
      ensures if stopped then Quiet(state) else state.call == old(state).call && state.removing == Some(place)
      ensures place in state.published && (emptied && !stopped ==> state.published[place].content == NOTHING)
      ensures faultless ==> emptied && !stopped
    {
      stopped := false;
      while state.published[place].content != NOTHING
        invariant Valid() && old(trace) <= trace && OnlyRemoves(old(state), state, place)
        invariant !stopped && state.call == old(state).call && state.removing == Some(place) && place in state.published
        decreases Paths(state.published[place].content)
      {
        var failed: bool := *;
        if failed && !faultless { return false, false; }
        ghost var before := state;
        stopped := RemovePath(place);
        RemovesJoins(old(state), before, state, place);
        if stopped { return false, true; }
      }
      emptied := true;
    }

    /** The empty folder itself is deleted, or what is left is given up. */
    method EndRemoval(place: Place, emptied: bool)
      requires Valid() && state.call.Answering? && state.removing == Some(place) && place in state.published
      requires emptied ==> state.published[place].content == NOTHING
      modifies this
      ensures Valid() && old(trace) <= trace && OnlyRemoves(old(state), state, place)
      ensures state.call == old(state).call && state.removing.None? && (emptied ==> place !in state.published)
    {
      RemovedIsAutomatic();
      if emptied {
        Do(FinishRemoval);
      } else {
        Do(AbandonRemoval);
      }
    }

    /** `fs::remove_dir_all` on one automatic folder. It may stop at any file. */
    method RemoveFolder(place: Place) returns (stopped: bool)
      requires Valid() && Enabled(state, StartRemoval(place)) && state.call.Answering?
      modifies this
      ensures Valid() && old(trace) <= trace && OnlyRemoves(old(state), state, place)
      ensures if stopped then Quiet(state) else state.call == old(state).call && state.removing.None?
      ensures faultless ==> !stopped && place !in state.published
    {
      stopped := Proceed(StartRemoval(place));
      if stopped { return; }
      var emptied;
      emptied, stopped := EmptyFolder(place);
      if stopped { return; }
      ghost var before := state;
      EndRemoval(place, emptied);
      RemovesJoins(old(state), before, state, place);
    }

    /** Retention after an automatic success: any automatic folders but the new one, each
        deleted as far as the disk lets it be. */
    method ApplyRetention(made: Place) returns (stopped: bool)
      requires Valid() && state.call.Answering? && state.call.result.Some? && state.removing.None?
      modifies this
      ensures Valid() && old(trace) <= trace && OnlyReduces(old(state), state, made)
      ensures if stopped then Quiet(state) else state.call == old(state).call && state.removing.None?
      ensures faultless ==> !stopped
    {
      var targets: seq<Place> := *;
      stopped := false;
      for i := 0 to |targets|
        invariant Valid() && old(trace) <= trace && OnlyReduces(old(state), state, made)
        invariant !stopped && state.call == old(state).call && state.removing.None?
      {
        var place := targets[i];
        var locked: bool := *;
        if place != made && place in state.published && Removable(state.published[place]) && !locked {
          ghost var before := state;
          stopped := RemoveFolder(place);
          ReducesJoins(old(state), before, state, made, place);
          if stopped { return; }
        }
      }
    }

    /** The end of an automatic backup: retention after a success, and the answer. */
    method FinishAutomatic(made: Place) returns (ending: Ending)
      requires Valid() && state.call.Answering? && state.removing.None?
      modifies this
      ensures Valid() && old(trace) <= trace && Quiet(state) && !ending.Skipped?
      ensures ending.Told? ==>
                ending == Told(old(state).call.result)
                && state.answers == old(state).answers + [Answer(old(state).call.request, ending.result)]
      ensures ending.Stopped? ==> state.answers == old(state).answers
      ensures state.rows == old(state).rows && state.validate == old(state).validate && ManualKept(old(state), state)
      ensures IntactAt(old(state), made) ==> IntactAt(state, made)
      ensures faultless ==> ending.Told?
    {
      var result := state.call.result;
      if result.Some? {
        var stopped := ApplyRetention(made);
        if stopped {
          return Stopped;
        }
      }
      Do(Tell);
      ending := Told(result);
    }

    /** From the started row to the end of an automatic backup. */
    method ContinueAutomatic(directory: Directory, assembled: Bundle, stamped: Bundle) returns (ending: Ending)
      requires Valid() && state.call.Begun? && Enabled(state, Locate(directory))
      modifies this
      ensures Valid() && old(trace) <= trace && Quiet(state) && !ending.Skipped?
      ensures ending.Told? ==>
                && AnswerTo(old(state), state, old(state).call.request, ending.result)
                && MayAnswer(ending.result, BegunOutcome(old(state), directory, stamped), faultless)
                && (ending.result.Some? ==> IntactAt(state, Place(directory, ending.result.value.bundle)))
      ensures ending.Stopped? ==> state.answers == old(state).answers
      ensures RowsOnlyFor(old(state), state, old(state).call.request) && ManualKept(old(state), state)
      ensures faultless ==> ending.Told?
    {
      var made := FinalPlace(state, directory);
      OutcomeBundle(state, directory, stamped);
      var stopped := MakeAndStore(directory, assembled, stamped);
      if stopped {
        return Stopped;
      }
      ending := FinishAutomatic(made);
    }

    /** An automatic backup that is due, in the directory that was found for it. */
    method AnswerAutomatic(request: RequestId, actor: int, candidates: seq<Name>, directory: Directory,
                           assembled: Bundle, stamped: Bundle)
        returns (ending: Ending)
      requires Valid() && Quiet(state) && |candidates| == IDENTIFIER_COLLISION_ATTEMPTS
      requires directory == state.destination || directory == state.fallback
      modifies this
      ensures Valid() && old(trace) <= trace && Quiet(state)
      ensures OneAnswer(old(state), state, request, ending, faultless,
                        Expected(old(state), request, Automatic, actor, candidates, directory, stamped))
      ensures ending.Told? && ending.result.Some?
              && !(request in old(state).rows && old(state).rows[request].status.Succeeded?) ==>
                IntactAt(state, Place(directory, ending.result.value.bundle))
      ensures AutomaticFrame(old(state), state, request)
    {
      ghost var before := state;
      var begun := BeginAttempt(request, Automatic, actor, candidates);
      if begun.Some? {
        SettledExpected(before, state, request, Automatic, actor, candidates, begun.value, faultless, directory, stamped);
        return begun.value;
      }
      ghost var started := state;
      BegunExpected(before, request, Automatic, actor, candidates, directory, stamped);
      ending := ContinueAutomatic(directory, assembled, stamped);
      KeptJoins(before, started, state, request);
    }

    /** `run_automatic_backup` of the embedded engine. A daily call that is not due does
        nothing at all. The destination may be the fallback, and an existing folder is
        never taken up. After a success, old automatic folders may be deleted, wholly or
        in part, but not the new one. Otherwise as for a manual call. */
    method RunAutomaticBackup(reason: Reason, lastSuccess: Option<int>, now: int, request: RequestId, actor: int,
                              candidates: seq<Name>, usable: bool, assembled: Bundle, stamped: Bundle)
        returns (ending: Ending)
      requires Valid() && Quiet(state) && state.mode.Embedded? && |candidates| == IDENTIFIER_COLLISION_ATTEMPTS
      modifies this
      ensures Valid() && old(trace) <= trace && Quiet(state)
      ensures ending.Skipped? <==>
                reason.Daily? && lastSuccess.Some? && lastSuccess.value <= now < lastSuccess.value + 72000
      ensures ending.Skipped? ==> state == old(state)
      ensures var directory := if usable then old(state).destination else old(state).fallback;
        !ending.Skipped? ==>
          && OneAnswer(old(state), state, request, ending, faultless,
                       Expected(old(state), request, Automatic, actor, candidates, directory, stamped))
          && (ending.Told? && ending.result.Some?
              && !(request in old(state).rows && old(state).rows[request].status.Succeeded?) ==>
                IntactAt(state, Place(directory, ending.result.value.bundle)))
          && AutomaticFrame(old(state), state, request)
    {
      if !Due(reason, lastSuccess, now) {
        return Skipped;
      }
      var directory := if usable then state.destination else state.fallback;
      ending := AnswerAutomatic(request, actor, candidates, directory, assembled, stamped);
    }
  }

  // ---------------------------------------------------------------------------
  // What the methods' contracts are written with
  // ---------------------------------------------------------------------------

  /** The answer of a call that ends with its `begin`. */
  function Settled(s: State, request: RequestId, kind: Kind, actor: int): Option<Result>
  {
    if Belongs(s, request, kind, actor) && s.rows[request].status.Succeeded?
    then Some(s.rows[request].status.result) else None
  }

  /** The request's row is there and started, or a new one can be. */
  predicate CanBegin(s: State, request: RequestId, kind: Kind, actor: int, candidates: seq<Name>)
  {
    if request in s.rows then Belongs(s, request, kind, actor) && s.rows[request].status.Started?
    else FirstFree(s.rows, candidates).Some?
  }

  function BegunState(s: State, request: RequestId, kind: Kind, actor: int, candidates: seq<Name>): State
    requires CanBegin(s, request, kind, actor, candidates)
  {
    if request in s.rows then s.(call := Begun(request, true), target := s.schema)
    else Inserted(s, request, kind, actor, FirstFree(s.rows, candidates).value)
  }

  function BegunOutcome(s: State, directory: Directory, b: Bundle): Option<Result>
    requires s.call.Begun? && s.call.request in s.rows
  {
    Outcome(s, s.call.request, s.rows[s.call.request], s.call.resume, directory, b)
  }

  lemma OutcomeBundle(s: State, directory: Directory, b: Bundle)
    requires s.call.Begun? && s.call.request in s.rows
    ensures BegunOutcome(s, directory, b).Some? ==>
              BegunOutcome(s, directory, b).value.bundle == s.rows[s.call.request].bundle
  {
  }

  /** What building a bundle comes to, if nothing fails. */
  function CreateOutcome(s: State, b: Bundle): Option<Result>
    requires s.call.Placed? && s.call.request in s.rows
  {
    var row := s.rows[s.call.request];
    if HasRoom(s, row, s.call.directory) && s.validate(b) == Some(EngineVersion(s))
    then Some(Result(s.call.request, row.bundle, row.kind, b)) else None
  }

  lemma BegunExpected(s: State, request: RequestId, kind: Kind, actor: int, candidates: seq<Name>,
                      directory: Directory, b: Bundle)
    requires CanBegin(s, request, kind, actor, candidates)
    ensures Expected(s, request, kind, actor, candidates, directory, b)
         == BegunOutcome(BegunState(s, request, kind, actor, candidates), directory, b)
  {
  }

  lemma ConflictIsEnd(s: State, request: RequestId, kind: Kind, actor: int, candidate: Name)
    ensures Conflicts(s, request, kind, actor, candidate) ==> !CanBegin(s, request, kind, actor, [candidate])
  {
    assert [candidate][1..] == [];
    assert FirstFree(s.rows, []) == None;
  }

  lemma LostBegin(s: State, request: RequestId, kind: Kind, actor: int, candidate: Name)
    requires request !in s.rows && !NameTaken(s.rows, candidate)
    ensures EndsWithBegin(s, Answered(WithRow(s, request, kind, actor, candidate), request, None), request, kind, actor,
                          [candidate], Told(None), false)
  {
  }

  /** The call ended with its `begin`: answered from the row; or, after a fault, with an
      error, and possibly with a new row that nobody works on. */
  ghost predicate EndsWithBegin(s: State, t: State, request: RequestId, kind: Kind, actor: int, candidates: seq<Name>,
                                ending: Ending, faultless: bool)
  {
    && ending.Told? && MayAnswer(ending.result, Settled(s, request, kind, actor), faultless)
    && (|| t == Answered(s, request, ending.result)
        || (!faultless && ending.result.None? && request !in s.rows && FirstFree(s.rows, candidates).Some?
            && t == Answered(WithRow(s, request, kind, actor, FirstFree(s.rows, candidates).value), request, None)))
    && (faultless ==> !CanBegin(s, request, kind, actor, candidates))
  }

  lemma SettledExpected(s: State, t: State, request: RequestId, kind: Kind, actor: int, candidates: seq<Name>,
                        ending: Ending, faultless: bool, directory: Directory, b: Bundle)
    requires EndsWithBegin(s, t, request, kind, actor, candidates, ending, faultless)
    ensures OneAnswer(s, t, request, ending, faultless, Expected(s, request, kind, actor, candidates, directory, b))
    ensures OnlyRequest(s, t, request, directory) && t.published == s.published
  {
  }

  /** The call was broken off: the process stopped, or the call is about to fail. */
  predicate GivenUp(s: State, q: RequestId) { Quiet(s) || s.call == Finishing(q, None) }

  predicate Ended(s: State, q: RequestId) { Quiet(s) || (s.call.Finishing? && s.call.request == q) }

  /** The result of publishing what is in the call's staging directory. */
  function StagedResult(s: State): Result
    requires s.call.Staging? && s.call.stage in s.stages && s.call.request in s.rows
  {
    Result(s.call.request, s.rows[s.call.request].bundle, s.stages[s.call.stage].kind, s.stages[s.call.stage].content)
  }

  ghost predicate IntactAt(s: State, place: Place)
  {
    place in s.published && Accepts(s, s.published[place].content)
  }

  /** Exactly one more answer, and if it is a success, the row says so. */
  ghost predicate AnswerTo(s: State, t: State, request: RequestId, result: Option<Result>)
  {
    t.answers == s.answers + [Answer(request, result)]
    && (result.Some? ==> request in t.rows && t.rows[request].status == Succeeded(result.value))
  }

  /** The call ended with the process, or with one answer: the expected one, or after a
      fault a failure. */
  ghost predicate OneAnswer(s: State, t: State, request: RequestId, ending: Ending, faultless: bool,
                            expected: Option<Result>)
  {
    match ending
    case Told(result) => AnswerTo(s, t, request, result) && MayAnswer(result, expected, faultless)
    case Stopped => t.answers == s.answers && !faultless
    case Skipped => false
  }

  /** Only the row and a folder of the request changed, nothing if it was settled, and no
      folder if it has one in the directory. */
  ghost predicate OnlyRequest(s: State, t: State, request: RequestId, directory: Directory)
  {
    && RowsOnlyFor(s, t, request) && FoldersOnlyFor(s, t, request)
    && (request in s.rows && !s.rows[request].status.Started? ==> t.published == s.published && t.rows == s.rows)
    && (request in s.rows && Place(directory, s.rows[request].bundle) in s.published ==> t.published == s.published)
  }

  ghost predicate RowsOnlyFor(s: State, t: State, request: RequestId)
  {
    && (forall q :: q in s.rows ==> q in t.rows)
    && (forall q :: q in t.rows && q != request ==> q in s.rows && t.rows[q] == s.rows[q])
  }

  ghost predicate FoldersOnlyFor(s: State, t: State, request: RequestId)
  {
    && (forall place :: place in s.published ==> place in t.published && t.published[place] == s.published[place])
    && (forall place :: place in t.published && place !in s.published ==> t.published[place].request == request)
  }

  /** No row, no published folder and no answer has changed. */
  ghost predicate SameTable(s: State, t: State)
  {
    t.rows == s.rows && t.published == s.published && t.answers == s.answers && t.validate == s.validate
  }

  /** From s to t, folders changed for one request only, none was removed or replaced,
      and no row or answer changed. */
  ghost predicate OnlyFor(s: State, t: State, request: RequestId)
  {
    FoldersOnlyFor(s, t, request) && t.rows == s.rows && t.answers == s.answers && t.validate == s.validate
  }

  lemma OnlyForJoins(s: State, t: State, u: State, request: RequestId)
    requires RowsOnlyFor(s, t, request) && RowsOnlyFor(t, u, request)
    requires t.published == s.published && FoldersOnlyFor(t, u, request)
    ensures RowsOnlyFor(s, u, request) && FoldersOnlyFor(s, u, request)
  {
  }

  ghost predicate SameAnswers(s: State, t: State)
  {
    t.rows == s.rows && t.answers == s.answers && t.validate == s.validate
  }

  /** The folder at the place is gone, or some of it is. */
  ghost predicate OnlyRemoves(s: State, t: State, place: Place)
  {
    && SameAnswers(s, t)
    && (forall p :: p in s.published && p != place ==> p in t.published && t.published[p] == s.published[p])
    && (forall p :: p in t.published ==> p in s.published && SameFolder(s.published[p], t.published[p]))
  }

  function Paths(b: Bundle): set<string> { b.files.Keys + b.directories }

  lemma SomethingToLose(b: Bundle)
    requires b != NOTHING
    ensures exists path :: path in Paths(b) && CanLose(b, path)
  {
    if b.files == map[] {
      var path :| path in b.directories;
      assert path in Paths(b) && CanLose(b, path);
    } else {
      assert b.files.Keys != {};
      var path :| path in b.files.Keys;
      assert path in Paths(b) && CanLose(b, path);
    }
  }

  lemma LoseRemoves(s: State, t: State, place: Place, path: string)
    requires s.removing == Some(place) && place in s.published && s.published[place].kind.Automatic?
    requires SameAnswers(s, t) && t.published == AfterLose(s, path).published
    ensures OnlyRemoves(s, t, place) && place in t.published
    ensures path in Paths(s.published[place].content) ==>
              Paths(t.published[place].content) < Paths(s.published[place].content)
  {
    assert Paths(t.published[place].content) == Paths(s.published[place].content) - {path};
  }

  lemma RemovesJoins(s: State, t: State, u: State, place: Place)
    requires OnlyRemoves(s, t, place) && OnlyRemoves(t, u, place)
    ensures OnlyRemoves(s, u, place)
  {
  }

  /** Only the request's row changed, manual folders stayed, and nothing changed if the
      request was settled. */
  ghost predicate AutomaticFrame(s: State, t: State, request: RequestId)
  {
    && RowsOnlyFor(s, t, request) && ManualKept(s, t)
    && (request in s.rows && !s.rows[request].status.Started? ==> t.published == s.published && t.rows == s.rows)
  }

  lemma KeptJoins(s: State, t: State, u: State, request: RequestId)
    requires RowsOnlyFor(s, t, request) && RowsOnlyFor(t, u, request) && t.published == s.published && ManualKept(t, u)
    ensures RowsOnlyFor(s, u, request) && ManualKept(s, u)
  {
  }

  /** Only automatic folders were deleted, wholly or in part, and not the new one. */
  ghost predicate OnlyReduces(s: State, t: State, made: Place)
  {
    && SameAnswers(s, t)
    && (forall p :: p in s.published && (s.published[p].kind.Manual? || p == made) ==>
          p in t.published && t.published[p] == s.published[p])
    && (forall p :: p in t.published ==> p in s.published && SameFolder(s.published[p], t.published[p]))
  }

  lemma ReducesJoins(s: State, t: State, u: State, made: Place, place: Place)
    requires OnlyReduces(s, t, made) && OnlyRemoves(t, u, place) && place != made
    requires place in t.published && t.published[place].kind.Automatic?
    ensures OnlyReduces(s, u, made)
  {
  }

  // ---------------------------------------------------------------------------
  // When a call succeeds
  // ---------------------------------------------------------------------------

  /** A new request, one of whose names is free, on an installation without restores. */
  ghost predicate NewAndUndisturbed(s: State, request: RequestId, candidates: seq<Name>)
  {
    && request !in s.rows && Undisturbed(s)
    && exists i :: 0 <= i < |candidates| && forall q :: q in s.rows ==> s.rows[q].bundle != candidates[i]
  }

  /** The request's row is started, and its name is free in the directory. */
  predicate CanRetry(s: State, request: RequestId, kind: Kind, actor: int, directory: Directory)
  {
    Belongs(s, request, kind, actor) && s.rows[request].status.Started?
    && Place(directory, s.rows[request].bundle) !in s.published
  }

  /** The request's row is started, and a valid folder of its name is in the directory. */
  predicate CanResume(s: State, request: RequestId, actor: int, directory: Directory)
  {
    Belongs(s, request, Manual, actor) && s.rows[request].status.Started?
    && Place(directory, s.rows[request].bundle) in s.published
    && Accepts(s, s.published[Place(directory, s.rows[request].bundle)].content)
  }

  /** The folder has the schema version that the database has now. */
  predicate IsCurrent(s: State, request: RequestId, directory: Directory)
    requires request in s.rows && Place(directory, s.rows[request].bundle) in s.published
  {
    s.validate(s.published[Place(directory, s.rows[request].bundle)].content) == Some(s.schema)
  }

  /** The names that are tried: the external engine tries one. */
  function Tried(s: State, candidates: seq<Name>): seq<Name>
    requires |candidates| > 0
  {
    if s.mode.External? then [candidates[0]] else candidates
  }

  /** A new request with a free name succeeds exactly where there is room for its bundle,
      and there is always room unless a live restore has been there. */
  lemma {:induction false} NewRequestSucceeds(s: State, request: RequestId, kind: Kind, actor: int, candidates: seq<Name>,
                           directory: Directory, b: Bundle)
    requires Safe(s) && request !in s.rows && FirstFree(s.rows, candidates).Some?
    requires s.validate(b) == Some(s.schema)
    ensures var row := Row(actor, kind, FirstFree(s.rows, candidates).value, s.attempts, Started);
      && (Expected(s, request, kind, actor, candidates, directory, b).Some? <==> HasRoom(s, row, directory))
      && (Undisturbed(s) ==> HasRoom(s, row, directory))
  {
    var name := FirstFree(s.rows, candidates).value;
    FirstFreeIsFree(s.rows, candidates);
    if Place(directory, name) in s.published { assert GoodFolder(s, Place(directory, name)); }
  }

  /** A name is found exactly if some candidate is no row's name. */
  lemma {:induction false} FirstFreeFound(rows: Table, candidates: seq<Name>)
    ensures FirstFree(rows, candidates).Some? <==>
            exists i :: 0 <= i < |candidates| && forall q :: q in rows ==> rows[q].bundle != candidates[i]
  {
    if |candidates| > 0 {
      FirstFreeFound(rows, candidates[1..]);
      assert forall i :: 0 < i < |candidates| ==> candidates[i] == candidates[1..][i - 1];
    }
  }

  lemma {:induction false} FirstFreeIsFree(rows: Table, candidates: seq<Name>)
    requires FirstFree(rows, candidates).Some?
    ensures !NameTaken(rows, FirstFree(rows, candidates).value)
  {
    if NameTaken(rows, candidates[0]) {
      FirstFreeIsFree(rows, candidates[1..]);
    }
  }

  /** A request whose row is started and whose name is free in the directory, as after a
      stop while staging, succeeds on retry exactly if the engine is the external one or
      the embedded one left no staging directory of it there. */
  lemma RetrySucceeds(s: State, request: RequestId, kind: Kind, actor: int, candidates: seq<Name>,
                      directory: Directory, b: Bundle)
    requires CanRetry(s, request, kind, actor, directory) && s.validate(b) == Some(s.schema)
    ensures Expected(s, request, kind, actor, candidates, directory, b).Some?
        <==> s.mode.External? || EmbeddedStage(s, request, directory) !in s.stages
  {
  }

  /** A request whose row is started and whose folder is there, as after a stop before the
      completion, succeeds on retry exactly if the engine is the embedded one or the
      folder has the current schema version. */
  lemma ResumeSucceeds(s: State, request: RequestId, actor: int, candidates: seq<Name>, directory: Directory, b: Bundle)
    requires CanResume(s, request, actor, directory)
    ensures Expected(s, request, Manual, actor, candidates, directory, b).Some?
        <==> s.mode.Embedded? || IsCurrent(s, request, directory)
  {
  }
}
