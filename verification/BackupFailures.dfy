/** What a backup that did not come to its end leaves behind: which failed rows have a
    folder, which staging directories are in the way of a retry, and what a deletion that
    stopped half-way leaves. */
module BackupFailures {
  import opened Text
  import opened BackupProtocol
  import opened BackupSafety
  import opened BackupRuns
  import BundleFiles

  // ---------------------------------------------------------------------------
  // Failed rows with a folder
  // ---------------------------------------------------------------------------

  /** In some directory there is a folder of the row's name. */
  ghost predicate HasFolder(s: State, q: RequestId)
    requires q in s.rows
  {
    exists d :: Place(d, s.rows[q].bundle) in s.published
  }

  /** No folder from before the table, and no safety copy, has the row's name. */
  ghost predicate NameIsOwn(s: State, q: RequestId)
    requires q in s.rows
  {
    forall place :: place in s.foreign ==> place.name != s.rows[q].bundle
  }

  lemma OwnFolder(s: State, q: RequestId, d: Directory)
    requires Safe(s) && q in s.rows && NameIsOwn(s, q) && Place(d, s.rows[q].bundle) in s.published
    ensures Own(s, Place(d, s.rows[q].bundle), q)
  {
  }

  /** A call that fails leaves a failed row with a folder exactly when the folder had been
      renamed into place, by this call or, for a replayed one that did not come to
      building, by an earlier one. */
  lemma FailedRowFolder(s: State, cleaned: bool, told: bool)
    requires Safe(s) && Enabled(s, Fail(cleaned)) && Unpublished(s) && NameIsOwn(s, s.call.request)
    ensures Enabled(WithResult(s, None, cleaned), Complete(true, told))
    ensures var t := AfterComplete(WithResult(s, None, cleaned), true, told);
      var q := s.call.request;
      && t.rows[q].status.Failed?
      && (HasFolder(t, q) <==> s.call.Published? || ((s.call.Begun? || s.call.Placed?) && s.call.resume && HasFolder(s, q)))
  {
    var t := AfterComplete(WithResult(s, None, cleaned), true, told);
    var q := s.call.request;
    assert HasFolder(t, q) <==> HasFolder(s, q);
    if s.call.Published? {
      assert Place(s.call.directory, s.rows[q].bundle) in s.published;
    } else if HasFolder(s, q) {
      var d :| Place(d, s.rows[q].bundle) in s.published;
      OwnFolder(s, q, d);
    }
  }

  /** The steps take the call to its completion, without a crash. */
  ghost predicate ToCompletion(s: State, steps: seq<Step>)
    decreases |steps|
  {
    if |steps| == 0 then s.call.Answering?
    else
      && !s.call.Idle? && !s.call.Answering?
      && Enabled(s, steps[0]) && ToCompletion(Apply(s, steps[0]), steps[1..])
  }

  lemma {:induction false} CompletionIsRun(s: State, steps: seq<Step>)
    requires ToCompletion(s, steps)
    ensures IsRun(s, steps)
    decreases |steps|
  {
    if |steps| > 0 {
      CompletionIsRun(Apply(s, steps[0]), steps[1..]);
    }
  }

  lemma CallStepFolder(s: State, step: Step)
    requires Safe(s) && !s.call.Idle? && !s.call.Answering? && Enabled(s, step) && !step.Crash?
    ensures var t := Apply(s, step);
      && !t.call.Idle? && t.call.request == s.call.request && t.call.request in t.rows
      && (HasFolder(t, t.call.request) <==> HasFolder(s, s.call.request) || step == Publish)
  {
  }

  /** Whatever happens to a call on its way to completion, its row has a folder afterwards
      exactly when it had one before or the call renamed one into place. */
  lemma {:induction false} CallFolder(s: State, steps: seq<Step>)
    requires Safe(s) && ToCompletion(s, steps) && s.call.request in s.rows
    ensures IsRun(s, steps)
    ensures var t := Run(s, steps);
      && t.call.Answering? && t.call.request == s.call.request && t.call.request in t.rows
      && (HasFolder(t, s.call.request) <==> HasFolder(s, s.call.request) || Publish in steps)
    decreases |steps|
  {
    CompletionIsRun(s, steps);
    if |steps| > 0 {
      assert !steps[0].Crash? by { if |steps| > 1 { assert steps[1..][0] == steps[1]; } }
      CallStepFolder(s, steps[0]);
      StepSafe(s, steps[0]);
      CallFolder(Apply(s, steps[0]), steps[1..]);
    }
  }

  /** So the row of a new request that fails has a folder exactly when the call failed
      after the rename, and that of a retried one also when it had one already. */
  lemma FailedCallFolder(s: State, q: RequestId, kind: Kind, actor: int, candidate: Name, steps: seq<Step>)
    requires Safe(s) && Enabled(s, Begin(q, kind, actor, candidate))
    requires var begun := Apply(s, Begin(q, kind, actor, candidate));
      ToCompletion(begun, steps) && (q !in s.rows ==> NameIsOwn(begun, q))
    ensures var begun := Apply(s, Begin(q, kind, actor, candidate));
      && IsRun(begun, steps) && q in Run(begun, steps).rows
      && (HasFolder(Run(begun, steps), q) <==> (q in s.rows && HasFolder(s, q)) || Publish in steps)
  {
    var begun := Apply(s, Begin(q, kind, actor, candidate));
    StepSafe(s, Begin(q, kind, actor, candidate));
    CallFolder(begun, steps);
    if q !in s.rows && HasFolder(begun, q) {
      var d :| Place(d, begun.rows[q].bundle) in begun.published;
      OwnFolder(begun, q, d);
    }
  }

  // ---------------------------------------------------------------------------
  // Retries that cannot succeed
  // ---------------------------------------------------------------------------

  /** At the place there is a folder that the external engine does not take up, since its
      schema version is not the one the call was told. */
  predicate Outdated(s: State, place: Place)
  {
    s.mode.External? && place in s.published && s.validate(s.published[place].content) != Some(s.target)
  }

  /** The call is pointed at a directory where its name is taken, and may not take up what
      is there (an automatic retry, or a new request), or takes up what it will refuse. */
  ghost predicate Blocked(s: State)
  {
    || (s.call.Placed? && s.call.request in s.rows && FinalPlace(s, s.call.directory) in s.published
        && (!MayResume(s) || Outdated(s, FinalPlace(s, s.call.directory))))
    || (s.call.Published? && s.call.request in s.rows && s.call.own.None? && Outdated(s, FinalPlace(s, s.call.directory)))
    || (s.call.Finishing? && s.call.result.None?)
    || (s.call.Answering? && s.call.result.None?)
  }

  lemma BlockedStep(s: State, step: Step)
    requires Safe(s) && Blocked(s) && !s.call.Answering? && Enabled(s, step) && !step.Crash?
    ensures Blocked(Apply(s, step))
  {
  }

  lemma {:induction false} BlockedFails(s: State, steps: seq<Step>)
    requires Safe(s) && ToCompletion(s, steps) && Blocked(s)
    ensures IsRun(s, steps) && Run(s, steps).call.Answering? && Run(s, steps).call.result.None?
    decreases |steps|
  {
    CompletionIsRun(s, steps);
    if |steps| > 0 {
      assert !steps[0].Crash? by { if |steps| > 1 { assert steps[1..][0] == steps[1]; } }
      BlockedStep(s, steps[0]);
      StepSafe(s, steps[0]);
      BlockedFails(Apply(s, steps[0]), steps[1..]);
    }
  }

  /** An automatic backup that was published but not completed cannot be finished by
      calling again: in the directory of its folder, the retry can only fail. */
  lemma AutomaticRetryFails(s: State, steps: seq<Step>)
    requires Safe(s) && ToCompletion(s, steps) && s.call.Placed?
    requires s.rows[s.call.request].kind.Automatic? && FinalPlace(s, s.call.directory) in s.published
    ensures IsRun(s, steps) && Run(s, steps).call.Answering? && Run(s, steps).call.result.None?
  {
    BlockedFails(s, steps);
  }

  /** A manual backup of the external engine that was published but not completed cannot
      be finished by calling again once the database has another schema version. */
  lemma OutdatedRetryFails(s: State, steps: seq<Step>)
    requires Safe(s) && ToCompletion(s, steps) && s.call.Placed? && Outdated(s, FinalPlace(s, s.call.directory))
    ensures IsRun(s, steps) && Run(s, steps).call.Answering? && Run(s, steps).call.result.None?
  {
    BlockedFails(s, steps);
  }

  // ---------------------------------------------------------------------------
  // Runs that end with a failed row and its folder
  // ---------------------------------------------------------------------------

  /** The row failed, and the folder it names is there. */
  ghost predicate FailedWithFolder(s: State, q: RequestId, d: Directory, name: Name)
  {
    q in s.rows && s.rows[q].status.Failed? && s.rows[q].bundle == name && Place(d, name) in s.published
    && s.published[Place(d, name)].request == q
  }

  function FailSteps(): seq<Step> { [Fail(true)] + [Complete(true, true)] }

  lemma FailAtOnce(s: State)
    requires Enabled(s, Fail(true))
    ensures IsRun(s, FailSteps()) && Run(s, FailSteps()) == AfterComplete(WithResult(s, None, true), true, true)
  {
  }

  /** The validation after the rename fails. */
  lemma FailsAfterRename(origin: State, kind: Kind, q: RequestId, name: Name, b: Bundle) returns (steps: seq<Step>)
    requires IsFresh(origin) && origin.validate(b) == Some(origin.schema)
    ensures IsRun(origin, steps) && FailedWithFolder(Run(origin, steps), q, origin.destination, name)
  {
    var first := FirstCall(origin, kind, q, name, b);
    FailAtOnce(JustPublished(origin, kind, q, name, b));
    RunConcat(origin, first, FailSteps());
    steps := first + FailSteps();
  }

  function RetrySteps(q: RequestId, kind: Kind, name: Name, schema: Version): seq<Step>
  {
    [Crash] + ([Migrate(schema)] + [Begin(q, kind, 0, name)])
  }

  lemma Retried(origin: State, kind: Kind, q: RequestId, name: Name, b: Bundle, schema: Version)
    requires IsFresh(origin)
    ensures var s := JustPublished(origin, kind, q, name, b);
      && IsRun(s, RetrySteps(q, kind, name, schema))
      && Run(s, RetrySteps(q, kind, name, schema)) == s.(call := Begun(q, true), schema := schema, target := schema)
  {
    var s := JustPublished(origin, kind, q, name, b);
    var begin := Begin(q, kind, 0, name);
    RunLast(Apply(Apply(s, Crash), Migrate(schema)), begin);
    RunCons(Apply(s, Crash), Migrate(schema), [begin]);
    RunCons(s, Crash, [Migrate(schema)] + [begin]);
  }

  /** The process stops after the rename, and the retry fails before it takes the folder
      up, for instance because the destination cannot be read. */
  lemma FailsOnRetry(origin: State, kind: Kind, q: RequestId, name: Name, b: Bundle) returns (steps: seq<Step>)
    requires IsFresh(origin) && origin.validate(b) == Some(origin.schema)
    ensures IsRun(origin, steps) && FailedWithFolder(Run(origin, steps), q, origin.destination, name)
  {
    var first := FirstCall(origin, kind, q, name, b);
    var retry := RetrySteps(q, kind, name, origin.schema);
    Retried(origin, kind, q, name, b, origin.schema);
    RunConcat(origin, first, retry);
    FailAtOnce(Run(origin, first + retry));
    RunConcat(origin, first + retry, FailSteps());
    steps := first + retry + FailSteps();
  }

  /** The process stops after the rename, and before the retry the database is migrated:
      the external engine's retry finds the folder, and nothing is left to it but to fail
      and leave the folder. */
  lemma FailsAfterMigration(origin: State, q: RequestId, name: Name, b: Bundle, schema: Version) returns (steps: seq<Step>)
    requires IsFresh(origin) && origin.mode.External? && origin.validate(b) == Some(origin.schema) && schema != origin.schema
    ensures IsRun(origin, steps) && Blocked(Run(origin, steps))
    ensures IsRun(origin, steps + FailSteps())
    ensures FailedWithFolder(Run(origin, steps + FailSteps()), q, origin.destination, name)
  {
    var first := FirstCall(origin, Manual, q, name, b);
    var retry := RetrySteps(q, Manual, name, schema);
    Retried(origin, Manual, q, name, b, schema);
    RunConcat(origin, first, retry);
    var begun := Run(origin, first + retry);
    var placed := Apply(begun, Locate(origin.destination));
    RunLast(placed, Resume);
    RunCons(begun, Locate(origin.destination), [Resume]);
    RunConcat(origin, first + retry, [Locate(origin.destination)] + [Resume]);
    steps := first + retry + ([Locate(origin.destination)] + [Resume]);
    FailAtOnce(Run(origin, steps));
    RunConcat(origin, steps, FailSteps());
  }

  // ---------------------------------------------------------------------------
  // A staging directory left behind
  // ---------------------------------------------------------------------------

  /** The embedded engine was stopped while staging: its directory is still there, named
      after bundle and attempt, and the call that owned it is gone. */
  ghost predicate LeftBehind(s: State, q: RequestId, d: Directory)
  {
    s.mode.Embedded? && q in s.rows && EmbeddedStage(s, q, d) in s.stages && Place(d, s.rows[q].bundle) !in s.published
    && s.call != Staging(q, EmbeddedStage(s, q, d))
  }

  lemma LeftBehindStep(s: State, step: Step, q: RequestId, d: Directory)
    requires Safe(s) && Enabled(s, step) && !Restores(step) && LeftBehind(s, q, d)
    ensures LeftBehind(Apply(s, step), q, d)
  {
    StepSafe(s, step);
  }

  /** Nothing removes that directory, and while it is there no call publishes the request
      in that destination: trying again under the same request id cannot succeed there,
      unless a live restore brings another table or a safety copy of that name. */
  lemma {:induction false} LeftBehindBlocks(s: State, steps: seq<Step>, q: RequestId, d: Directory)
    requires Safe(s) && IsRun(s, steps) && NoRestore(steps) && LeftBehind(s, q, d)
    ensures LeftBehind(Run(s, steps), q, d)
    decreases |steps|
  {
    if |steps| > 0 {
      assert !Restores(steps[0]);
      LeftBehindStep(s, steps[0], q, d);
      StepSafe(s, steps[0]);
      LeftBehindBlocks(Apply(s, steps[0]), steps[1..], q, d);
    }
  }

  /** Such a run exists: the first call of a fresh installation, stopped as soon as its
      staging directory was made. */
  lemma StageLeftBehind(origin: State, kind: Kind, q: RequestId, name: Name) returns (steps: seq<Step>)
    requires IsFresh(origin) && origin.mode.Embedded?
    ensures IsRun(origin, steps)
    ensures var t := Run(origin, steps);
      Quiet(t) && LeftBehind(t, q, origin.destination) && t.rows[q].status.Started? && t.destination == origin.destination
  {
    FirstStage(origin, kind, q, name);
    RunAppend(origin, FirstSteps(origin, kind, q, name), Crash);
    steps := FirstSteps(origin, kind, q, name) + [Crash];
  }

  // ---------------------------------------------------------------------------
  // A deletion that stopped half-way
  // ---------------------------------------------------------------------------

  /** What is left of a folder whose manifest is gone. */
  ghost predicate Residue(s: State, place: Place)
  {
    place in s.published && BundleFiles.MANIFEST_FILENAME !in s.published[place].content.files
    && s.removing != Some(place)
  }

  lemma ResidueStep(s: State, step: Step, place: Place)
    requires Safe(s) && Enabled(s, step) && Residue(s, place)
    ensures Residue(Apply(s, step), place) && Apply(s, step).published[place] == s.published[place]
  {
    if !Removes(step) { assert step.Crash? || Apply(s, step).removing == s.removing; }
  }

  /** Retention never selects it again, so it stays as it is, and keeps its name taken
      there. */
  lemma {:induction false} ResidueStays(s: State, steps: seq<Step>, place: Place)
    requires Safe(s) && IsRun(s, steps) && Residue(s, place)
    ensures Residue(Run(s, steps), place) && Run(s, steps).published[place] == s.published[place]
    decreases |steps|
  {
    if |steps| > 0 {
      ResidueStep(s, steps[0], place);
      StepSafe(s, steps[0]);
      ResidueStays(Apply(s, steps[0]), steps[1..], place);
    }
  }

  function HalfRemoval(place: Place): seq<Step>
  {
    [StartRemoval(place)] + ([Lose(BundleFiles.MANIFEST_FILENAME)] + [AbandonRemoval])
  }

  /** Any automatic folder that retention may select can end like that. */
  lemma HalfRemoved(s: State, place: Place)
    requires Safe(s) && Known(s) && (s.call.Idle? || (s.call.Answering? && s.call.result.Some?)) && s.removing.None?
    requires place in s.published && s.published[place].kind.Automatic? && "manifest.json" in s.published[place].content.files
    ensures IsRun(s, HalfRemoval(place)) && Residue(Run(s, HalfRemoval(place)), place)
  {
    var s1 := Apply(s, StartRemoval(place));
    var s2 := Apply(s1, Lose(BundleFiles.MANIFEST_FILENAME));
    RunLast(s2, AbandonRemoval);
    RunCons(s1, Lose(BundleFiles.MANIFEST_FILENAME), [AbandonRemoval]);
    RunCons(s, StartRemoval(place), [Lose(BundleFiles.MANIFEST_FILENAME)] + [AbandonRemoval]);
  }

  /** A deletion takes a directory only after all that is in it. */
  lemma DirectoriesLast(s: State, path: string, directory: string, file: string)
    requires Enabled(s, Lose(path))
    ensures var before, after := s.published[s.removing.value].content, Apply(s, Lose(path)).published[s.removing.value].content;
      directory in before.directories && directory !in before.files && file in after.files && directory + "/" <= file ==>
        directory in after.directories
  {
    var before := s.published[s.removing.value].content;
    if file in before.files && directory + "/" <= file { assert StartsWith(file, directory + "/"); }
  }

  /** A call that ends its work and can clean up leaves no staging directory of its own, and
      touches no other. */
  lemma CleanEnd(s: State, step: Step, stage: Stage)
    requires (step == Fail(true) || step == Inspect(true)) && Enabled(s, step)
    ensures stage in Apply(s, step).stages <==>
            && stage in s.stages
            && !(s.call.Staging? && stage == s.call.stage) && !(s.call.Published? && s.call.own == Some(stage))
    ensures stage in Apply(s, step).stages ==> Apply(s, step).stages[stage] == s.stages[stage]
  {
  }
}
