/** The guarantees of backup creation over whole runs, crashes, deletions, migrations and
    live restores included. */
module BackupRuns {
  import opened Text
  import opened BackupProtocol
  import opened BackupSafety
  import BundleFiles

  /** A fresh installation. */
  ghost predicate IsFresh(s: State)
  {
    s == Start(s.mode, s.validate, s.schema, s.destination, s.fallback)
  }

  /** The state after some run of a fresh installation. */
  ghost predicate Reached(s: State, origin: State, steps: seq<Step>)
  {
    IsFresh(origin) && IsRun(origin, steps) && s == Run(origin, steps)
  }

  lemma ReachedSafe(s: State, origin: State, steps: seq<Step>)
    requires Reached(s, origin, steps)
    ensures Safe(s) && s.mode == origin.mode && s.validate == origin.validate
  {
    RunSafe(origin, steps);
  }

  // ---------------------------------------------------------------------------
  // Installations that were never restored
  // ---------------------------------------------------------------------------

  ghost predicate NoRestore(steps: seq<Step>)
  {
    forall i :: 0 <= i < |steps| ==> !Restores(steps[i])
  }

  /** The table knows all folders, and all staging directories are of earlier attempts. */
  ghost predicate Undisturbed(s: State)
  {
    s.foreign == {} && s.inherited == {} && forall stage :: stage in s.stages ==> stage.attempt < s.attempts
  }

  /** The steps that change what is published, or what the table knows of it. */
  predicate Moves(step: Step)
  {
    step.Publish? || step.Lose? || step.FinishRemoval? || step.SafetyCopy? || step.ReplaceTable?
  }

  lemma FoldersUnmoved(s: State, step: Step)
    requires Enabled(s, step) && !Moves(step)
    ensures Apply(s, step).published == s.published && Apply(s, step).foreign == s.foreign
  {
  }

  /** Only `OpenStage` makes a staging directory, and attempt numbers only grow. */
  lemma NoNewStage(s: State, step: Step)
    requires Enabled(s, step) && !step.OpenStage? && !step.ReplaceTable?
    ensures Apply(s, step).stages.Keys <= s.stages.Keys && s.attempts <= Apply(s, step).attempts
    ensures Apply(s, step).inherited <= s.inherited
  {
  }

  lemma UndisturbedStep(s: State, step: Step)
    requires Safe(s) && Undisturbed(s) && Enabled(s, step) && !Restores(step)
    ensures Undisturbed(Apply(s, step))
  {
    if step.OpenStage? {
      assert GoodRow(s.rows, s.attempts, s.call.request);
    } else {
      NoNewStage(s, step);
      if !Moves(step) { FoldersUnmoved(s, step); }
    }
  }

  lemma {:induction false} UndisturbedRun(s: State, steps: seq<Step>)
    requires Safe(s) && Undisturbed(s) && IsRun(s, steps) && NoRestore(steps)
    ensures Undisturbed(Run(s, steps))
    decreases |steps|
  {
    if |steps| > 0 {
      assert !Restores(steps[0]);
      UndisturbedStep(s, steps[0]);
      StepSafe(s, steps[0]);
      UndisturbedRun(Apply(s, steps[0]), steps[1..]);
    }
  }

  // ---------------------------------------------------------------------------
  // What is at a final path
  // ---------------------------------------------------------------------------

  /** What was in the folder that is at the place now when it was put there. */
  ghost function AsPublished(s: State, steps: seq<Step>, place: Place, before: Bundle): Bundle
    requires IsRun(s, steps)
    decreases |steps|
  {
    if |steps| == 0 then before
    else
      var t := Apply(s, steps[0]);
      AsPublished(t, steps[1..], place,
                  if place !in s.published && place in t.published then t.published[place].content else before)
  }

  /** The files and directories that deletions took from that folder since. */
  ghost function Taken(s: State, steps: seq<Step>, place: Place, before: set<string>): set<string>
    requires IsRun(s, steps)
    decreases |steps|
  {
    if |steps| == 0 then before else Taken(Apply(s, steps[0]), steps[1..], place, TakenNext(s, steps[0], place, before))
  }

  ghost function TakenNext(s: State, step: Step, place: Place, before: set<string>): set<string>
    requires Enabled(s, step)
  {
    if place !in Apply(s, step).published then {}
    else if step.Lose? && s.removing == Some(place) then before + {step.path}
    else before
  }

  /** The folder at the place is a valid bundle without what was taken; from a manual one
      nothing was. */
  ghost predicate LeftOf(s: State, place: Place, b: Bundle, taken: set<string>)
  {
    if place in s.published then
      Accepts(s, b) && s.published[place].content == BundleFiles.Without(b, taken)
      && (s.published[place].kind.Manual? ==> taken == {})
    else taken == {}
  }

  lemma LeftOfStep(s: State, step: Step, place: Place, b: Bundle, taken: set<string>)
    requires Safe(s) && Enabled(s, step) && LeftOf(s, place, b, taken)
    ensures var t := Apply(s, step);
      var next := if place !in s.published && place in t.published then t.published[place].content else b;
      LeftOf(t, place, next, TakenNext(s, step, place, taken))
  {
    var t := Apply(s, step);
    if !Moves(step) {
      FoldersUnmoved(s, step);
    } else if step.Lose? {
      WithoutBoth(b, taken, step.path);
    } else if place in t.published {
      if step.Publish? { assert GoodStage(s, s.call.stage); }
      WithoutNothing(t.published[place].content);
    }
  }

  lemma WithoutBoth(b: Bundle, taken: set<string>, path: string)
    ensures BundleFiles.Without(BundleFiles.Without(b, taken), {path}) == BundleFiles.Without(b, taken + {path})
  {
    assert (b.files - taken) - {path} == b.files - (taken + {path});
  }

  lemma WithoutNothing(b: Bundle)
    ensures BundleFiles.Without(b, {}) == b
  {
    assert b.files - {} == b.files;
  }

  lemma {:induction false} LeftOfRun(s: State, steps: seq<Step>, place: Place, b: Bundle, taken: set<string>)
    requires Safe(s) && IsRun(s, steps) && LeftOf(s, place, b, taken)
    ensures LeftOf(Run(s, steps), place, AsPublished(s, steps, place, b), Taken(s, steps, place, taken))
    decreases |steps|
  {
    if |steps| > 0 {
      var t := Apply(s, steps[0]);
      var next := if place !in s.published && place in t.published then t.published[place].content else b;
      LeftOfStep(s, steps[0], place, b, taken);
      StepSafe(s, steps[0]);
      LeftOfRun(t, steps[1..], place, next, TakenNext(s, steps[0], place, taken));
    }
  }

  /** A folder at a final path holds what was published there, a valid bundle, without
      what deletions have taken since; and from a manual one they have taken nothing.
      Unless it came before the table, or is the safety copy of a restore, it is of the
      one request that owns the name. */
  lemma PublishedIsComplete(s: State, origin: State, steps: seq<Step>, place: Place, q: RequestId)
    requires Reached(s, origin, steps) && place in s.published
    ensures var b, taken := AsPublished(origin, steps, place, NOTHING), Taken(origin, steps, place, {});
      && Accepts(s, b) && s.published[place].content == BundleFiles.Without(b, taken)
      && (s.published[place].kind.Manual? ==> taken == {})
    ensures place !in s.foreign ==> Owned(s, s.published[place], place.name)
    ensures place !in s.foreign && q in s.rows && s.rows[q].bundle == place.name ==> q == s.published[place].request
    ensures NoRestore(steps) ==> place !in s.foreign
  {
    ReachedSafe(s, origin, steps);
    assert GoodFolder(s, place);
    LeftOfRun(origin, steps, place, NOTHING, {});
    if NoRestore(steps) { UndisturbedRun(origin, steps); }
  }

  // ---------------------------------------------------------------------------
  // A successful answer is final while the table is in place
  // ---------------------------------------------------------------------------

  /** All successful answers for a request id that one table gave are the same. */
  lemma SuccessAgrees(s: State, origin: State, steps: seq<Step>, i: nat, k: nat)
    requires Reached(s, origin, steps) && i < |s.answers| && k < |s.answers|
    requires s.answers[i].request == s.answers[k].request
    requires s.answers[i].result.Some? && s.answers[k].result.Some?
    ensures s.answers[i].result == s.answers[k].result
  {
    ReachedSafe(s, origin, steps);
    assert GoodAnswer(s, s.answers[i]) && GoodAnswer(s, s.answers[k]);
  }

  /** A request id that was answered stays answered, until the table is replaced: a later
      call is answered at once with the same result, and leaves table and folders as they
      are; and what was reported of a manual folder that was made or taken up under this
      table is still true of a folder. */
  lemma SuccessReplays(s: State, origin: State, steps: seq<Step>, more: seq<Step>, i: nat, kind: Kind, actor: int,
                       candidate: Name)
    requires Reached(s, origin, steps) && i < |s.answers| && s.answers[i].result.Some?
    requires IsRun(s, more) && TableStays(more)
    requires Enabled(Run(s, more), Begin(s.answers[i].request, kind, actor, candidate))
    ensures var t := Run(s, more);
      && i < |t.answers| && t.answers[i] == s.answers[i]
      && Apply(t, Begin(s.answers[i].request, kind, actor, candidate))
         == Answered(t, s.answers[i].request, s.answers[i].result)
      && (s.answers[i].request !in t.inherited ==> Backed(t, s.answers[i].result.value))
  {
    ReachedSafe(s, origin, steps);
    RunSafe(s, more);
    var t := Run(s, more);
    assert t.answers[i] == s.answers[i];
    assert GoodAnswer(t, t.answers[i]);
    assert GoodRow(t.rows, t.attempts, t.answers[i].request);
    assert BackedRow(t, t.answers[i].request);
  }

  /** A live restore brings another table. What was answered before is answered again
      exactly if that table has the same success for the request id. */
  lemma AnswerSurvivesRestore(s: State, i: nat, rows: Table, attempts: nat, schema: Version, kind: Kind, actor: int,
                              candidate: Name)
    requires Safe(s) && i < |s.answers| && s.answers[i].result.Some? && Enabled(s, ReplaceTable(rows, attempts, schema))
    requires Enabled(Apply(s, ReplaceTable(rows, attempts, schema)), Begin(s.answers[i].request, kind, actor, candidate))
    ensures var t := Apply(s, ReplaceTable(rows, attempts, schema));
      var q, result := s.answers[i].request, s.answers[i].result;
      Apply(t, Begin(q, kind, actor, candidate)) == Answered(t, q, result)
      <==> q in rows && rows[q].status == Succeeded(result.value)
  {
    var q := s.answers[i].request;
    var t := Apply(s, ReplaceTable(rows, attempts, schema));
    if q in rows {
      assert GoodRow(rows, attempts, q);
      assert Answered(t, q, s.answers[i].result).answers[0].result == s.answers[i].result;
      if !rows[q].status.Started? {
        var stored := if rows[q].status.Succeeded? then Some(rows[q].status.result) else None;
        assert Apply(t, Begin(q, kind, actor, candidate)).answers[0].result == stored;
      }
    }
  }

  /** The folder was published under the table in place, for the request. */
  ghost predicate Own(s: State, place: Place, q: RequestId)
  {
    place in s.published && place !in s.foreign && s.published[place].request == q
  }

  ghost predicate NoNewFolder(s: State, t: State, q: RequestId)
  {
    forall place :: Own(t, place, q) ==> Own(s, place, q) && SameFolder(s.published[place], t.published[place])
  }

  lemma NoNewJoins(s: State, t: State, u: State, q: RequestId)
    requires NoNewFolder(s, t, q) && NoNewFolder(t, u, q)
    ensures NoNewFolder(s, u, q)
  {
  }

  lemma LoseAddsNothing(s: State, path: string, q: RequestId)
    requires GoodRemoval(s) && Deleting(s)
    ensures NoNewFolder(s, AfterLose(s, path), q)
  {
  }

  /** Only `Publish` adds a folder to what the table knows. */
  lemma NothingNew(s: State, step: Step, q: RequestId)
    requires Safe(s) && Enabled(s, step) && !step.Publish?
    ensures NoNewFolder(s, Apply(s, step), q)
  {
    if step.Lose? {
      LoseAddsNothing(s, step.path, q);
    } else if !Moves(step) {
      FoldersUnmoved(s, step);
    }
  }

  lemma SettledStep(s: State, step: Step, q: RequestId)
    requires Safe(s) && Enabled(s, step) && !step.ReplaceTable? && q in s.rows && !s.rows[q].status.Started?
    ensures NoNewFolder(s, Apply(s, step), q)
    ensures q in Apply(s, step).rows && !Apply(s, step).rows[q].status.Started?
  {
    StepSafe(s, step);
    if step.Publish? {
      assert GoodStage(s, s.call.stage);
    } else {
      NothingNew(s, step, q);
    }
  }

  /** Once a request id has succeeded or failed, no run publishes another folder for it,
      until the table is replaced. */
  lemma {:induction false} SettledStays(s: State, steps: seq<Step>, q: RequestId)
    requires Safe(s) && IsRun(s, steps) && TableStays(steps) && q in s.rows && !s.rows[q].status.Started?
    ensures NoNewFolder(s, Run(s, steps), q)
    decreases |steps|
  {
    if |steps| > 0 {
      var t := Apply(s, steps[0]);
      assert !steps[0].ReplaceTable?;
      SettledStep(s, steps[0], q);
      StepSafe(s, steps[0]);
      SettledStays(t, steps[1..], q);
      NoNewJoins(s, t, Run(t, steps[1..]), q);
    }
  }

  // ---------------------------------------------------------------------------
  // Resuming after a crash
  // ---------------------------------------------------------------------------

  ghost predicate Stranded(s: State, q: RequestId)
  {
    && Quiet(s) && q in s.rows && s.rows[q].status.Started? && s.rows[q].kind.Manual?
    && Place(s.destination, s.rows[q].bundle) in s.published
    && Accepts(s, s.published[Place(s.destination, s.rows[q].bundle)].content)
  }

  /** The external engine takes up a folder only if it has the schema version that the
      database has now. */
  ghost predicate UpToDate(s: State, q: RequestId)
    requires Stranded(s, q)
  {
    s.mode.External? ==> s.validate(s.published[Place(s.destination, s.rows[q].bundle)].content) == Some(s.schema)
  }

  /** A manual backup that was published but not completed is finished by calling again,
      unless the external engine finds the database migrated: the published folder is
      inspected, the row is completed with what it holds, and no folder is created. That
      is so under any table, so also for the row of the very backup that was restored. */
  lemma ResumeFinishes(s: State, q: RequestId, candidate: Name)
    requires Safe(s) && Stranded(s, q) && UpToDate(s, q)
    ensures var r := ResultAt(s, q, s.destination);
      var steps := TakeUp(s, q, candidate) + Finish();
      && IsRun(s, steps)
      && Run(s, steps)
         == s.(rows := s.rows[q := s.rows[q].(status := Succeeded(r))], answers := s.answers + [Answer(q, Some(r))],
               inherited := s.inherited - {q}, target := s.schema)
  {
    TakenUp(s, q, candidate);
    Finished(Run(s, TakeUp(s, q, candidate)));
    RunConcat(s, TakeUp(s, q, candidate), Finish());
  }

  /** From the retry to the folder that is there. */
  function TakeUp(s: State, q: RequestId, candidate: Name): seq<Step>
    requires q in s.rows
  {
    [Begin(q, Manual, s.rows[q].actor, candidate)] + ([Locate(s.destination)] + [Resume])
  }

  lemma TakenUp(s: State, q: RequestId, candidate: Name)
    requires Stranded(s, q)
    ensures IsRun(s, TakeUp(s, q, candidate))
    ensures Run(s, TakeUp(s, q, candidate)) == s.(call := Published(q, s.destination, None), target := s.schema)
  {
    var begin := Begin(q, Manual, s.rows[q].actor, candidate);
    var s1 := Apply(s, begin);
    RunLast(Apply(s1, Locate(s.destination)), Resume);
    RunCons(s1, Locate(s.destination), [Resume]);
    RunCons(s, begin, [Locate(s.destination)] + [Resume]);
  }

  /** From the folder to the answer. */
  function Finish(): seq<Step> { [Inspect(true)] + ([Complete(true, true)] + [Tell]) }

  lemma Finished(s: State)
    requires Enabled(s, Inspect(true)) && s.call.own.None? && s.removing.None? && s.rows[s.call.request].status.Started?
    ensures IsRun(s, Finish())
    ensures var q := s.call.request;
      var r := ResultAt(s, q, s.call.directory);
      Run(s, Finish())
      == s.(call := Idle, rows := s.rows[q := s.rows[q].(status := Succeeded(r))],
            answers := s.answers + [Answer(q, Some(r))], inherited := s.inherited - {q})
  {
    var s1 := Apply(s, Inspect(true));
    var s2 := Apply(s1, Complete(true, true));
    assert s1.stages == s.stages;
    RunLast(s2, Tell);
    RunCons(s1, Complete(true, true), [Tell]);
    RunCons(s, Inspect(true), [Complete(true, true)] + [Tell]);
  }

  // ---------------------------------------------------------------------------
  // One folder for each request id, while the destination stays put
  // ---------------------------------------------------------------------------

  ghost predicate OneFolder(s: State, q: RequestId)
  {
    forall x, y :: Own(s, x, q) && Own(s, y, q) ==> x == y
  }

  /** The call has settled on a directory, and its request already has a folder in
      another one. A caller can tell before the call: the request id was used before,
      and the destination has changed since. */
  ghost predicate Elsewhere(s: State)
  {
    s.call.Placed? && exists x :: Own(s, x, s.call.request) && x.directory != s.call.directory
  }

  ghost predicate NeverElsewhere(s: State, steps: seq<Step>)
    requires IsRun(s, steps)
    decreases |steps|
  {
    !Elsewhere(s) && (|steps| > 0 ==> NeverElsewhere(Apply(s, steps[0]), steps[1..]))
  }

  /** The call that is building a bundle has no folder yet. */
  ghost predicate Unpublished(s: State)
  {
    s.call.Staging? ==> forall x :: !Own(s, x, s.call.request)
  }

  ghost predicate OneEach(s: State) { Unpublished(s) && forall q :: OneFolder(s, q) }

  /** An own folder in the directory the call is pointed at is in the call's way. */
  lemma OpenUnpublished(s: State)
    requires Safe(s) && !Elsewhere(s) && Enabled(s, OpenStage)
    ensures Unpublished(AfterOpen(s))
  {
  }

  lemma StillUnpublished(s: State, step: Step)
    requires Safe(s) && Unpublished(s) && Enabled(s, step) && !step.Publish? && !step.OpenStage?
    ensures Unpublished(Apply(s, step))
  {
    if s.call.Staging? { NothingNew(s, step, s.call.request); }
  }

  lemma PublishOne(s: State, q: RequestId)
    requires Safe(s) && Unpublished(s) && OneFolder(s, q) && Enabled(s, Publish)
    ensures OneFolder(AfterPublish(s), q)
  {
    var t := AfterPublish(s);
    forall x, y | Own(t, x, q) && Own(t, y, q) ensures x == y {
      assert q != s.call.request ==> Own(s, x, q) && Own(s, y, q);
      assert !Own(s, x, s.call.request) && !Own(s, y, s.call.request);
    }
  }

  lemma OneEachStep(s: State, step: Step)
    requires Safe(s) && OneEach(s) && !Elsewhere(s) && Enabled(s, step)
    ensures OneEach(Apply(s, step))
  {
    if step.OpenStage? {
      OpenUnpublished(s);
    } else if !step.Publish? {
      StillUnpublished(s, step);
    }
    forall q ensures OneFolder(Apply(s, step), q) {
      assert OneFolder(s, q);
      if step.Publish? {
        PublishOne(s, q);
      } else {
        NothingNew(s, step, q);
      }
    }
  }

  lemma {:induction false} OneEachRun(s: State, steps: seq<Step>)
    requires Safe(s) && OneEach(s) && IsRun(s, steps) && NeverElsewhere(s, steps)
    ensures OneEach(Run(s, steps))
    decreases |steps|
  {
    if |steps| > 0 {
      OneEachStep(s, steps[0]);
      StepSafe(s, steps[0]);
      OneEachRun(Apply(s, steps[0]), steps[1..]);
    }
  }

  /** If no call is ever pointed at another directory than the one its request already
      has a folder in, each request id has at most one folder under one table. */
  lemma OneFolderEach(s: State, origin: State, steps: seq<Step>, q: RequestId)
    requires Reached(s, origin, steps) && NeverElsewhere(origin, steps)
    ensures OneFolder(s, q)
  {
    OneEachRun(origin, steps);
  }

  /** Assembling, stamping and validating. */
  function Fill(assembled: Bundle, b: Bundle): seq<Step> { [Assemble(assembled)] + ([Stamp(b)] + [Check]) }

  lemma FillRuns(s: State, assembled: Bundle, b: Bundle)
    requires InStage(s, Empty) && Known(s) && s.validate(b) == Some(s.target)
    ensures IsRun(s, Fill(assembled, b)) && Run(s, Fill(assembled, b)) == Advance(s, Checked, b)
  {
    var s1 := Apply(s, Assemble(assembled));
    var s2 := Apply(s1, Stamp(b));
    RunLast(s2, Check);
    RunCons(s1, Stamp(b), [Check]);
    RunCons(s, Assemble(assembled), [Stamp(b)] + [Check]);
  }

  function Build(assembled: Bundle, b: Bundle): seq<Step> { Fill(assembled, b) + [Publish] }

  /** Building a bundle in an empty stage and publishing it. */
  lemma BuildAndPublish(s: State, assembled: Bundle, b: Bundle)
    requires InStage(s, Empty) && s.call.request in s.rows && FinalPlace(s, s.call.stage.directory) !in s.published
    requires s.validate(b) == Some(s.target)
    ensures IsRun(s, Build(assembled, b))
    ensures Run(s, Build(assembled, b)) == AfterPublish(Advance(s, Checked, b))
  {
    FillRuns(s, assembled, b);
    RunAppend(s, Fill(assembled, b), Publish);
  }

  /** The engine's steps from the empty destination on. */
  function Engine(assembled: Bundle, b: Bundle): seq<Step> { [OpenStage] + Build(assembled, b) }

  /** Where its folder and its staging directory are new, the engine publishes a valid
      bundle, which the inspection that follows accepts. */
  lemma EngineRuns(s: State, assembled: Bundle, b: Bundle)
    requires Enabled(s, OpenStage) && s.validate(b) == Some(EngineVersion(s))
    ensures IsRun(s, Engine(assembled, b))
    ensures var t := Run(s, Engine(assembled, b));
      && t.published
         == s.published[FinalPlace(s, s.call.directory) := Folder(s.call.request, s.rows[s.call.request].kind, Checked, b)]
      && t.foreign == s.foreign && Enabled(t, Inspect(true))
  {
    var staged := AfterOpen(s);
    BuildAndPublish(staged, assembled, b);
    RunCons(s, OpenStage, Build(assembled, b));
  }

  /** And the condition is needed: a call that is pointed elsewhere, with the name and the
      staging directory free there, goes on to publish a second folder. */
  lemma SecondFolder(s: State, b: Bundle)
    requires Safe(s) && Elsewhere(s) && s.validate(b) == Some(EngineVersion(s))
    requires FinalPlace(s, s.call.directory) !in s.published && NextStage(s) !in s.stages
    ensures IsRun(s, Engine(b, b)) && !OneFolder(Run(s, Engine(b, b)), s.call.request)
  {
    var x :| Own(s, x, s.call.request) && x.directory != s.call.directory;
    EngineRuns(s, b, b);
    var t := Run(s, Engine(b, b));
    var y := FinalPlace(s, s.call.directory);
    assert Own(t, x, s.call.request) && Own(t, y, s.call.request);
  }

  // ---------------------------------------------------------------------------
  // Runs of a fresh installation
  // ---------------------------------------------------------------------------

  /** A fresh installation whose first call has just published its folder. */
  ghost function JustPublished(origin: State, kind: Kind, q: RequestId, name: Name, b: Bundle): State
  {
    var stage := Stage(origin.destination, name, 0, 0);
    origin.(rows := map[q := Row(0, kind, name, 0, Started)], attempts := 1,
      published := map[Place(origin.destination, name) := Folder(q, kind, Checked, b)],
      stages := map[stage := Folder(q, kind, Empty, NOTHING)], suffixes := 1,
      call := Published(q, origin.destination, Some(stage)))
  }

  /** The first call, until its staging directory is made. */
  function FirstSteps(origin: State, kind: Kind, q: RequestId, name: Name): seq<Step>
  {
    [Begin(q, kind, 0, name)] + ([Locate(origin.destination)] + [OpenStage])
  }

  lemma FirstStage(origin: State, kind: Kind, q: RequestId, name: Name)
    requires IsFresh(origin)
    ensures IsRun(origin, FirstSteps(origin, kind, q, name))
    ensures Run(origin, FirstSteps(origin, kind, q, name))
         == AfterOpen(origin.(rows := map[q := Row(0, kind, name, 0, Started)], attempts := 1,
                              call := Placed(q, false, origin.destination)))
  {
    var begin := Begin(q, kind, 0, name);
    var locate := Locate(origin.destination);
    var s1 := Apply(origin, begin);
    var s2 := Apply(s1, locate);
    RunLast(s2, OpenStage);
    RunCons(s1, locate, [OpenStage]);
    RunCons(origin, begin, [locate] + [OpenStage]);
  }

  lemma FirstCall(origin: State, kind: Kind, q: RequestId, name: Name, b: Bundle) returns (steps: seq<Step>)
    requires IsFresh(origin) && origin.validate(b) == Some(origin.schema)
    ensures IsRun(origin, steps) && Run(origin, steps) == JustPublished(origin, kind, q, name, b)
  {
    FirstStage(origin, kind, q, name);
    var staged := Run(origin, FirstSteps(origin, kind, q, name));
    BuildAndPublish(staged, b, b);
    RunConcat(origin, FirstSteps(origin, kind, q, name), Build(b, b));
    steps := FirstSteps(origin, kind, q, name) + Build(b, b);
  }

  /** The process stops, the destination setting is changed, and the request is tried
      again. */
  function TryElsewhere(q: RequestId, kind: Kind, name: Name, d: Directory): seq<Step>
  {
    [Crash] + ([ChangeDestination(d)] + ([Begin(q, kind, 0, name)] + [Locate(d)]))
  }

  lemma Redirected(origin: State, kind: Kind, q: RequestId, name: Name, b: Bundle, d: Directory)
    requires IsFresh(origin)
    ensures var s := JustPublished(origin, kind, q, name, b);
      IsRun(s, TryElsewhere(q, kind, name, d))
      && Run(s, TryElsewhere(q, kind, name, d)) == s.(destination := d, call := Placed(q, true, d))
  {
    var begin := Begin(q, kind, 0, name);
    var s := JustPublished(origin, kind, q, name, b);
    var s1 := Apply(s, Crash);
    var s2 := Apply(s1, ChangeDestination(d));
    var s3 := Apply(s2, begin);
    RunLast(s3, Locate(d));
    RunCons(s2, begin, [Locate(d)]);
    RunCons(s1, ChangeDestination(d), [begin] + [Locate(d)]);
    RunCons(s, Crash, [ChangeDestination(d)] + ([begin] + [Locate(d)]));
  }

  /** Such a run exists, and ends with two folders of one request id. */
  lemma DestinationChanges(origin: State, kind: Kind, q: RequestId, name: Name, b: Bundle, d: Directory)
      returns (steps: seq<Step>)
    requires IsFresh(origin) && origin.validate(b) == Some(origin.schema) && d != origin.destination
    ensures IsRun(origin, steps) && !OneFolder(Run(origin, steps), q)
  {
    var first := FirstCall(origin, kind, q, name, b);
    var again := TryElsewhere(q, kind, name, d);
    Redirected(origin, kind, q, name, b, d);
    RunConcat(origin, first, again);
    var t := Run(origin, first + again);
    RunSafe(origin, first + again);
    assert Own(t, Place(origin.destination, name), q);
    SecondFolder(t, b);
    RunConcat(origin, first + again, Engine(b, b));
    steps := first + again + Engine(b, b);
  }
}
