/** What every step of backup creation keeps. */
module BackupSafety {
  import opened Text
  import opened BackupProtocol

  // ---------------------------------------------------------------------------
  // The invariant
  // ---------------------------------------------------------------------------

  /** A folder belongs to the row that owns its name. */
  ghost predicate Owned(s: State, f: Folder, name: Name)
  {
    f.request in s.rows && s.rows[f.request].bundle == name && s.rows[f.request].kind == f.kind
  }

  /** A published manual folder passes validation, and a folder that the table knows
      belongs to its row. */
  ghost predicate GoodFolder(s: State, place: Place)
    requires place in s.published
  {
    && (s.published[place].kind.Manual? ==> Accepts(s, s.published[place].content))
    && (place !in s.foreign ==> Owned(s, s.published[place], place.name))
  }

  ghost predicate GoodStage(s: State, stage: Stage)
    requires stage in s.stages
  {
    && (s.stages[stage].phase.Checked? ==> Accepts(s, s.stages[stage].content))
    && (if s.mode.Embedded? then stage.suffix == 0 else stage.suffix < s.suffixes)
  }

  /** For a manual backup, a folder with what the result describes is there. */
  ghost predicate Backed(s: State, r: Result)
  {
    r.kind.Manual? ==>
      exists d :: Place(d, r.bundle) in s.published && s.published[Place(d, r.bundle)].kind.Manual?
                  && s.published[Place(d, r.bundle)].content == r.content
  }

  ghost predicate BackedRow(s: State, q: RequestId)
    requires q in s.rows
  {
    s.rows[q].status.Succeeded? && q !in s.inherited ==> Backed(s, s.rows[q].status.result)
  }

  /** A request whose row was just inserted has no folder. */
  ghost predicate Untouched(s: State, request: RequestId)
  {
    forall place :: place in s.published && place !in s.foreign ==> s.published[place].request != request
  }

  ghost predicate GoodResult(s: State, q: RequestId, r: Result)
    requires q in s.rows
  {
    r.request == q && r.bundle == s.rows[q].bundle && Backed(s, r)
  }

  ghost predicate GoodCall(s: State)
  {
    !s.call.Idle? ==>
      && s.call.request in s.rows
      && (!s.call.Answering? ==> s.rows[s.call.request].status.Started?)
      && match s.call
         case Begun(q, resume) => !resume ==> Untouched(s, q)
         case Placed(q, resume, _) => !resume ==> Untouched(s, q)
         case Staging(q, stage) =>
           && stage in s.stages && s.stages[stage].request == q && s.stages[stage].kind == s.rows[q].kind
           && stage.name == s.rows[q].bundle && stage.attempt == s.rows[q].attempt
         case Published(q, d, stage) =>
           && Place(d, s.rows[q].bundle) in s.published
           && (stage.Some? ==> stage.value.directory == d && stage.value.name == s.rows[q].bundle)
         case Finishing(q, Some(r)) => GoodResult(s, q, r)
         case Answering(q, Some(r)) => s.rows[q].status == Succeeded(r)
         case _ => true
  }

  ghost predicate GoodAnswer(s: State, a: Answer)
  {
    a.result.Some? ==> a.request in s.rows && s.rows[a.request].status == Succeeded(a.result.value)
  }

  /** Nothing is being deleted during a call, and what is being deleted is automatic. */
  ghost predicate GoodRemoval(s: State)
  {
    s.removing.Some? ==>
      && (s.call.Idle? || s.call.Answering?)
      && s.removing.value in s.published && s.published[s.removing.value].kind.Automatic?
  }

  ghost predicate Folders(s: State)
  {
    s.foreign <= s.published.Keys && forall place :: place in s.published ==> GoodFolder(s, place)
  }

  ghost predicate Stages(s: State) { forall stage :: stage in s.stages ==> GoodStage(s, stage) }

  ghost predicate Rows(s: State) { forall q :: q in s.rows ==> BackedRow(s, q) }

  ghost predicate Answers(s: State) { forall i :: 0 <= i < |s.answers| ==> GoodAnswer(s, s.answers[i]) }

  ghost predicate Safe(s: State)
  {
    && GoodTable(s.rows, s.attempts) && Folders(s) && Stages(s) && Rows(s) && GoodCall(s) && Answers(s)
    && GoodRemoval(s)
  }

  // ---------------------------------------------------------------------------
  // How a step changes things
  // ---------------------------------------------------------------------------

  /** Rows are never removed and keep what they began with; only a started one changes. */
  ghost predicate RowsGrow(s: State, t: State)
  {
    && s.answers <= t.answers
    && forall q :: q in s.rows ==>
         && q in t.rows && t.rows[q].bundle == s.rows[q].bundle && t.rows[q].kind == s.rows[q].kind
         && t.rows[q].attempt == s.rows[q].attempt && (s.rows[q].status.Started? || t.rows[q] == s.rows[q])
  }

  /** Published folders are never replaced, and only automatic ones are ever deleted. */
  ghost predicate FoldersKept(s: State, t: State)
  {
    forall place :: place in s.published ==>
      if s.published[place].kind.Manual? || place in t.published
      then place in t.published && SameFolder(s.published[place], t.published[place])
      else true
  }

  /** The same folder, of which, if it is automatic, some may be gone. */
  ghost predicate SameFolder(f: Folder, g: Folder)
  {
    g == f || (f.kind.Automatic? && g == f.(content := g.content) && PartOf(g.content, f.content))
  }

  ghost predicate PartOf(b: Bundle, c: Bundle)
  {
    (forall p :: p in b.files ==> p in c.files && b.files[p] == c.files[p]) && b.directories <= c.directories
  }

  ghost predicate Kept(s: State, t: State)
  {
    FoldersKept(s, t) && t.mode == s.mode && t.validate == s.validate && s.suffixes <= t.suffixes
  }

  /** What a step other than the replacement of the table does. */
  ghost predicate Progress(s: State, t: State) { Safe(t) && RowsGrow(s, t) && Kept(s, t) }

  ghost predicate SameDisk(s: State, t: State)
  {
    t.mode == s.mode && t.validate == s.validate && t.published == s.published && t.stages == s.stages
    && t.suffixes == s.suffixes && t.foreign == s.foreign
  }

  ghost predicate SameRows(s: State, t: State)
  {
    t.rows == s.rows && t.attempts == s.attempts && t.inherited == s.inherited
  }

  // ---------------------------------------------------------------------------
  // Steps of the call
  // ---------------------------------------------------------------------------

  /** Only the call, the destination, the versions and what is being deleted are new. */
  lemma CallStep(s: State, t: State)
    requires Safe(s) && SameDisk(s, t) && SameRows(s, t) && GoodCall(t) && GoodRemoval(t)
    requires t.answers == s.answers
    ensures Progress(s, t)
  {
  }

  lemma AnswerStep(s: State, request: RequestId, result: Option<Result>)
    requires Safe(s) && GoodAnswer(s, Answer(request, result)) && s.removing.None?
    ensures Progress(s, Answered(s, request, result))
  {
  }

  lemma ReplaySafe(s: State, request: RequestId, kind: Kind, actor: int, candidate: Name)
    requires Safe(s) && Quiet(s) && request in s.rows
    ensures Progress(s, AfterBegin(s, request, kind, actor, candidate))
  {
    assert GoodRow(s.rows, s.attempts, request);
    match s.rows[request].status
    case Started => CallStep(s, s.(call := Begun(request, true), target := s.schema));
    case Failed => AnswerStep(s, request, None);
    case Succeeded(r) => AnswerStep(s, request, Some(r));
  }

  lemma InsertSafe(s: State, request: RequestId, kind: Kind, actor: int, candidate: Name)
    requires Safe(s) && Quiet(s) && request !in s.rows && !NameTaken(s.rows, candidate)
    ensures Progress(s, Inserted(s, request, kind, actor, candidate))
  {
  }

  lemma LoseBeginSafe(s: State, request: RequestId, kind: Kind, actor: int, candidate: Name)
    requires Safe(s) && Enabled(s, LoseBegin(request, kind, actor, candidate))
    ensures Progress(s, Apply(s, LoseBegin(request, kind, actor, candidate)))
  {
  }

  /** A folder is published by its call, so no other call's folder has its name there. */
  lemma PublishSafe(s: State)
    requires Safe(s) && Enabled(s, Publish)
    ensures Progress(s, AfterPublish(s))
  {
  }

  lemma OpenSafe(s: State)
    requires Safe(s) && Enabled(s, OpenStage)
    ensures Progress(s, AfterOpen(s))
  {
  }

  lemma AdvanceSafe(s: State, phase: Phase, content: Bundle)
    requires Safe(s) && s.call.Staging? && s.call.stage in s.stages && (phase.Checked? ==> Accepts(s, content))
    ensures Progress(s, Advance(s, phase, content))
  {
  }

  lemma FailSafe(s: State, cleaned: bool)
    requires Safe(s) && Enabled(s, Fail(cleaned))
    ensures Progress(s, WithResult(s, None, cleaned))
  {
  }

  lemma InspectSafe(s: State, cleaned: bool)
    requires Safe(s) && Enabled(s, Inspect(cleaned))
    ensures Progress(s, Apply(s, Inspect(cleaned)))
  {
  }

  lemma CompletedTable(s: State, request: RequestId, result: Option<Result>)
    requires GoodTable(s.rows, s.attempts) && request in s.rows
    requires result.Some? ==> result.value.request == request && result.value.bundle == s.rows[request].bundle
    ensures GoodTable(Completed(s.rows, request, result), s.attempts)
  {
  }

  lemma CompleteSafe(s: State, stored: bool, told: bool)
    requires Safe(s) && s.call.Finishing?
    ensures Progress(s, AfterComplete(s, stored, told))
  {
    var t := AfterComplete(s, stored, told);
    CompletedTable(s, s.call.request, s.call.result);
    forall place | place in t.published ensures GoodFolder(t, place) { assert GoodFolder(s, place); }
    forall q | q in t.rows ensures BackedRow(t, q) { assert BackedRow(s, q); }
    forall i | 0 <= i < |t.answers| ensures GoodAnswer(t, t.answers[i]) { assert GoodAnswer(s, s.answers[i]); }
  }

  // ---------------------------------------------------------------------------
  // Steps of retention and restore
  // ---------------------------------------------------------------------------

  lemma LoseSafe(s: State, path: string)
    requires Safe(s) && Deleting(s)
    ensures Progress(s, AfterLose(s, path))
  {
  }

  lemma FinishRemovalSafe(s: State)
    requires Safe(s) && Enabled(s, FinishRemoval)
    ensures Progress(s, Apply(s, FinishRemoval))
  {
  }

  lemma SafetyCopySafe(s: State, place: Place, content: Bundle)
    requires Safe(s) && Enabled(s, SafetyCopy(place, content))
    ensures Progress(s, Apply(s, SafetyCopy(place, content)))
  {
  }

  lemma ReplaceSafe(s: State, rows: Table, attempts: nat, schema: Version)
    requires Safe(s) && Enabled(s, ReplaceTable(rows, attempts, schema))
    ensures var t := Apply(s, ReplaceTable(rows, attempts, schema)); Safe(t) && Kept(s, t)
  {
  }

  // ---------------------------------------------------------------------------
  // Every step
  // ---------------------------------------------------------------------------

  predicate Builds(step: Step)
  {
    step.OpenStage? || step.Assemble? || step.Stamp? || step.Check? || step.Publish? || step.Fail?
  }

  lemma BuildSafe(s: State, step: Step)
    requires Safe(s) && Enabled(s, step) && Builds(step)
    ensures Progress(s, Apply(s, step))
  {
    match step
    case OpenStage => OpenSafe(s);
    case Assemble(content) => AdvanceSafe(s, Assembled, content);
    case Stamp(content) => AdvanceSafe(s, Stamped, content);
    case Check => AdvanceSafe(s, Checked, s.stages[s.call.stage].content);
    case Publish => PublishSafe(s);
    case Fail(cleaned) => FailSafe(s, cleaned);
  }

  predicate Restores(step: Step) { step.SafetyCopy? || step.ReplaceTable? }

  predicate Removes(step: Step)
  {
    step.StartRemoval? || step.Lose? || step.FinishRemoval? || step.AbandonRemoval?
  }

  lemma RemovalSafe(s: State, step: Step)
    requires Safe(s) && Enabled(s, step) && Removes(step)
    ensures Progress(s, Apply(s, step))
  {
    match step
    case StartRemoval(_) => CallStep(s, Apply(s, step));
    case Lose(path) => LoseSafe(s, path);
    case FinishRemoval => FinishRemovalSafe(s);
    case AbandonRemoval => CallStep(s, Apply(s, step));
  }

  lemma CallSafe(s: State, step: Step)
    requires Safe(s) && Enabled(s, step) && !Builds(step) && !Removes(step) && !Restores(step)
    ensures Progress(s, Apply(s, step))
  {
    match step
    case Begin(request, kind, actor, candidate) =>
      if request in s.rows {
        ReplaySafe(s, request, kind, actor, candidate);
      } else {
        InsertSafe(s, request, kind, actor, candidate);
      }
    case Refuse(request) => AnswerStep(s, request, None);
    case LoseBegin(request, kind, actor, candidate) => LoseBeginSafe(s, request, kind, actor, candidate);
    case Inspect(cleaned) => InspectSafe(s, cleaned);
    case Complete(stored, told) => CompleteSafe(s, stored, told);
    case Tell => AnswerStep(s, s.call.request, s.call.result);
    case Locate(_) => CallStep(s, Apply(s, step));
    case Resume => CallStep(s, Apply(s, step));
    case ChangeDestination(_) => CallStep(s, Apply(s, step));
    case Migrate(_) => CallStep(s, Apply(s, step));
    case Crash => CallStep(s, Apply(s, step));
  }

  /** Every step keeps the invariant, never replaces a published folder and never deletes
      a manual one; and unless it replaces the whole table, it never removes or renames a
      row and never takes an answer back. */
  lemma StepSafe(s: State, step: Step)
    requires Safe(s) && Enabled(s, step)
    ensures Safe(Apply(s, step)) && Kept(s, Apply(s, step))
    ensures !step.ReplaceTable? ==> RowsGrow(s, Apply(s, step))
  {
    if Builds(step) {
      BuildSafe(s, step);
    } else if Removes(step) {
      RemovalSafe(s, step);
    } else if step.SafetyCopy? {
      SafetyCopySafe(s, step.place, step.content);
    } else if step.ReplaceTable? {
      ReplaceSafe(s, step.rows, step.attempts, step.schema);
    } else {
      CallSafe(s, step);
    }
  }

  // ---------------------------------------------------------------------------
  // Every run
  // ---------------------------------------------------------------------------

  ghost predicate ManualKept(s: State, t: State)
  {
    forall place :: place in s.published && s.published[place].kind.Manual? ==>
      place in t.published && t.published[place] == s.published[place]
  }

  /** No live restore replaces the table on the way. */
  ghost predicate TableStays(steps: seq<Step>)
  {
    forall i :: 0 <= i < |steps| ==> !steps[i].ReplaceTable?
  }

  lemma {:induction false} RunSafe(s: State, steps: seq<Step>)
    requires Safe(s) && IsRun(s, steps)
    ensures Safe(Run(s, steps)) && ManualKept(s, Run(s, steps))
    ensures Run(s, steps).mode == s.mode && Run(s, steps).validate == s.validate
    ensures TableStays(steps) ==> RowsGrow(s, Run(s, steps))
    decreases |steps|
  {
    if |steps| > 0 {
      StepSafe(s, steps[0]);
      RunSafe(Apply(s, steps[0]), steps[1..]);
      if TableStays(steps) { assert !steps[0].ReplaceTable?; }
    }
  }
}
