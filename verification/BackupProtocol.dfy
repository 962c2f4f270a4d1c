/** Creating a backup, as steps over the audit table, the destination folders and the
    memory of the one running process. A crash may come between any two steps: it loses
    the memory and leaves the table and the folders. Retention deletes old automatic
    folders file by file, a live restore replaces the whole table, and an update of the
    application migrates the database to another schema version. */
module BackupProtocol {
  import opened Text
  import BundleFiles

  type RequestId = string
  type Name = string
  type Directory = int
  type Version = string
  type Bundle = BundleFiles.Bundle

  const NOTHING := BundleFiles.Bundle(map[], {})

  datatype Kind = Manual | Automatic

  /** The two engines differ in how they name the staging directory: the embedded one
      after the bundle and the attempt alone, the external one with a fresh suffix. */
  datatype Mode = Embedded | External

  /** How far a bundle has come. A checked one has passed validation. */
  datatype Phase = Empty | Assembled | Stamped | Checked

  datatype Folder = Folder(request: RequestId, kind: Kind, phase: Phase, content: Bundle)

  /** What a successful call reports about its bundle. */
  datatype Result = Result(request: RequestId, bundle: Name, kind: Kind, content: Bundle)

  datatype Status = Started | Succeeded(result: Result) | Failed

  /** A row of `operations.recovery_attempts`. */
  datatype Row = Row(actor: int, kind: Kind, bundle: Name, attempt: nat, status: Status)

  type Table = map<RequestId, Row>

  datatype Place = Place(directory: Directory, name: Name)

  datatype Stage = Stage(directory: Directory, name: Name, attempt: nat, suffix: nat)

  /** The call in progress. One at a time: there is one process, and each call holds the
      recovery lease. The call that made the folder still has its staging directory; one
      that took the folder up has none. */
  datatype Call =
    | Idle
    | Begun(request: RequestId, resume: bool)
    | Placed(request: RequestId, resume: bool, directory: Directory)
    | Staging(request: RequestId, stage: Stage)
    | Published(request: RequestId, directory: Directory, own: Option<Stage>)
    | Finishing(request: RequestId, result: Option<Result>)
    | Answering(request: RequestId, result: Option<Result>)

  datatype Answer = Answer(request: RequestId, result: Option<Result>)

  /** The validator gives the schema version of a bundle that it accepts. The database has
      a current schema version, and the call works with the one that it was told.

      Besides the database, the disk and the memory of the process, a state keeps the
      answers since the table was last replaced, which rows came with that table and were
      not completed since, and which folders the table knows nothing of. */
  datatype State = State(
    mode: Mode,
    validate: Bundle -> Option<Version>,
    schema: Version,
    target: Version,
    rows: Table,
    attempts: nat,
    published: map<Place, Folder>,
    stages: map<Stage, Folder>,
    destination: Directory,
    fallback: Directory,
    suffixes: nat,
    call: Call,
    removing: Option<Place>,
    answers: seq<Answer>,
    inherited: set<RequestId>,
    foreign: set<Place>)

  datatype Step =
    | Begin(request: RequestId, kind: Kind, actor: int, candidate: Name)
    | LoseBegin(request: RequestId, kind: Kind, actor: int, candidate: Name)
    | Refuse(request: RequestId)
    | Locate(directory: Directory)
    | Resume
    | OpenStage
    | Assemble(content: Bundle)
    | Stamp(content: Bundle)
    | Check
    | Publish
    | Inspect(cleaned: bool)
    | Fail(cleaned: bool)
    | Complete(stored: bool, told: bool)
    | Tell
    | StartRemoval(place: Place)
    | Lose(path: string)
    | FinishRemoval
    | AbandonRemoval
    | ChangeDestination(directory: Directory)
    | SafetyCopy(place: Place, content: Bundle)
    | ReplaceTable(rows: Table, attempts: nat, schema: Version)
    | Migrate(schema: Version)
    | Crash

  // ---------------------------------------------------------------------------
  // The audit table
  // ---------------------------------------------------------------------------

  /** The unique index on the bundle names of creation attempts. */
  predicate NameTaken(rows: Table, name: Name)
  {
    exists q :: q in rows && rows[q].bundle == name
  }

  /** A known request id of another actor or operation, or a new one whose bundle name is
      taken: both raise a uniqueness violation. */
  predicate Conflicts(s: State, request: RequestId, kind: Kind, actor: int, candidate: Name)
  {
    if request in s.rows then s.rows[request].actor != actor || s.rows[request].kind != kind
    else NameTaken(s.rows, candidate)
  }

  ghost predicate GoodRow(rows: Table, attempts: nat, request: RequestId)
    requires request in rows
  {
    && rows[request].attempt < attempts
    && (rows[request].status.Succeeded? ==>
          rows[request].status.result.request == request && rows[request].status.result.bundle == rows[request].bundle)
  }

  /** A table as the functions of the database leave it: distinct bundle names, attempt
      numbers below the next one, and results that belong to their rows. */
  ghost predicate GoodTable(rows: Table, attempts: nat)
  {
    && (forall p, q :: p in rows && q in rows && p != q ==> rows[p].bundle != rows[q].bundle)
    && (forall q :: q in rows ==> GoodRow(rows, attempts, q))
  }

  function Answered(s: State, request: RequestId, result: Option<Result>): State
  {
    s.(call := Idle, answers := s.answers + [Answer(request, result)])
  }

  function WithRow(s: State, request: RequestId, kind: Kind, actor: int, candidate: Name): State
  {
    s.(rows := s.rows[request := Row(actor, kind, candidate, s.attempts, Started)], attempts := s.attempts + 1)
  }

  function Inserted(s: State, request: RequestId, kind: Kind, actor: int, candidate: Name): State
  {
    WithRow(s, request, kind, actor, candidate).(call := Begun(request, false), target := s.schema)
  }

  /** `begin` without a conflict: a stored row is returned, a new one is inserted, and the
      current schema version with it. A stored result that does not belong to its row is an internal error. */
  function AfterBegin(s: State, request: RequestId, kind: Kind, actor: int, candidate: Name): State
  {
    if request !in s.rows then Inserted(s, request, kind, actor, candidate)
    else
      match s.rows[request].status
      case Started => s.(call := Begun(request, true), target := s.schema)
      case Failed => Answered(s, request, None)
      case Succeeded(r) =>
        if r.request == request && r.bundle == s.rows[request].bundle
        then Answered(s, request, Some(r)) else Answered(s, request, None)
  }

  /** `complete`: only a started row changes. */
  function Completed(rows: Table, request: RequestId, result: Option<Result>): Table
    requires request in rows
  {
    if !rows[request].status.Started? then rows
    else rows[request := rows[request].(status := match result case Some(r) => Succeeded(r) case None => Failed)]
  }

  // ---------------------------------------------------------------------------
  // The steps
  // ---------------------------------------------------------------------------

  predicate Known(s: State) { !s.call.Idle? ==> s.call.request in s.rows }

  function FinalPlace(s: State, directory: Directory): Place
    requires !s.call.Idle? && s.call.request in s.rows
  {
    Place(directory, s.rows[s.call.request].bundle)
  }

  /** Only a manual call that replays a started row takes up an existing folder. */
  predicate MayResume(s: State)
    requires s.call.Placed? && s.call.request in s.rows
  {
    s.call.resume && s.rows[s.call.request].kind.Manual? && FinalPlace(s, s.call.directory) in s.published
  }

  function NextStage(s: State): Stage
    requires s.call.Placed? && s.call.request in s.rows
  {
    Stage(s.call.directory, s.rows[s.call.request].bundle, s.rows[s.call.request].attempt,
          if s.mode.Embedded? then 0 else s.suffixes)
  }

  /** The staging directory that the embedded engine makes for a row's attempt. */
  function EmbeddedStage(s: State, q: RequestId, d: Directory): Stage
    requires q in s.rows
  {
    Stage(d, s.rows[q].bundle, s.rows[q].attempt, 0)
  }

  predicate InStage(s: State, phase: Phase)
  {
    s.call.Staging? && s.call.stage in s.stages && s.stages[s.call.stage].phase == phase
  }

  predicate Accepts(s: State, b: Bundle) { s.validate(b).Some? }

  /** A folder that an earlier call published is taken up, by the external engine only if
      it has the schema version that the call was told. */
  predicate TakesUp(s: State, b: Bundle) { Accepts(s, b) && (s.mode.External? ==> s.validate(b) == Some(s.target)) }

  /** The inspection of what is at the final path. */
  predicate PassesInspection(s: State, place: Place)
    requires s.call.Published? && place in s.published
  {
    if s.call.own.None? then TakesUp(s, s.published[place].content) else Accepts(s, s.published[place].content)
  }

  /** The schema version that goes into a new bundle: the external engine has it from
      `begin`, the embedded one reads it for itself. */
  function EngineVersion(s: State): Version { if s.mode.Embedded? then s.schema else s.target }

  /** The staging directory that the call cleans up at its end. */
  function OwnStage(call: Call): set<Stage>
  {
    match call
    case Staging(_, stage) => {stage}
    case Published(_, _, Some(stage)) => {stage}
    case _ => {}
  }

  /** Retention looks at the automatic folders whose manifest it can read. */
  predicate Removable(f: Folder)
  {
    f.kind.Automatic? && BundleFiles.MANIFEST_FILENAME in f.content.files
  }

  /** A file, or a directory with nothing in it. */
  predicate CanLose(b: Bundle, path: string)
  {
    || path in b.files
    || (path in b.directories && forall f :: f in b.files ==> !StartsWith(f, path + "/"))
  }

  /** No call and no retention is under way. */
  predicate Quiet(s: State) { s.call.Idle? && s.removing.None? }

  /** A folder is being deleted. */
  predicate Deleting(s: State) { s.removing.Some? && s.removing.value in s.published }

  ghost predicate Enabled(s: State, step: Step)
  {
    Known(s) &&
    match step
    case Begin(request, kind, actor, candidate) => Quiet(s) && !Conflicts(s, request, kind, actor, candidate)
    case LoseBegin(request, _, _, candidate) => Quiet(s) && request !in s.rows && !NameTaken(s.rows, candidate)
    case Refuse(_) => Quiet(s)
    case Locate(d) =>
      s.call.Begun? && (d == s.destination || (s.rows[s.call.request].kind.Automatic? && d == s.fallback))
    case Resume => s.call.Placed? && MayResume(s)
    case OpenStage =>
      s.call.Placed? && !MayResume(s) && FinalPlace(s, s.call.directory) !in s.published && NextStage(s) !in s.stages
    case Assemble(_) => InStage(s, Empty)
    case Stamp(_) => InStage(s, Assembled)
    case Check => InStage(s, Stamped) && s.validate(s.stages[s.call.stage].content) == Some(s.target)
    case Publish => InStage(s, Checked) && FinalPlace(s, s.call.stage.directory) !in s.published
    case Inspect(_) =>
      s.call.Published? && FinalPlace(s, s.call.directory) in s.published
      && PassesInspection(s, FinalPlace(s, s.call.directory))
    case Fail(_) => s.call.Begun? || s.call.Placed? || s.call.Staging? || s.call.Published?
    case Complete(_, _) => s.call.Finishing?
    case Tell => s.call.Answering? && s.removing.None?
    case StartRemoval(place) =>
      (s.call.Idle? || (s.call.Answering? && s.call.result.Some?))
      && s.removing.None? && place in s.published && Removable(s.published[place])
    case Lose(path) => Deleting(s) && CanLose(s.published[s.removing.value].content, path)
    case FinishRemoval => Deleting(s) && s.published[s.removing.value].content == NOTHING
    case AbandonRemoval => Deleting(s)
    case ChangeDestination(_) => true
    case SafetyCopy(place, content) => Quiet(s) && place !in s.published && Accepts(s, content)
    case ReplaceTable(rows, attempts, _) => Quiet(s) && GoodTable(rows, attempts)
    case Migrate(_) => true
    case Crash => true
  }

  function Advance(s: State, phase: Phase, content: Bundle): State
    requires s.call.Staging? && s.call.stage in s.stages
  {
    s.(stages := s.stages[s.call.stage := s.stages[s.call.stage].(phase := phase, content := content)])
  }

  function AfterOpen(s: State): State
    requires s.call.Placed? && s.call.request in s.rows
  {
    var stage := NextStage(s);
    var folder := Folder(s.call.request, s.rows[s.call.request].kind, Empty, NOTHING);
    s.(stages := s.stages[stage := folder], suffixes := s.suffixes + 1, call := Staging(s.call.request, stage),
       target := EngineVersion(s))
  }

  /** The bundle is renamed out of the staging directory, which is still there. */
  function AfterPublish(s: State): State
    requires s.call.Staging? && s.call.stage in s.stages && s.call.request in s.rows
  {
    s.(published := s.published[FinalPlace(s, s.call.stage.directory) := s.stages[s.call.stage]],
       stages := s.stages[s.call.stage := s.stages[s.call.stage].(phase := Empty, content := NOTHING)],
       call := Published(s.call.request, s.call.stage.directory, Some(s.call.stage)))
  }

  /** What an inspection of the folder of a request reports. */
  function ResultAt(s: State, request: RequestId, directory: Directory): Result
    requires request in s.rows && Place(directory, s.rows[request].bundle) in s.published
  {
    var f := s.published[Place(directory, s.rows[request].bundle)];
    Result(request, s.rows[request].bundle, f.kind, f.content)
  }

  /** The call has its result. Whether its staging directory could be deleted does not
      matter to it. */
  function WithResult(s: State, result: Option<Result>, cleaned: bool): State
    requires !s.call.Idle?
  {
    s.(call := Finishing(s.call.request, result), stages := if cleaned then s.stages - OwnStage(s.call) else s.stages)
  }

  /** The completion may fail, and a stored success may be reported as a failure. */
  function AfterComplete(s: State, stored: bool, told: bool): State
    requires s.call.Finishing? && s.call.request in s.rows
  {
    s.(rows := if stored then Completed(s.rows, s.call.request, s.call.result) else s.rows,
       inherited := if stored then s.inherited - {s.call.request} else s.inherited,
       call := Answering(s.call.request, if stored && told then s.call.result else None))
  }

  function AfterLose(s: State, path: string): State
    requires Deleting(s)
  {
    var f := s.published[s.removing.value];
    s.(published := s.published[s.removing.value := f.(content := BundleFiles.Without(f.content, {path}))])
  }

  function Apply(s: State, step: Step): State
    requires Enabled(s, step)
  {
    match step
    case Begin(request, kind, actor, candidate) => AfterBegin(s, request, kind, actor, candidate)
    case LoseBegin(request, kind, actor, candidate) => Answered(WithRow(s, request, kind, actor, candidate), request, None)
    case Refuse(request) => Answered(s, request, None)
    case Locate(d) => s.(call := Placed(s.call.request, s.call.resume, d))
    case Resume => s.(call := Published(s.call.request, s.call.directory, None))
    case OpenStage => AfterOpen(s)
    case Assemble(content) => Advance(s, Assembled, content)
    case Stamp(content) => Advance(s, Stamped, content)
    case Check => Advance(s, Checked, s.stages[s.call.stage].content)
    case Publish => AfterPublish(s)
    case Inspect(cleaned) => WithResult(s, Some(ResultAt(s, s.call.request, s.call.directory)), cleaned)
    case Fail(cleaned) => WithResult(s, None, cleaned)
    case Complete(stored, told) => AfterComplete(s, stored, told)
    case Tell => Answered(s, s.call.request, s.call.result)
    case StartRemoval(place) => s.(removing := Some(place))
    case Lose(path) => AfterLose(s, path)
    case FinishRemoval =>
      s.(published := s.published - {s.removing.value}, foreign := s.foreign - {s.removing.value}, removing := None)
    case AbandonRemoval => s.(removing := None)
    case ChangeDestination(d) => s.(destination := d)
    case SafetyCopy(place, content) =>
      s.(published := s.published[place := Folder("", Automatic, Checked, content)], foreign := s.foreign + {place})
    case ReplaceTable(rows, attempts, schema) =>
      s.(rows := rows, attempts := attempts, schema := schema, answers := [], inherited := rows.Keys, foreign := s.published.Keys)
    case Migrate(schema) => s.(schema := schema)
    case Crash => s.(call := Idle, removing := None)
  }

  // ---------------------------------------------------------------------------
  // Runs
  // ---------------------------------------------------------------------------

  ghost predicate IsRun(s: State, steps: seq<Step>)
    decreases |steps|
  {
    |steps| == 0 || (Enabled(s, steps[0]) && IsRun(Apply(s, steps[0]), steps[1..]))
  }

  ghost function Run(s: State, steps: seq<Step>): State
    requires IsRun(s, steps)
    decreases |steps|
  {
    if |steps| == 0 then s else Run(Apply(s, steps[0]), steps[1..])
  }

  function Start(mode: Mode, validate: Bundle -> Option<Version>, schema: Version, destination: Directory,
                 fallback: Directory): State
  {
    State(mode, validate, schema, schema, map[], 0, map[], map[], destination, fallback, 0, Idle, None, [], {}, {})
  }

  lemma RunCons(s: State, step: Step, rest: seq<Step>)
    requires Enabled(s, step) && IsRun(Apply(s, step), rest)
    ensures IsRun(s, [step] + rest) && Run(s, [step] + rest) == Run(Apply(s, step), rest)
  {
  }

  lemma RunLast(s: State, step: Step)
    requires Enabled(s, step)
    ensures IsRun(s, [step]) && Run(s, [step]) == Apply(s, step)
  {
  }

  lemma {:induction false} RunConcat(s: State, a: seq<Step>, b: seq<Step>)
    requires IsRun(s, a) && IsRun(Run(s, a), b)
    ensures IsRun(s, a + b) && Run(s, a + b) == Run(Run(s, a), b)
    decreases |a|
  {
    if |a| == 0 {
      assert a + b == b;
    } else {
      RunConcat(Apply(s, a[0]), a[1..], b);
      RunCons(s, a[0], a[1..] + b);
      assert a + b == [a[0]] + (a[1..] + b);
    }
  }

  lemma RunAppend(s: State, steps: seq<Step>, step: Step)
    requires IsRun(s, steps) && Enabled(Run(s, steps), step)
    ensures IsRun(s, steps + [step]) && Run(s, steps + [step]) == Apply(Run(s, steps), step)
  {
    RunLast(Run(s, steps), step);
    RunConcat(s, steps, [step]);
  }
}
