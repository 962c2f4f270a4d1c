/** Posting a document exactly once. Each call is one database transaction: it reserves
    its request id together with the hash of its payload, posts the document, records
    the document's id beside the reservation and commits. Calls run side by side, any of
    them may be rolled back at any point, and a committed answer may be lost on its way
    to the caller, who then tries again. The kind of request is left open. */
module Posting {
  import opened Text

  /** How requests of one kind reach the database: which pass their own validation, the
      UUID their id is read as, and the hash of their payload. */
  datatype Environment<!R, !D> = Environment(accepts: R -> bool, uuid: R -> Option<int>, hash: R -> D)

  /** A committed row of `core.request_idempotency`. The column for the result is
      nullable. */
  datatype Entry<D> = Entry(hash: D, result: Option<int>)

  /** A transaction that inserted a reservation and has not ended. */
  datatype Transaction<R, D> = Transaction(
    request: R,
    entry: Entry<D>,
    document: Option<int>)

  datatype Outcome = Done(document: int) | Conflict | StillProcessing | Failed

  datatype Answer<R> = Answer(request: R, outcome: Outcome)

  datatype State<R, D> = State(
    entries: map<int, Entry<D>>,
    documents: map<int, R>,
    active: map<int, Transaction<R, D>>,
    sequence: int,
    answers: seq<Answer<R>>)

  /** The reservation is a unique row, so a running transaction is known by its UUID. */
  datatype Step<R> =
    | Refuse(request: R)
    | Reserve(request: R)
    | Replay(request: R)
    | Post(uuid: int)
    | Record(uuid: int)
    | Commit(uuid: int, delivered: bool)
    | RollBack(uuid: int)

  // ---------------------------------------------------------------------------
  // The steps
  // ---------------------------------------------------------------------------

  /** The request gets as far as the reservation. */
  ghost predicate Sendable<R, D>(env: Environment<R, D>, r: R)
  {
    env.accepts(r) && env.uuid(r).Some?
  }

  /** The branch of the reservation that finds a committed row. */
  ghost function ReplayOutcome<D>(entry: Entry<D>, hash: D): Outcome
  {
    if entry.hash != hash then Conflict
    else match entry.result
         case None => StillProcessing
         case Some(document) => Done(document)
  }

  /** An insert waits while another transaction holds the same key uncommitted, and
      then either succeeds or finds the row that transaction committed. */
  ghost predicate Enabled<R, D>(env: Environment<R, D>, s: State<R, D>, step: Step<R>)
  {
    match step
    case Refuse(_) => true
    case Reserve(r) => Sendable(env, r) && env.uuid(r).value !in s.entries && env.uuid(r).value !in s.active
    case Replay(r) => Sendable(env, r) && env.uuid(r).value in s.entries
    case Post(uuid) => uuid in s.active && s.active[uuid].document.None?
    case Record(uuid) => uuid in s.active && s.active[uuid].document.Some? && s.active[uuid].entry.result.None?
    case Commit(uuid, _) => uuid in s.active && s.active[uuid].entry.result.Some?
    case RollBack(uuid) => uuid in s.active
  }

  ghost function Answered<R, D>(s: State<R, D>, request: R, outcome: Outcome): State<R, D>
  {
    s.(answers := s.answers + [Answer(request, outcome)])
  }

  ghost function Committed<R, D>(s: State<R, D>, uuid: int): State<R, D>
    requires uuid in s.active
  {
    var t := s.active[uuid];
    var documents := if t.document.Some? then s.documents[t.document.value := t.request] else s.documents;
    s.(entries := s.entries[uuid := t.entry], documents := documents, active := s.active - {uuid})
  }

  ghost function Apply<R, D>(env: Environment<R, D>, s: State<R, D>, step: Step<R>): State<R, D>
    requires Enabled(env, s, step)
  {
    match step
    case Refuse(r) => Answered(s, r, Failed)
    case Reserve(r) =>
      var t := Transaction(r, Entry(env.hash(r), None), None);
      s.(active := s.active[env.uuid(r).value := t])
    case Replay(r) => Answered(s, r, ReplayOutcome(s.entries[env.uuid(r).value], env.hash(r)))
    case Post(uuid) =>
      s.(active := s.active[uuid := s.active[uuid].(document := Some(s.sequence))], sequence := s.sequence + 1)
    case Record(uuid) =>
      var t := s.active[uuid];
      s.(active := s.active[uuid := t.(entry := Entry(t.entry.hash, t.document))])
    case Commit(uuid, delivered) =>
      var t := s.active[uuid];
      Answered(Committed(s, uuid), t.request, if delivered then Done(t.entry.result.value) else Failed)
    case RollBack(uuid) => Answered(s.(active := s.active - {uuid}), s.active[uuid].request, Failed)
  }

  ghost predicate IsRun<R, D>(env: Environment<R, D>, s: State<R, D>, steps: seq<Step<R>>)
    decreases |steps|
  {
    |steps| == 0 || (Enabled(env, s, steps[0]) && IsRun(env, Apply(env, s, steps[0]), steps[1..]))
  }

  ghost function Run<R, D>(env: Environment<R, D>, s: State<R, D>, steps: seq<Step<R>>): State<R, D>
    requires IsRun(env, s, steps)
    decreases |steps|
  {
    if |steps| == 0 then s else Run(env, Apply(env, s, steps[0]), steps[1..])
  }

  ghost function Start<R, D>(): State<R, D> { State(map[], map[], map[], 1, []) }

  // ---------------------------------------------------------------------------
  // What every step keeps
  // ---------------------------------------------------------------------------

  /** A committed reservation has a result, and that document was posted for a request
      with this id and this hash. */
  ghost predicate GoodEntry<R, D>(env: Environment<R, D>, s: State<R, D>, uuid: int)
    requires uuid in s.entries
  {
    var e := s.entries[uuid];
    e.result.Some? && e.result.value in s.documents
    && env.uuid(s.documents[e.result.value]) == Some(uuid)
    && env.hash(s.documents[e.result.value]) == e.hash
  }

  /** A committed document is the result of its own request id. */
  ghost predicate GoodDocument<R, D>(env: Environment<R, D>, s: State<R, D>, document: int)
    requires document in s.documents
  {
    var uuid := env.uuid(s.documents[document]);
    document < s.sequence && uuid.Some? && uuid.value in s.entries
    && s.entries[uuid.value].result == Some(document)
  }

  ghost predicate GoodTransaction<R, D>(env: Environment<R, D>, s: State<R, D>, uuid: int)
    requires uuid in s.active
  {
    var t := s.active[uuid];
    env.accepts(t.request) && env.uuid(t.request) == Some(uuid) && env.hash(t.request) == t.entry.hash && uuid !in s.entries
    && (t.entry.result.Some? ==> t.entry.result == t.document)
    && (t.document.Some? ==> t.document.value < s.sequence && t.document.value !in s.documents)
  }

  /** Two running transactions never hold the same document id. */
  ghost predicate Apart<R, D>(s: State<R, D>, x: int, y: int)
    requires x in s.active && y in s.active
  {
    s.active[x].document.Some? ==> s.active[x].document != s.active[y].document
  }

  ghost predicate GoodAnswer<R, D>(env: Environment<R, D>, s: State<R, D>, a: Answer<R>)
  {
    match a.outcome
    case Failed => true
    case StillProcessing => false
    case Conflict =>
      env.uuid(a.request).Some? && env.uuid(a.request).value in s.entries
      && s.entries[env.uuid(a.request).value].hash != env.hash(a.request)
    case Done(document) =>
      env.accepts(a.request) && env.uuid(a.request).Some? && env.uuid(a.request).value in s.entries
      && s.entries[env.uuid(a.request).value] == Entry(env.hash(a.request), Some(document))
  }

  ghost predicate Stored<R, D>(env: Environment<R, D>, s: State<R, D>)
  {
    && (forall uuid :: uuid in s.entries ==> GoodEntry(env, s, uuid))
    && (forall d :: d in s.documents ==> GoodDocument(env, s, d))
  }

  ghost predicate Running<R, D>(env: Environment<R, D>, s: State<R, D>)
  {
    && (forall x :: x in s.active ==> GoodTransaction(env, s, x))
    && (forall x, y :: x in s.active && y in s.active && x != y ==> Apart(s, x, y))
  }

  ghost predicate Told<R, D>(env: Environment<R, D>, s: State<R, D>)
  {
    forall i :: 0 <= i < |s.answers| ==> GoodAnswer(env, s, s.answers[i])
  }

  ghost predicate Consistent<R, D>(env: Environment<R, D>, s: State<R, D>)
  {
    Stored(env, s) && Running(env, s) && Told(env, s)
  }

  /** Committed rows, documents and answers stay as they are. */
  ghost predicate Extends<R, D>(s: State<R, D>, t: State<R, D>)
  {
    && (forall uuid :: uuid in s.entries ==> uuid in t.entries && t.entries[uuid] == s.entries[uuid])
    && (forall d :: d in s.documents ==> d in t.documents && t.documents[d] == s.documents[d])
    && s.answers <= t.answers
  }

  lemma AnswerStaysGood<R, D>(env: Environment<R, D>, s: State<R, D>, t: State<R, D>, a: Answer<R>)
    requires GoodAnswer(env, s, a) && Extends(s, t)
    ensures GoodAnswer(env, t, a)
  {
    if a.outcome.Conflict? || a.outcome.Done? {
      var uuid: int := env.uuid(a.request).value;
      assert uuid in s.entries;
      assert t.entries[uuid] == s.entries[uuid];
    }
  }

  lemma ToldKept<R, D>(env: Environment<R, D>, s: State<R, D>, t: State<R, D>, a: Answer<R>)
    requires Told(env, s) && Extends(s, t)
    requires t.answers == s.answers || (t.answers == s.answers + [a] && GoodAnswer(env, t, a))
    ensures Told(env, t)
  {
    forall i | 0 <= i < |t.answers|
      ensures GoodAnswer(env, t, t.answers[i])
    {
      if i < |s.answers| { AnswerStaysGood(env, s, t, s.answers[i]); }
    }
  }

  /** The rows and documents a step other than a commit leaves alone stay good. */
  lemma StoredKept<R, D>(env: Environment<R, D>, s: State<R, D>, t: State<R, D>)
    requires Stored(env, s) && t.entries == s.entries && t.documents == s.documents && s.sequence <= t.sequence
    ensures Stored(env, t)
  {
  }

  /** One transaction is replaced by a good one that shares no document with another. */
  lemma RunningKept<R, D>(env: Environment<R, D>, s: State<R, D>, t: State<R, D>, uuid: int)
    requires Running(env, s) && t.entries == s.entries && t.documents == s.documents && s.sequence <= t.sequence
    requires uuid in t.active && t.active == s.active[uuid := t.active[uuid]] && GoodTransaction(env, t, uuid)
    requires var d := t.active[uuid].document;
      d.None? || d == Some(s.sequence) || (uuid in s.active && d == s.active[uuid].document)
    ensures Running(env, t)
  {
  }

  lemma CommitKeepsStored<R, D>(env: Environment<R, D>, s: State<R, D>, uuid: int)
    requires Stored(env, s) && Running(env, s) && uuid in s.active && s.active[uuid].entry.result.Some?
    ensures Stored(env, Committed(s, uuid)) && Extends(s, Committed(s, uuid))
  {
  }

  lemma CommitKeepsRunning<R, D>(env: Environment<R, D>, s: State<R, D>, uuid: int)
    requires Running(env, s) && uuid in s.active
    ensures Running(env, Committed(s, uuid))
  {
  }

  lemma RunningAfterEnd<R, D>(env: Environment<R, D>, s: State<R, D>, uuid: int)
    requires Running(env, s)
    ensures Running(env, s.(active := s.active - {uuid}))
  {
  }

  /** Adding an answer changes nothing but the answers. */
  lemma AnswerKeeps<R, D>(env: Environment<R, D>, s: State<R, D>, request: R, outcome: Outcome)
    requires Consistent(env, s) && GoodAnswer(env, s, Answer(request, outcome))
    ensures Consistent(env, Answered(s, request, outcome)) && Extends(s, Answered(s, request, outcome))
  {
  }

  lemma ReplaceKeeps<R, D>(env: Environment<R, D>, s: State<R, D>, step: Step<R>)
    requires Consistent(env, s) && Enabled(env, s, step) && (step.Reserve? || step.Post? || step.Record?)
    ensures Consistent(env, Apply(env, s, step)) && Extends(s, Apply(env, s, step))
  {
    var next := Apply(env, s, step);
    var uuid := if step.Reserve? then env.uuid(step.request).value else step.uuid;
    assert uuid in s.active ==> GoodTransaction(env, s, uuid);
    assert s.sequence in s.documents ==> GoodDocument(env, s, s.sequence);
    assert GoodTransaction(env, next, uuid);
    StoredKept(env, s, next);
    RunningKept(env, s, next, uuid);
    assert Told(env, next) by {
      forall i | 0 <= i < |s.answers|
        ensures GoodAnswer(env, next, next.answers[i])
      {
        assert GoodAnswer(env, s, s.answers[i]);
      }
    }
  }

  lemma CommitKeeps<R, D>(env: Environment<R, D>, s: State<R, D>, uuid: int)
    requires Consistent(env, s) && uuid in s.active && s.active[uuid].entry.result.Some?
    ensures Consistent(env, Committed(s, uuid)) && Extends(s, Committed(s, uuid))
    ensures GoodAnswer(env, Committed(s, uuid), Answer(s.active[uuid].request, Done(s.active[uuid].entry.result.value)))
  {
    var next := Committed(s, uuid);
    assert GoodTransaction(env, s, uuid);
    CommitKeepsStored(env, s, uuid);
    CommitKeepsRunning(env, s, uuid);
    ToldKept(env, s, next, Answer(s.active[uuid].request, Failed));
  }

  lemma StepKeeps<R, D>(env: Environment<R, D>, s: State<R, D>, step: Step<R>)
    requires Consistent(env, s) && Enabled(env, s, step)
    ensures Consistent(env, Apply(env, s, step)) && Extends(s, Apply(env, s, step))
  {
    match step
    case Refuse(r) => AnswerKeeps(env, s, r, Failed);
    case Replay(r) =>
      assert GoodEntry(env, s, env.uuid(r).value);
      AnswerKeeps(env, s, r, ReplayOutcome(s.entries[env.uuid(r).value], env.hash(r)));
    case Commit(uuid, delivered) =>
      CommitKeeps(env, s, uuid);
      var t := s.active[uuid];
      AnswerKeeps(env, Committed(s, uuid), t.request, if delivered then Done(t.entry.result.value) else Failed);
    case RollBack(uuid) =>
      var t := s.(active := s.active - {uuid});
      RunningAfterEnd(env, s, uuid);
      StoredKept(env, s, t);
      ToldKept(env, s, t, Answer(s.active[uuid].request, Failed));
      AnswerKeeps(env, t, s.active[uuid].request, Failed);
    case _ => ReplaceKeeps(env, s, step);
  }

  lemma {:induction false} RunKeeps<R, D>(env: Environment<R, D>, s: State<R, D>, steps: seq<Step<R>>)
    requires Consistent(env, s) && IsRun(env, s, steps)
    ensures Consistent(env, Run(env, s, steps)) && Extends(s, Run(env, s, steps))
    decreases |steps|
  {
    if |steps| > 0 {
      StepKeeps(env, s, steps[0]);
      RunKeeps(env, Apply(env, s, steps[0]), steps[1..]);
    }
  }

  // ---------------------------------------------------------------------------
  // Exactly once
  // ---------------------------------------------------------------------------

  /** A state that some run reaches. */
  ghost predicate Reached<R, D>(env: Environment<R, D>, s: State<R, D>, steps: seq<Step<R>>)
  {
    IsRun(env, Start(), steps) && s == Run(env, Start(), steps)
  }

  /** Over any run, two answers with a document for the same request id name the same
      document, and their payloads have the same hash. */
  lemma AnswersAgree<R, D>(env: Environment<R, D>, s: State<R, D>, steps: seq<Step<R>>, i: nat, k: nat)
    requires Reached(env, s, steps) && i < |s.answers| && k < |s.answers|
    requires s.answers[i].outcome.Done? && s.answers[k].outcome.Done?
    requires env.uuid(s.answers[i].request) == env.uuid(s.answers[k].request)
    ensures env.accepts(s.answers[i].request) && env.accepts(s.answers[k].request)
    ensures s.answers[i].outcome == s.answers[k].outcome
    ensures env.hash(s.answers[i].request) == env.hash(s.answers[k].request)
  {
    RunKeeps(env, Start(), steps);
    assert GoodAnswer(env, s, s.answers[i]) && GoodAnswer(env, s, s.answers[k]);
  }

  /** A retry of an answered request that gets through to the reservation finds the
      committed row: it is given the same document when its payload has the same hash,
      and a conflict when it has not. It cannot reserve the id a second time. */
  lemma RetryAnswer<R, D>(env: Environment<R, D>, s: State<R, D>, steps: seq<Step<R>>, i: nat, retry: R)
    requires Reached(env, s, steps) && i < |s.answers| && s.answers[i].outcome.Done?
    requires env.accepts(retry) && env.uuid(retry) == env.uuid(s.answers[i].request)
    ensures env.accepts(s.answers[i].request)
    ensures !Enabled(env, s, Reserve(retry)) && Enabled(env, s, Replay(retry))
    ensures Apply(env, s, Replay(retry)) == Answered(s, retry,
              if env.hash(retry) == env.hash(s.answers[i].request) then s.answers[i].outcome else Conflict)
  {
    RunKeeps(env, Start(), steps);
    assert GoodAnswer(env, s, s.answers[i]);
  }

  /** Committed documents and accepted request ids are in bijection, also when the
      answer of the commit was lost: the result of an id is a document posted for that
      id with that hash, and a document is the result of its own id and of no other. */
  lemma DocumentsMatchRequests<R, D>(env: Environment<R, D>, s: State<R, D>, steps: seq<Step<R>>, uuid: int, d: int)
    requires Reached(env, s, steps)
    ensures uuid in s.entries ==>
              s.entries[uuid].result.Some? && s.entries[uuid].result.value in s.documents
              && env.hash(s.documents[s.entries[uuid].result.value]) == s.entries[uuid].hash
    ensures uuid in s.entries && d in s.documents ==>
              (s.entries[uuid].result == Some(d) <==> env.uuid(s.documents[d]) == Some(uuid))
    ensures d in s.documents ==> env.uuid(s.documents[d]).Some? && env.uuid(s.documents[d]).value in s.entries
  {
    RunKeeps(env, Start(), steps);
    assert uuid in s.entries ==> GoodEntry(env, s, uuid);
    assert d in s.documents ==> GoodDocument(env, s, d);
  }

  /** No call is ever told that its request is still being processed: a committed
      reservation always carries its result. */
  lemma NeverStillProcessing<R, D>(env: Environment<R, D>, s: State<R, D>, steps: seq<Step<R>>, i: nat)
    requires Reached(env, s, steps) && i < |s.answers|
    ensures !s.answers[i].outcome.StillProcessing?
  {
    RunKeeps(env, Start(), steps);
    assert GoodAnswer(env, s, s.answers[i]);
  }

  /** A transaction that is rolled back leaves no trace but its answer and the numbers
      it drew from the sequence, so the same request can be reserved again. */
  lemma RollBackForgets<R, D>(env: Environment<R, D>, s: State<R, D>, steps: seq<Step<R>>, uuid: int)
    requires Reached(env, s, steps) && Enabled(env, s, RollBack(uuid))
    ensures Apply(env, s, RollBack(uuid)).entries == s.entries
    ensures Apply(env, s, RollBack(uuid)).documents == s.documents
    ensures Enabled(env, Apply(env, s, RollBack(uuid)), Reserve(s.active[uuid].request))
  {
    RunKeeps(env, Start(), steps);
    assert GoodTransaction(env, s, uuid);
  }

  // ---------------------------------------------------------------------------
  // What a call can do
  // ---------------------------------------------------------------------------

  /** The transaction of a call that nothing disturbs. */
  function Undisturbed<R>(r: R, uuid: int, delivered: bool): seq<Step<R>>
  {
    [Reserve(r), Post(uuid), Record(uuid), Commit(uuid, delivered)]
  }

  ghost function Posted<R, D>(env: Environment<R, D>, s: State<R, D>, r: R, uuid: int): State<R, D>
  {
    s.(entries := s.entries[uuid := Entry(env.hash(r), Some(s.sequence))], documents := s.documents[s.sequence := r],
       sequence := s.sequence + 1)
  }

  lemma UndisturbedRuns<R, D>(env: Environment<R, D>, s: State<R, D>, r: R, uuid: int, delivered: bool)
    requires env.accepts(r) && env.uuid(r) == Some(uuid) && uuid !in s.entries && uuid !in s.active
    ensures IsRun(env, s, Undisturbed(r, uuid, delivered))
    ensures Run(env, s, Undisturbed(r, uuid, delivered))
         == Answered(Posted(env, s, r, uuid), r, if delivered then Done(s.sequence) else Failed)
  {
    var s1 := Apply(env, s, Reserve(r));
    var s2 := Apply(env, s1, Post(uuid));
    var s3 := Apply(env, s2, Record(uuid));
    var s4 := Apply(env, s3, Commit(uuid, delivered));
    var steps := Undisturbed(r, uuid, delivered);
    assert s1.active - {uuid} == s.active - {uuid} == s.active;
    assert s3.active - {uuid} == s.active;
    assert IsRun(env, s4, []) && Run(env, s4, []) == s4;
    assert steps[1..][1..][1..][1..] == [];
    assert steps[3..] == [Commit(uuid, delivered)] && steps[1..][1..][1..] == steps[3..];
    assert IsRun(env, s3, steps[3..]) && Run(env, s3, steps[3..]) == s4;
    assert steps[1..][1..] == steps[2..] && steps[2..][1..] == steps[3..];
    assert IsRun(env, s2, steps[2..]) && Run(env, s2, steps[2..]) == s4;
    assert IsRun(env, s1, steps[1..]) && Run(env, s1, steps[1..]) == s4;
  }

  /** In every state reached, a request whose id is new and not in use can be posted: it gets
      a document that was not there before, its hash and that document are stored under its
      id, nothing else changes, and it is answered with the document. If the answer is lost,
      the same request can be sent again and is then answered with that document. */
  lemma FreshIsPosted<R, D>(env: Environment<R, D>, s: State<R, D>, steps: seq<Step<R>>, r: R, uuid: int)
    requires Reached(env, s, steps)
    requires env.accepts(r) && env.uuid(r) == Some(uuid) && uuid !in s.entries && uuid !in s.active
    ensures s.sequence !in s.documents
    ensures forall delivered :: IsRun(env, s, Undisturbed(r, uuid, delivered))
    ensures var t := Run(env, s, Undisturbed(r, uuid, true));
      && t.entries == s.entries[uuid := Entry(env.hash(r), Some(s.sequence))]
      && t.documents == s.documents[s.sequence := r] && t.active == s.active
      && t.answers == s.answers + [Answer(r, Done(s.sequence))]
    ensures var t := Run(env, s, Undisturbed(r, uuid, false));
      && t.answers == s.answers + [Answer(r, Failed)]
      && Enabled(env, t, Replay(r))
      && Apply(env, t, Replay(r)).answers == t.answers + [Answer(r, Done(s.sequence))]
  {
    RunKeeps(env, Start(), steps);
    assert s.sequence in s.documents ==> GoodDocument(env, s, s.sequence);
    forall delivered ensures IsRun(env, s, Undisturbed(r, uuid, delivered)) {
      UndisturbedRuns(env, s, r, uuid, delivered);
    }
    UndisturbedRuns(env, s, r, uuid, true);
    UndisturbedRuns(env, s, r, uuid, false);
  }

  /** A transaction that has begun ends only with its own commit or its own roll-back, both
      of which can come about; until then it keeps its request and hash. */
  lemma RunningEnds<R, D>(env: Environment<R, D>, s: State<R, D>, step: Step<R>, uuid: int)
    requires uuid in s.active && Enabled(env, s, step)
    ensures Enabled(env, s, RollBack(uuid))
    ensures step == RollBack(uuid) || step == Commit(uuid, true) || step == Commit(uuid, false) <==>
            uuid !in Apply(env, s, step).active
    ensures uuid in Apply(env, s, step).active ==>
              Apply(env, s, step).active[uuid].request == s.active[uuid].request
              && Apply(env, s, step).active[uuid].entry.hash == s.active[uuid].entry.hash
  {
  }

  /** A conflict is answered only to a request under whose id a document was committed for
      another payload. */
  lemma ConflictIsReal<R, D>(env: Environment<R, D>, s: State<R, D>, steps: seq<Step<R>>, i: nat) returns (d: int)
    requires Reached(env, s, steps) && i < |s.answers| && s.answers[i].outcome.Conflict?
    ensures d in s.documents && env.uuid(s.documents[d]) == env.uuid(s.answers[i].request)
    ensures env.hash(s.documents[d]) != env.hash(s.answers[i].request)
  {
    RunKeeps(env, Start(), steps);
    assert GoodAnswer(env, s, s.answers[i]);
    var uuid := env.uuid(s.answers[i].request).value;
    assert GoodEntry(env, s, uuid);
    d := s.entries[uuid].result.value;
  }
}
