/** The daily-backup timer of the user interface: two variables of a module, set and
    cleared by an effect that may run, be cleaned up and be mounted again in any order. */
module DailyBackupTimer {
  import opened Text

  type TimerId = nat

  /** What happens to the page: the effect runs with the current token, one of its
      clean-ups runs, or time passes until a timer fires. */
  datatype Event = Effect(token: string) | CleanUp | Fire(timer: TimerId)

  /** The module's variables; the browser's timers that have neither fired nor been
      cleared, each with the token its callback holds; and the backup calls made. */
  datatype Page = Page(
    timer: Option<TimerId>,
    done: bool,
    scheduled: map<TimerId, string>,
    next: TimerId,
    calls: seq<string>)

  const FRESH := Page(None, false, map[], 1, [])

  function AfterEffect(p: Page, token: string): Page
  {
    if token == "" || p.done || p.timer.Some? then p
    else p.(timer := Some(p.next), scheduled := p.scheduled[p.next := token], next := p.next + 1)
  }

  function AfterCleanUp(p: Page): Page
  {
    match p.timer
    case None => p
    case Some(id) => p.(timer := None, scheduled := p.scheduled - {id})
  }

  /** A timer that is no longer scheduled does not fire. */
  function AfterFire(p: Page, id: TimerId): Page
  {
    if id !in p.scheduled then p
    else p.(timer := None, done := true, scheduled := p.scheduled - {id}, calls := p.calls + [p.scheduled[id]])
  }

  function After(p: Page, e: Event): Page
  {
    match e
    case Effect(token) => AfterEffect(p, token)
    case CleanUp => AfterCleanUp(p)
    case Fire(id) => AfterFire(p, id)
  }

  function Run(p: Page, events: seq<Event>): Page
    decreases |events|
  {
    if |events| == 0 then p else Run(After(p, events[0]), events[1..])
  }

  /** The scheduled timers are exactly the one the variable holds; ids are not reused; and
      a call was made exactly when the backup is done. */
  ghost predicate Tidy(p: Page)
  {
    && p.scheduled.Keys == (match p.timer case None => {} case Some(id) => {id})
    && (p.timer.Some? ==> p.timer.value < p.next)
    && (p.done ==> p.timer.None?)
    && |p.calls| == (if p.done then 1 else 0)
  }

  lemma StepTidy(p: Page, e: Event)
    requires Tidy(p)
    ensures Tidy(After(p, e))
    ensures p.done ==> After(p, e) == p
  {
  }

  lemma {:induction false} RunTidy(p: Page, events: seq<Event>)
    requires Tidy(p)
    ensures Tidy(Run(p, events)) && (p.done ==> Run(p, events) == p)
    decreases |events|
  {
    if |events| > 0 {
      StepTidy(p, events[0]);
      RunTidy(After(p, events[0]), events[1..]);
    }
  }

  /** Over every sequence of effects, clean-ups, remounts, token changes and timers: the
      backup is called at most once, the pending timers are always the one that the
      variable holds, none is left once it is done, and then nothing changes any more. */
  lemma AtMostOnce(events: seq<Event>, later: seq<Event>)
    ensures var p := Run(FRESH, events);
      && |p.calls| <= 1
      && p.scheduled.Keys == (match p.timer case None => {} case Some(id) => {id})
      && (p.done <==> |p.calls| == 1)
      && (p.done ==> p.scheduled == map[] && Run(p, later) == p)
  {
    RunTidy(FRESH, events);
    RunTidy(Run(FRESH, events), later);
  }

  /** The tokens that are scheduled or were called with are those of signed-in effects. */
  ghost predicate TokensFrom(p: Page, tokens: set<string>)
  {
    && (forall id :: id in p.scheduled ==> p.scheduled[id] != "" && p.scheduled[id] in tokens)
    && (forall token :: token in p.calls ==> token != "" && token in tokens)
  }

  lemma {:induction false} RunTokens(p: Page, events: seq<Event>, tokens: set<string>)
    requires TokensFrom(p, tokens) && forall e :: e in events && e.Effect? ==> e.token in tokens
    ensures TokensFrom(Run(p, events), tokens)
    decreases |events|
  {
    if |events| > 0 {
      assert events[0] in events;
      RunTokens(After(p, events[0]), events[1..], tokens);
    }
  }

  /** A call is only ever made for a session whose effect ran, and never without one. */
  lemma CallsAreSignedIn(events: seq<Event>, token: string)
    requires token in Run(FRESH, events).calls
    ensures token != "" && Effect(token) in events
  {
    RunTokens(FRESH, events, set e | e in events && e.Effect? :: e.token);
  }

  /** After a clean-up nothing is pending, no timer can fire any more, and what was called or
      is done stays. */
  lemma CleanUpDisarms(events: seq<Event>, id: TimerId)
    ensures var before := Run(FRESH, events);
      var p := After(before, CleanUp);
      && p.timer.None? && p.scheduled == map[] && After(p, Fire(id)) == p
      && p.calls == before.calls && p.done == before.done
  {
    RunTidy(FRESH, events);
    assert Tidy(Run(FRESH, events));
  }

  /** As long as it is not done, a signed-in effect makes sure that exactly one timer is
      pending, and letting it fire makes the one call. */
  lemma EffectArms(events: seq<Event>, token: string)
    requires !Run(FRESH, events).done && token != ""
    ensures var p := After(Run(FRESH, events), Effect(token));
      && p.timer.Some? && p.scheduled.Keys == {p.timer.value}
      && |After(p, Fire(p.timer.value)).calls| == 1
      && (Run(FRESH, events).timer.None? ==> After(p, Fire(p.timer.value)).calls == [token])
  {
    RunTidy(FRESH, events);
    StepTidy(Run(FRESH, events), Effect(token));
  }

  // ---------------------------------------------------------------------------
  // The variables themselves
  // ---------------------------------------------------------------------------

  class TimerModule {
    var dailyBackupTimer: Option<TimerId>
    var dailyBackupDone: bool
    var scheduled: map<TimerId, string>
    var nextTimer: TimerId
    var calls: seq<string>

    ghost function State(): Page
      reads this
    {
      Page(dailyBackupTimer, dailyBackupDone, scheduled, nextTimer, calls)
    }

    constructor ()
      ensures State() == FRESH
    {
      dailyBackupTimer, dailyBackupDone, scheduled, nextTimer, calls := None, false, map[], 1, [];
    }

    method SetTimeout(token: string) returns (id: TimerId)
      modifies this`scheduled, this`nextTimer
      ensures id == old(nextTimer) && nextTimer == id + 1 && scheduled == old(scheduled)[id := token]
    {
      id := nextTimer;
      scheduled := scheduled[id := token];
      nextTimer := id + 1;
    }

    method ClearTimeout(id: TimerId)
      modifies this`scheduled
      ensures scheduled == old(scheduled) - {id}
    {
      scheduled := scheduled - {id};
    }

    /** The effect. An effect that arms nothing has no clean-up. */
    method Effect(token: string) returns (cleanUp: bool)
      modifies this
      ensures State() == AfterEffect(old(State()), token)
      ensures cleanUp <==> State() != old(State())
    {
      if token == "" || dailyBackupDone || dailyBackupTimer != None {
        return false;
      }
      var id := SetTimeout(token);
      dailyBackupTimer := Some(id);
      cleanUp := true;
    }

    method CleanUp()
      modifies this
      ensures State() == AfterCleanUp(old(State()))
      ensures dailyBackupTimer == None && dailyBackupDone == old(dailyBackupDone) && calls == old(calls)
      ensures scheduled == match old(dailyBackupTimer) case None => old(scheduled) case Some(id) => old(scheduled) - {id}
    {
      if dailyBackupTimer != None {
        ClearTimeout(dailyBackupTimer.value);
        dailyBackupTimer := None;
      }
    }

    /** The browser runs the callback of a timer that is due. */
    method Fire(id: TimerId)
      modifies this
      ensures State() == AfterFire(old(State()), id)
    {
      if id in scheduled {
        var token := scheduled[id];
        scheduled := scheduled - {id};
        dailyBackupDone := true;
        dailyBackupTimer := None;
        calls := calls + [token];
      }
    }

    /** Any sequence of events on a fresh page. */
    method Handle(events: seq<Event>)
      requires State() == FRESH
      modifies this
      ensures State() == Run(FRESH, events) && |calls| <= 1
      ensures dailyBackupDone ==> scheduled == map[]
    {
      ghost var rest := events;
      for n := 0 to |events|
        invariant rest == events[n..] && Run(State(), rest) == Run(FRESH, events)
      {
        assert rest[0] == events[n] && rest[1..] == events[n + 1..];
        rest := events[n + 1..];
        match events[n]
        case Effect(token) => var _ := Effect(token);
        case CleanUp => CleanUp();
        case Fire(id) => Fire(id);
      }
      AtMostOnce(events, []);
    }
  }
}
