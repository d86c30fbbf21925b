/** The notify-then-poll gate for a missing login (riglib/github_auth.py). */
module AuthGate {

  // ---- settings ----

  /** An environment variable: unset or blank, not a number, or a finite number. */
  datatype Setting = Unset | Malformed | Number(value: real)

  function Max(x: real, y: real): real {
    if x >= y then x else y
  }

  function Min(x: real, y: real): real {
    if x <= y then x else y
  }

  function WaitBudget(s: Setting): (budget: real)
    ensures budget >= 0.0 && (!s.Number? ==> budget == 0.0)
    ensures s.Number? ==> budget >= s.value && (budget > 0.0 ==> budget == s.value)
  {
    if s.Number? then Max(0.0, s.value) else 0.0
  }

  function PollInterval(s: Setting): (interval: real)
    ensures interval >= 1.0 && (!s.Number? ==> interval == 5.0)
    ensures s.Number? ==> interval >= s.value && (interval > 1.0 ==> interval == s.value)
  {
    if s.Number? then Max(1.0, s.value) else 5.0
  }

  /** `n` intervals, one after the other. */
  function Times(n: nat, interval: real): real {
    if n == 0 then 0.0 else Times(n - 1, interval) + interval
  }

  lemma {:induction false} TimesIsProduct(n: nat, interval: real)
    ensures Times(n, interval) == n as real * interval
  {
    if n > 0 {
      TimesIsProduct(n - 1, interval);
      assert n as real * interval == (n - 1) as real * interval + interval;
    }
  }

  /** The least number of intervals that fills the budget: the quotient rounded up. */
  function Rounds(budget: real, interval: real): (n: nat)
    requires interval >= 1.0
    ensures budget <= Times(n, interval)
    ensures forall k: nat :: k < n ==> Times(k, interval) < budget
    decreases budget
  {
    if budget <= 0.0 then 0
    else
      var rest := Rounds(budget - interval, interval);
      assert forall k: nat :: k <= rest ==> Times(k, interval) < budget;
      rest + 1
  }

  /** After `rounds` sleeps either so many intervals passed or the whole budget did. */
  ghost predicate Paced(rounds: nat, interval: real, budget: real, passed: real) {
    Times(rounds, interval) <= passed || budget <= passed
  }

  lemma {:induction false} TimesGrows(m: nat, n: nat, interval: real)
    requires interval >= 1.0 && m <= n
    ensures Times(m, interval) <= Times(n, interval)
  {
    if m < n {
      TimesGrows(m, n - 1, interval);
    }
  }

  /** A sleep that starts before the deadline starts before the budget's last round is over. */
  lemma PaceStep(rounds: nat, interval: real, budget: real, checked: real, asleep: real, awake: real)
    requires budget >= 0.0 && interval >= 1.0 && Paced(rounds, interval, budget, checked)
    requires checked < budget && checked <= asleep
    requires awake >= asleep + Min(interval, Max(0.0, budget - asleep))
    ensures rounds < Rounds(budget, interval)
    ensures Paced(rounds + 1, interval, budget, awake)
  {
    var n := Rounds(budget, interval);
    if n <= rounds {
      TimesGrows(n, rounds, interval);
    }
  }

  /** Sleep requested so far fits both the time that passed and the budget. */
  ghost predicate Fits(slept: real, passed: real, budget: real) {
    slept <= passed && slept <= budget
  }

  lemma FitsStep(slept: real, interval: real, budget: real, asleep: real, awake: real)
    requires interval >= 1.0 && Fits(slept, asleep, budget)
    requires awake >= asleep + Min(interval, Max(0.0, budget - asleep))
    ensures Fits(slept + Min(interval, Max(0.0, budget - asleep)), awake, budget)
  {
  }

  // ---- the record of a process ----

  datatype Event =
    | Cleared
    | Notified(kind: string)
    | Probed(kind: string, ok: bool)
    | Slept(kind: string, seconds: real)
    | GaveUp(kind: string)

  datatype Log = Fresh | After(before: Log, last: Event)

  function Events(log: Log): seq<Event> {
    if log.Fresh? then [] else Events(log.before) + [log.last]
  }

  /** The kinds given up on since the log was last cleared. */
  function GivenUp(log: Log): set<string> {
    if log.Fresh? then {}
    else if log.last.Cleared? then {}
    else if log.last.GaveUp? then GivenUp(log.before) + {log.last.kind}
    else GivenUp(log.before)
  }

  /** Does the event bother the user again about `kind`: a push, a wait or one more giving up? */
  predicate Pesters(e: Event, kind: string) {
    (e.GaveUp? || e.Notified? || e.Slept?) && e.kind == kind
  }

  predicate Allowed(givenUp: set<string>, e: Event) {
    (e.GaveUp? || e.Notified? || e.Slept?) ==> e.kind !in givenUp
  }

  ghost predicate Disciplined(log: Log) {
    log.After? ==> Disciplined(log.before) && Allowed(GivenUp(log.before), log.last)
  }

  /** Some waiting for `kind` timed out, and no reset came after it. */
  ghost predicate TimedOutSinceReset(log: Log, kind: string) {
    exists i: nat :: i < |Events(log)| && Events(log)[i] == GaveUp(kind) && NoResetAfter(log, i)
  }

  ghost predicate NoResetAfter(log: Log, i: nat) {
    forall c :: i < c < |Events(log)| ==> Events(log)[c] != Cleared
  }

  /** The remembered kinds are exactly those whose waiting timed out since the last reset. */
  lemma {:induction false} RememberedExactly(log: Log, kind: string)
    ensures kind in GivenUp(log) <==> TimedOutSinceReset(log, kind)
  {
    if log.After? {
      var n := |Events(log.before)|;
      assert Events(log)[n] == log.last && Events(log)[..n] == Events(log.before);
      RememberedExactly(log.before, kind);
      if TimedOutSinceReset(log.before, kind) && !log.last.Cleared? {
        var i: nat :| i < n && Events(log.before)[i] == GaveUp(kind) && NoResetAfter(log.before, i);
        assert Events(log)[i] == GaveUp(kind) && NoResetAfter(log, i);
      }
      if TimedOutSinceReset(log, kind) && log.last != GaveUp(kind) {
        var i: nat :| i < |Events(log)| && Events(log)[i] == GaveUp(kind) && NoResetAfter(log, i);
        assert i < n && NoResetAfter(log.before, i);
      }
      if log.last == GaveUp(kind) {
        assert NoResetAfter(log, n);
      }
    }
  }

  /** Once a kind was waited out, the user is pestered about it again only after a reset. */
  lemma {:induction false} WaitedOutOnce(log: Log, i: nat, j: nat, kind: string)
    requires Disciplined(log) && i < j < |Events(log)|
    requires Events(log)[i] == GaveUp(kind) && Pesters(Events(log)[j], kind)
    ensures exists c :: i < c < j && Events(log)[c] == Cleared
  {
    var front := Events(log.before);
    if j == |front| {
      RememberedExactly(log.before, kind);
      assert !NoResetAfter(log.before, i);
      var c :| i < c < |front| && front[c] == Cleared;
      assert Events(log)[c] == Cleared;
    } else {
      WaitedOutOnce(log.before, i, j, kind);
      var c :| i < c < j && front[c] == Cleared;
      assert Events(log)[c] == Cleared;
    }
  }

  /** What a stretch of the log adds up to. */
  datatype Tally = Tally(probes: nat, successes: nat, notices: nat, slept: real)

  function Add(t: Tally, e: Event): Tally {
    match e
    case Probed(_, ok) => t.(probes := t.probes + 1, successes := t.successes + if ok then 1 else 0)
    case Notified(_) => t.(notices := t.notices + 1)
    case Slept(_, seconds) => t.(slept := t.slept + seconds)
    case _ => t
  }

  /** What the events of one kind add up to. */
  function Totals(log: Log, kind: string): Tally {
    if log.Fresh? then Tally(0, 0, 0, 0.0)
    else if IsAbout(log.last, kind) then Add(Totals(log.before, kind), log.last)
    else Totals(log.before, kind)
  }

  predicate IsAbout(e: Event, kind: string) {
    !e.Cleared? && e.kind == kind
  }

  /** From `before` to `after` only events of one kind were added. */
  ghost predicate OnlyAbout(before: Log, after: Log, kind: string) {
    after == before || (after.After? && IsAbout(after.last, kind) && OnlyAbout(before, after.before, kind))
  }

  lemma {:induction false} OtherKind(before: Log, after: Log, kind: string, other: string)
    requires OnlyAbout(before, after, kind) && other != kind
    ensures Totals(after, other) == Totals(before, other)
  {
    if after != before {
      OtherKind(before, after.before, kind, other);
    }
  }

  lemma {:induction false} OnlyAboutThen(a: Log, b: Log, c: Log, kind: string)
    requires OnlyAbout(a, b, kind) && OnlyAbout(b, c, kind)
    ensures OnlyAbout(a, c, kind)
  {
    if c != b {
      OnlyAboutThen(a, b, c.before, kind);
    }
  }

  /** The effect of polling: one success exactly if it ended well, within the budget's sleep and probes. */
  ghost predicate Polled(t: Tally, u: Tally, budget: real, interval: real, ok: bool)
    requires budget >= 0.0 && interval >= 1.0
  {
    && u.notices == t.notices
    && t.probes < u.probes <= t.probes + Rounds(budget, interval) + 1
    && u.successes == t.successes + (if ok then 1 else 0)
    && u.slept <= t.slept + budget
  }

  /** The effect of a whole wait: polling, after one notice exactly if there is a budget. */
  ghost predicate Waited(t: Tally, u: Tally, budget: real, interval: real, ok: bool)
    requires budget >= 0.0 && interval >= 1.0
  {
    Polled(t.(notices := t.notices + if budget > 0.0 then 1 else 0), u, budget, interval, ok)
  }

  /** Between two rounds of polling. */
  ghost predicate MidPoll(t: Tally, u: Tally, budget: real, interval: real, rounds: nat, passed: real)
    requires budget >= 0.0 && interval >= 1.0
  {
    && u == t.(probes := t.probes + rounds, slept := u.slept)
    && rounds <= Rounds(budget, interval)
    && Paced(rounds, interval, budget, passed)
    && Fits(u.slept - t.slept, passed, budget)
  }

  lemma RoundStep(kind: string, t: Tally, u: Tally, budget: real, interval: real, rounds: nat, checked: real, asleep: real, awake: real)
    requires budget >= 0.0 && interval >= 1.0 && MidPoll(t, u, budget, interval, rounds, checked)
    requires checked < budget && checked <= asleep
    requires awake >= asleep + Min(interval, Max(0.0, budget - asleep))
    ensures rounds < Rounds(budget, interval)
    ensures
      var v := Add(Add(u, Probed(kind, false)), Slept(kind, Min(interval, Max(0.0, budget - asleep))));
      MidPoll(t, v, budget, interval, rounds + 1, awake)
  {
    PaceStep(rounds, interval, budget, checked, asleep, awake);
    FitsStep(u.slept - t.slept, interval, budget, asleep, awake);
  }

  /** `n` rounds of a probe that fails and a sleep of at most an interval. */
  ghost predicate Rounded(before: Log, after: Log, kind: string, interval: real, n: nat) {
    if n == 0 then after == before
    else
      && after.After? && after.last.Slept? && after.last.kind == kind && 0.0 <= after.last.seconds <= interval
      && after.before.After? && after.before.last == Probed(kind, false)
      && Rounded(before, after.before.before, kind, interval, n - 1)
  }

  /** What polling does: rounds, then a probe that succeeds, or one that fails and the giving up. */
  ghost predicate PollLog(before: Log, after: Log, kind: string, interval: real, ok: bool) {
    exists n, between :: Rounded(before, between, kind, interval, n)
      && after == if ok then After(between, Probed(kind, true)) else After(After(between, Probed(kind, false)), GaveUp(kind))
  }

  lemma {:induction false} RoundedTallies(before: Log, after: Log, kind: string, interval: real, n: nat)
    requires Rounded(before, after, kind, interval, n)
    ensures Totals(after, kind) == Totals(before, kind).(probes := Totals(before, kind).probes + n, slept := Totals(after, kind).slept)
    ensures Totals(before, kind).slept <= Totals(after, kind).slept <= Totals(before, kind).slept + Times(n, interval)
  {
    if n > 0 {
      RoundedTallies(before, after.before.before, kind, interval, n - 1);
    }
  }

  /** Polling ends well exactly when one of its probes succeeded, and it probes once more than it sleeps. */
  lemma PollLogMeans(before: Log, after: Log, kind: string, interval: real, ok: bool)
    requires PollLog(before, after, kind, interval, ok)
    ensures Totals(after, kind).successes == Totals(before, kind).successes + if ok then 1 else 0
    ensures Totals(after, kind).probes > Totals(before, kind).probes && Totals(after, kind).notices == Totals(before, kind).notices
    ensures Totals(after, kind).slept <= Totals(before, kind).slept + Times(Totals(after, kind).probes - Totals(before, kind).probes - 1, interval)
  {
    var n, between :| Rounded(before, between, kind, interval, n)
      && after == if ok then After(between, Probed(kind, true)) else After(After(between, Probed(kind, false)), GaveUp(kind));
    RoundedTallies(before, between, kind, interval, n);
  }

  lemma {:induction false} RoundedOnly(before: Log, after: Log, kind: string, interval: real, n: nat)
    requires Rounded(before, after, kind, interval, n)
    ensures OnlyAbout(before, after, kind)
  {
    if n > 0 {
      RoundedOnly(before, after.before.before, kind, interval, n - 1);
    }
  }

  /** Polling for one kind leaves the others alone. */
  lemma PollLogOnly(before: Log, after: Log, kind: string, interval: real, ok: bool)
    requires PollLog(before, after, kind, interval, ok)
    ensures OnlyAbout(before, after, kind)
  {
    var n, between :| Rounded(before, between, kind, interval, n)
      && after == if ok then After(between, Probed(kind, true)) else After(After(between, Probed(kind, false)), GaveUp(kind));
    RoundedOnly(before, between, kind, interval, n);
  }

  // ---- the gate ----

  datatype State = Ok | TimedOut | Unavailable

  datatype AuthOutcome = AuthOutcome(state: State, notified: bool)

  datatype Call = EnsureGh(wait: Setting, poll: Setting) | EnsureBrowser(wait: Setting, poll: Setting)

  function Largest(calls: seq<Call>): (budget: real)
    ensures budget >= 0.0
  {
    if calls == [] then 0.0 else Max(Largest(calls[..|calls| - 1]), WaitBudget(calls[|calls| - 1].wait))
  }

  /** What either entry promises: ok exactly when a probe succeeded, no side effect for a login that is there, and the bounds. */
  ghost predicate Ensured(before: Log, after: Log, kind: string, out: AuthOutcome, budget: real, interval: real)
    requires budget >= 0.0 && interval >= 1.0
  {
    var t, u := Totals(before, kind), Totals(after, kind);
    && (out.state == Ok <==> u.successes > t.successes) && u.successes >= t.successes
    && (out.state == Ok ==> after.After? && after.last == Probed(kind, true))
    && (out.state == Ok && u.probes == t.probes + 1 ==> after == After(before, Probed(kind, true)) && !out.notified)
    && u.slept <= t.slept + budget && u.probes <= t.probes + Rounds(budget, interval) + 2
  }

  /** Without a success for `kind` the sleep for it stays within the budget, and within nothing before a timeout. */
  ghost predicate Capped(before: Log, after: Log, kind: string, timedOut: bool, budget: real) {
    && Totals(after, kind).successes >= Totals(before, kind).successes
    && (Totals(after, kind).successes == Totals(before, kind).successes ==>
          Totals(after, kind).slept <= Totals(before, kind).slept + if timedOut then budget else 0.0)
  }

  const GH := "gh"
  const BROWSER := "browser"

  /** The module's state with the monotonic clock; probes, pushes and delays are arbitrary. */
  class Gate {
    var timedOut: set<string>
    var clock: real
    ghost var log: Log

    ghost predicate Valid()
      reads this
    {
      timedOut == GivenUp(log) && Disciplined(log)
    }

    constructor ()
      ensures Valid() && timedOut == {} && log == Fresh
    {
      timedOut, clock, log := {}, 0.0, Fresh;
    }

    ghost method Record(e: Event)
      requires Allowed(GivenUp(log), e)
      modifies this`log
      ensures log == After(old(log), e)
      ensures Disciplined(old(log)) ==> Disciplined(log)
    {
      log := After(log, e);
    }

    // ---- the outside world ----

    method Now() returns (t: real)
      modifies this`clock
      ensures old(clock) <= clock == t
    {
      var passed: real := *;
      clock := clock + Max(0.0, passed);
      t := clock;
    }

    method Sleep(kind: string, seconds: real)
      requires Valid() && kind !in timedOut && seconds >= 0.0
      modifies this`clock, this`log
      ensures Valid() && clock >= old(clock) + seconds
      ensures log == After(old(log), Slept(kind, seconds))
    {
      var over: real := *;
      clock := clock + seconds + Max(0.0, over);
      Record(Slept(kind, seconds));
    }

    method Probe(kind: string) returns (ok: bool)
      requires Valid()
      modifies this`clock, this`log
      ensures Valid() && clock >= old(clock)
      ensures log == After(old(log), Probed(kind, ok))
    {
      ok := *;
      Record(Probed(kind, ok));
      var _ := Now();
    }

    method Notify(kind: string) returns (sent: bool)
      requires Valid() && kind !in timedOut
      modifies this`clock, this`log
      ensures Valid() && clock >= old(clock)
      ensures log == After(old(log), Notified(kind))
    {
      sent := *;
      Record(Notified(kind));
      var _ := Now();
    }

    // ---- the gate's own code ----

    /** `reset_auth_gate`. */
    method ResetAuthGate()
      requires Valid()
      modifies this
      ensures Valid() && timedOut == {} && log == After(old(log), Cleared) && clock == old(clock)
    {
      timedOut := {};
      Record(Cleared);
    }

    /** The loop of `_wait_for`; `before` is the tally when it starts. */
    method Poll(kind: string, budget: real, interval: real) returns (ok: bool)
      requires Valid() && kind !in timedOut && budget >= 0.0 && interval >= 1.0
      modifies this
      ensures Valid()
      ensures Polled(Totals(old(log), kind), Totals(log, kind), budget, interval, ok)
      ensures PollLog(old(log), log, kind, interval, ok)
      ensures ok ==> timedOut == old(timedOut) && log.After? && log.last == Probed(kind, true)
      ensures !ok ==> timedOut == old(timedOut) + {kind} && clock >= old(clock) + budget
      ensures clock >= old(clock)
    {
      var start := Now();
      var deadline := start + budget;
      ghost var passed, rounds: nat := 0.0, 0;
      ghost var before, mid := Totals(log, kind), Totals(log, kind);
      while true
        invariant Valid() && timedOut == old(timedOut)
        invariant Totals(log, kind) == mid && MidPoll(before, mid, budget, interval, rounds, passed)
        invariant passed == clock - start && start <= clock
        invariant Rounded(old(log), log, kind, interval, rounds)
        decreases Rounds(budget, interval) - rounds
      {
        ok := Probe(kind);
        if ok {
          return;
        }
        var now := Now();
        if now >= deadline {
          timedOut := timedOut + {kind};
          Record(GaveUp(kind));
          return;
        }
        ghost var checked := now - start;
        now := Now();
        ghost var asleep := now - start;
        var seconds := Min(interval, Max(0.0, deadline - now));
        Sleep(kind, seconds);
        ghost var awake := clock - start;
        RoundStep(kind, before, mid, budget, interval, rounds, checked, asleep, awake);
        mid, rounds, passed := Totals(log, kind), rounds + 1, awake;
      }
    }

    /**
     * `_wait_for`: ends for every budget; ok exactly when a probe succeeded; a timeout means that the
     * whole budget passed and every probe failed; a kind that timed out before costs nothing.
     */
    method WaitFor(kind: string, wait: Setting, poll: Setting) returns (out: AuthOutcome)
      requires Valid()
      modifies this
      ensures Valid() && out.state != Unavailable
      ensures kind in old(timedOut) ==> out == AuthOutcome(TimedOut, false)
      ensures kind in old(timedOut) ==> log == old(log) && timedOut == old(timedOut) && clock == old(clock)
      ensures kind !in old(timedOut) ==>
        Waited(Totals(old(log), kind), Totals(log, kind), WaitBudget(wait), PollInterval(poll), out.state == Ok)
      ensures out.state == Ok ==> timedOut == old(timedOut) && log.After? && log.last == Probed(kind, true)
      ensures out.state == TimedOut ==> timedOut == old(timedOut) + {kind}
      ensures out.state == TimedOut && kind !in old(timedOut) ==> clock >= old(clock) + WaitBudget(wait)
      ensures kind !in old(timedOut) ==>
        PollLog(if WaitBudget(wait) > 0.0 then After(old(log), Notified(kind)) else old(log), log, kind, PollInterval(poll), out.state == Ok)
      ensures OnlyAbout(old(log), log, kind)
      ensures out.notified ==> Totals(log, kind).notices > Totals(old(log), kind).notices
    {
      if kind in timedOut {
        return AuthOutcome(TimedOut, false);
      }
      var budget := WaitBudget(wait);
      var notified := false;
      if budget > 0.0 {
        notified := Notify(kind);
      }
      ghost var noticed := log;
      var ok := Poll(kind, budget, PollInterval(poll));
      PollLogOnly(noticed, log, kind, PollInterval(poll), ok);
      OnlyAboutThen(old(log), noticed, log, kind);
      out := AuthOutcome(if ok then Ok else TimedOut, notified);
    }

    /** `ensure_gh_auth`: a login that is already there has no side effects at all. */
    method EnsureGhAuth(wait: Setting, poll: Setting) returns (out: AuthOutcome)
      requires Valid()
      modifies this
      ensures Valid() && OnlyAbout(old(log), log, GH)
      ensures Ensured(old(log), log, GH, out, WaitBudget(wait), PollInterval(poll))
      ensures timedOut == old(timedOut) + if out.state == TimedOut then {GH} else {}
      ensures GH in old(timedOut) || out.state == Unavailable ==> Totals(log, GH).slept == Totals(old(log), GH).slept
    {
      var ok := Probe(GH);
      if ok {
        return AuthOutcome(Ok, false);
      }
      var installed: bool := *;
      if !installed {
        return AuthOutcome(Unavailable, false);
      }
      ghost var probed := log;
      out := WaitFor(GH, wait, poll);
      OnlyAboutThen(old(log), probed, log, GH);
    }

    /** `ensure_browser_auth`: the same gate without a missing-tool outcome. */
    method EnsureBrowserAuth(wait: Setting, poll: Setting) returns (out: AuthOutcome)
      requires Valid()
      modifies this
      ensures Valid() && out.state != Unavailable && OnlyAbout(old(log), log, BROWSER)
      ensures Ensured(old(log), log, BROWSER, out, WaitBudget(wait), PollInterval(poll))
      ensures timedOut == old(timedOut) + if out.state == TimedOut then {BROWSER} else {}
      ensures BROWSER in old(timedOut) ==> Totals(log, BROWSER).slept == Totals(old(log), BROWSER).slept
    {
      var ok := Probe(BROWSER);
      if ok {
        return AuthOutcome(Ok, false);
      }
      ghost var probed := log;
      out := WaitFor(BROWSER, wait, poll);
      OnlyAboutThen(old(log), probed, log, BROWSER);
    }

    /**
     * Any sequence of calls: `Valid` makes `WaitedOutOnce` speak about all of it, and for a kind whose
     * login never appears the run blocks for at most one budget, however many calls it makes.
     */
    method Run(calls: seq<Call>)
      requires Valid() && timedOut == {}
      modifies this
      ensures Valid()
      ensures forall kind :: kind in {GH, BROWSER} ==> Capped(old(log), log, kind, kind in timedOut, Largest(calls))
    {
      for i := 0 to |calls|
        invariant Valid()
        invariant Capped(old(log), log, GH, GH in timedOut, Largest(calls[..i]))
        invariant Capped(old(log), log, BROWSER, BROWSER in timedOut, Largest(calls[..i]))
      {
        assert calls[..i + 1][..i] == calls[..i];
        ghost var before := log;
        if calls[i].EnsureGh? {
          var _ := EnsureGhAuth(calls[i].wait, calls[i].poll);
          OtherKind(before, log, GH, BROWSER);
        } else {
          var _ := EnsureBrowserAuth(calls[i].wait, calls[i].poll);
          OtherKind(before, log, BROWSER, GH);
        }
      }
      assert calls[..|calls|] == calls;
    }
  }
}
