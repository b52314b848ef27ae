/**
 * The circuit breaker of pkg/utils/rate_limiter.go. CanExecute lets go of the lock between finding
 * the recovery timeout over and entering the half-open state, so it is two steps here, with any
 * steps of other callers in between.
 */
module CircuitBreaker {
  import opened GoTime

  datatype State = Closed | Open | HalfOpen

  datatype Config = Config(failureThreshold: int, recoveryTimeout: int, halfOpenRequests: int)

  datatype Breaker = Breaker(state: State, failures: int, lastFailure: Stamp, halfOpenRequests: int)

  /** What the locked first part of CanExecute decides; Recover goes on to the second part. */
  datatype Verdict = Allow | Refuse | Recover

  function Check(b: Breaker, c: Config, now: int): Verdict {
    match b.state
    case Closed => Allow
    case Open =>
      if b.lastFailure.Never? || now - b.lastFailure.time >= c.recoveryTimeout then Recover else Refuse
    case HalfOpen => if b.halfOpenRequests < c.halfOpenRequests then Allow else Refuse
  }

  /** The second part of CanExecute, whatever the state has become. */
  function Entered(b: Breaker): Breaker {
    b.(state := HalfOpen, halfOpenRequests := 0)
  }

  function AfterSuccess(b: Breaker, c: Config): Breaker {
    match b.state
    case HalfOpen =>
      var n := b.halfOpenRequests + 1;
      if n >= c.halfOpenRequests then b.(state := Closed, failures := 0, halfOpenRequests := n)
      else b.(halfOpenRequests := n)
    case Closed => b.(failures := 0)
    case Open => b
  }

  function AfterFailure(b: Breaker, c: Config, now: int): Breaker {
    var failed := b.(failures := b.failures + 1, lastFailure := At(now));
    match b.state
    case Closed => if failed.failures >= c.failureThreshold then failed.(state := Open) else failed
    case HalfOpen => failed.(state := Open)
    case Open => failed
  }

  class CircuitBreaker {
    const config: Config
    var state: State
    var failures: int
    var lastFailureTime: Stamp
    var halfOpenRequests: int

    function View(): Breaker
      reads this
    {
      Breaker(state, failures, lastFailureTime, halfOpenRequests)
    }

    constructor (config: Config)
      ensures this.config == config && View() == Breaker(Closed, 0, Never, 0)
    {
      this.config := config;
      state, failures, lastFailureTime, halfOpenRequests := Closed, 0, Never, 0;
    }

    method CheckState(now: int) returns (v: Verdict)
      ensures v == Check(View(), config, now)
    {
      match state {
        case Closed => return Allow;
        case Open =>
          if lastFailureTime.Never? || now - lastFailureTime.time >= config.recoveryTimeout {
            return Recover;
          }
          return Refuse;
        case HalfOpen =>
          if halfOpenRequests < config.halfOpenRequests {
            return Allow;
          }
          return Refuse;
      }
    }

    method EnterHalfOpen()
      modifies this
      ensures View() == Entered(old(View()))
    {
      state := HalfOpen;
      halfOpenRequests := 0;
    }

    /** CanExecute when no other caller comes in between. */
    method CanExecute(now: int) returns (allowed: bool)
      modifies this
      ensures allowed <==> Check(old(View()), config, now) != Refuse
      ensures View() == if Check(old(View()), config, now) == Recover then Entered(old(View())) else old(View())
    {
      var v := CheckState(now);
      if v == Recover {
        EnterHalfOpen();
      }
      return v != Refuse;
    }

    method RecordSuccess()
      modifies this
      ensures View() == AfterSuccess(old(View()), config)
    {
      match state {
        case HalfOpen =>
          halfOpenRequests := halfOpenRequests + 1;
          if halfOpenRequests >= config.halfOpenRequests {
            state := Closed;
            failures := 0;
          }
        case Closed => failures := 0;
        case Open =>
      }
    }

    method RecordFailure(now: int)
      modifies this
      ensures View() == AfterFailure(old(View()), config, now)
    {
      failures := failures + 1;
      lastFailureTime := At(now);
      match state {
        case Closed =>
          if failures >= config.failureThreshold {
            state := Open;
          }
        case HalfOpen => state := Open;
        case Open =>
      }
    }
  }

  // Every interleaving.

  datatype Event = Ask(now: int) | Enter | Success | Failure(now: int)

  /** The breaker and the number of callers between the two parts of CanExecute. */
  datatype System = System(breaker: Breaker, inGap: nat)

  const INITIAL := System(Breaker(Closed, 0, Never, 0), 0)

  ghost predicate Enabled(s: System, e: Event) {
    e.Enter? ==> s.inGap > 0
  }

  ghost function Next(s: System, e: Event, c: Config): System
    requires Enabled(s, e)
  {
    match e
    case Ask(now) => if Check(s.breaker, c, now) == Recover then s.(inGap := s.inGap + 1) else s
    case Enter => System(Entered(s.breaker), s.inGap - 1)
    case Success => s.(breaker := AfterSuccess(s.breaker, c))
    case Failure(now) => s.(breaker := AfterFailure(s.breaker, c, now))
  }

  /** The events, oldest first, are possible from the start. */
  ghost predicate IsRun(events: seq<Event>, c: Config)
    decreases |events|, 0
  {
    events == [] || (
      var before := events[..|events| - 1];
      IsRun(before, c) && Enabled(Reached(before, c), events[|events| - 1]))
  }

  ghost function Reached(events: seq<Event>, c: Config): System
    requires IsRun(events, c)
    decreases |events|, 1
  {
    if events == [] then INITIAL
    else Next(Reached(events[..|events| - 1], c), events[|events| - 1], c)
  }

  ghost function LatestFailure(events: seq<Event>): Stamp {
    if events == [] then Never
    else if events[|events| - 1].Failure? then At(events[|events| - 1].now)
    else LatestFailure(events[..|events| - 1])
  }

  /** Closed below the failure threshold, half-open below the success threshold, open only after a failure. */
  ghost predicate Inv(b: Breaker, c: Config) {
    && (b.state == Closed ==> b.failures < c.failureThreshold)
    && (b.state == HalfOpen ==> b.halfOpenRequests < c.halfOpenRequests)
    && (b.state == Open ==> b.lastFailure.At?)
  }

  lemma {:induction false} InvHolds(events: seq<Event>, c: Config)
    requires c.failureThreshold >= 1 && c.halfOpenRequests >= 1
    requires IsRun(events, c)
    ensures Inv(Reached(events, c).breaker, c)
    ensures Reached(events, c).breaker.lastFailure == LatestFailure(events)
  {
    if events != [] {
      InvHolds(events[..|events| - 1], c);
    }
  }

  // What the events alone say about the state.

  /** How many failures the run ends with, not counting requests: since the last success. */
  ghost function Streak(events: seq<Event>): nat {
    if events == [] then 0
    else
      var before := events[..|events| - 1];
      match events[|events| - 1]
      case Failure(_) => Streak(before) + 1
      case Success => 0
      case _ => Streak(before)
  }

  /** How many successes a run has. */
  ghost function Successes(events: seq<Event>): nat {
    if events == [] then 0
    else Successes(events[..|events| - 1]) + (if events[|events| - 1].Success? then 1 else 0)
  }

  /** Just closed: new, or back from half-open. */
  ghost predicate Fresh(b: Breaker) {
    b.state == Closed && b.failures == 0
  }

  lemma AppendLast(events: seq<Event>, more: seq<Event>, c: Config)
    requires more != [] && IsRun(events + more, c)
    ensures var before := events + more[..|more| - 1];
            && IsRun(before, c) && Enabled(Reached(before, c), more[|more| - 1])
            && Reached(events + more, c) == Next(Reached(before, c), more[|more| - 1], c)
  {
    assert (events + more)[..|events + more| - 1] == events + more[..|more| - 1];
  }

  lemma ClosedStep(s: System, e: Event, n: nat, c: Config)
    requires s.breaker.state == Closed && s.breaker.failures == n < c.failureThreshold && e != Enter
    ensures var b := Next(s, e, c).breaker;
            && b.failures == (match e case Failure(_) => n + 1 case Success => 0 case _ => n)
            && b.state == (if b.failures < c.failureThreshold then Closed else Open)
  {
  }

  /**
   * From a closed breaker on, with nobody entering from the gap: as long as the failures since the last
   * success have stayed below the threshold before, it is open exactly if they reach it now.
   */
  lemma {:induction false} OpensExactlyAtThreshold(events: seq<Event>, more: seq<Event>, c: Config)
    requires c.failureThreshold >= 1 && IsRun(events, c) && IsRun(events + more, c)
    requires Fresh(Reached(events, c).breaker) && Enter !in more
    requires forall i :: 0 <= i < |more| ==> Streak(more[..i]) < c.failureThreshold
    ensures var b := Reached(events + more, c).breaker;
            && b.state == (if Streak(more) < c.failureThreshold then Closed else Open)
            && b.failures == Streak(more)
    decreases |more|
  {
    if more == [] {
      assert events + more == events;
    } else {
      var before := more[..|more| - 1];
      AppendLast(events, more, c);
      assert forall i :: 0 <= i < |before| ==> before[..i] == more[..i];
      OpensExactlyAtThreshold(events, before, c);
      ClosedStep(Reached(events + before, c), more[|more| - 1], Streak(before), c);
    }
  }

  /**
   * From the moment a caller has put the breaker half-open, with nobody else entering: it opens exactly
   * on a failure, and closes, forgetting all failures, exactly on the last success that is needed.
   */
  lemma {:induction false} HalfOpenEndsExactly(events: seq<Event>, more: seq<Event>, c: Config)
    requires c.halfOpenRequests >= 1 && IsRun(events + [Enter], c) && IsRun(events + [Enter] + more, c)
    requires Enter !in more
    requires forall i :: 0 <= i < |more| - 1 ==> !more[i].Failure?
    requires |more| > 0 ==> Successes(more[..|more| - 1]) < c.halfOpenRequests
    ensures var b := Reached(events + [Enter] + more, c).breaker;
            && (b.state == Open <==> more != [] && more[|more| - 1].Failure?)
            && (b.state == Closed <==> Successes(more) == c.halfOpenRequests)
            && (b.state == Closed ==> Fresh(b))
            && (b.state == HalfOpen ==> b.halfOpenRequests == Successes(more))
    decreases |more|
  {
    var start := events + [Enter];
    if more == [] {
      assert start + more == start && start[..|start| - 1] == events;
    } else {
      var before := more[..|more| - 1];
      AppendLast(start, more, c);
      assert |before| > 0 ==> Successes(before[..|before| - 1]) <= Successes(before);
      HalfOpenEndsExactly(events, before, c);
    }
  }

  /** Configured for no trial requests, a half-open breaker refuses until something is recorded. */
  lemma NoTrialsRefuse(events: seq<Event>, c: Config, now: int)
    requires c.halfOpenRequests <= 0 && IsRun(events + [Enter], c)
    ensures Reached(events + [Enter], c).breaker.state == HalfOpen
    ensures Check(Reached(events + [Enter], c).breaker, c, now) == Refuse
  {
    assert (events + [Enter])[..|events + [Enter]| - 1] == events;
  }

  /** DefaultRateLimiterConfig */
  const DEFAULTS := Config(5, 30_000_000_000, 3)

  /** A new breaker with the default configuration takes four failures in a row and opens on the fifth. */
  lemma FiveFailuresOpen(events: seq<Event>)
    requires forall e :: e in events ==> e.Failure?
    requires |events| <= 5 && IsRun(events, DEFAULTS)
    ensures Reached(events, DEFAULTS).breaker.state == if |events| == 5 then Open else Closed
  {
    forall i | 0 <= i <= |events| ensures Streak(events[..i]) == i {
      OnlyFailures(events[..i]);
    }
    assert [] + events == events && events[..|events|] == events;
    OpensExactlyAtThreshold([], events, DEFAULTS);
  }

  /** Once open it refuses for thirty seconds from the failure it knows of, and then lets the next request in. */
  lemma ThirtySecondsRefuse(events: seq<Event>, f: int, now: int)
    requires IsRun(events, DEFAULTS)
    requires Reached(events, DEFAULTS).breaker.state == Open && Reached(events, DEFAULTS).breaker.lastFailure == At(f)
    ensures Check(Reached(events, DEFAULTS).breaker, DEFAULTS, now)
         == if now < f + 30_000_000_000 then Refuse else Recover
  {
  }

  /** Half-open, two successes do not close it and the third does. */
  lemma ThreeSuccessesClose(events: seq<Event>)
    requires IsRun(events + [Enter], DEFAULTS)
    requires IsRun(events + [Enter] + [Success, Success], DEFAULTS)
    requires IsRun(events + [Enter] + [Success, Success, Success], DEFAULTS)
    ensures Reached(events + [Enter] + [Success, Success], DEFAULTS).breaker.state == HalfOpen
    ensures Fresh(Reached(events + [Enter] + [Success, Success, Success], DEFAULTS).breaker)
  {
    var one, two, three := [Success], [Success, Success], [Success, Success, Success];
    assert one[..0] == [] && two[..1] == one && three[..2] == two;
    assert Successes(one) == 1 && Successes(two) == 2 && Successes(three) == 3;
    HalfOpenEndsExactly(events, two, DEFAULTS);
    HalfOpenEndsExactly(events, three, DEFAULTS);
  }

  lemma {:induction false} OnlyFailures(events: seq<Event>)
    requires forall e :: e in events ==> e.Failure?
    ensures Streak(events) == |events|
  {
    if events != [] {
      assert events[|events| - 1] in events;
      OnlyFailures(events[..|events| - 1]);
    }
  }

  /**
   * In every interleaving a request is refused exactly when the breaker is open and the latest
   * failure is less than the recovery timeout ago; half-open never refuses.
   */
  lemma {:induction false} RefusedExactlyWhenOpenAndRecent(events: seq<Event>, c: Config, now: int)
    requires c.failureThreshold >= 1 && c.halfOpenRequests >= 1
    requires IsRun(events, c)
    ensures var b := Reached(events, c).breaker;
            && (b.state == Closed ==> b.failures < c.failureThreshold)
            && (b.state == HalfOpen ==> b.halfOpenRequests < c.halfOpenRequests)
            && (Check(b, c, now) == Refuse <==>
                  && b.state == Open
                  && LatestFailure(events).At?
                  && now - LatestFailure(events).time < c.recoveryTimeout)
  {
    InvHolds(events, c);
  }

  /**
   * With nobody in the gap, an open breaker stays open, and so refuses every request, until the
   * recovery timeout has passed since the failure it knows of.
   */
  lemma {:induction false} OpenHolds(events: seq<Event>, m: nat, f: int, c: Config)
    requires IsRun(events, c) && m <= |events| && IsRun(events[..m], c)
    requires var s := Reached(events[..m], c); s.inGap == 0 && s.breaker.state == Open && s.breaker.lastFailure == At(f)
    requires forall i :: m <= i < |events| ==>
               && (events[i].Ask? ==> events[i].now - f < c.recoveryTimeout)
               && (events[i].Failure? ==> events[i].now >= f)
    ensures var s := Reached(events, c);
            s.inGap == 0 && s.breaker.state == Open && s.breaker.lastFailure.At? && s.breaker.lastFailure.time >= f
  {
    if m < |events| {
      var before := events[..|events| - 1];
      assert before[..m] == events[..m];
      OpenHolds(before, m, f, c);
    } else {
      assert events[..m] == events;
    }
  }

  /** Requests and failures that come while less than the timeout has passed since a failure at `f`. */
  ghost predicate Within(more: seq<Event>, f: int, c: Config) {
    forall i :: 0 <= i < |more| ==>
      && (more[i].Ask? ==> more[i].now - f < c.recoveryTimeout)
      && (more[i].Failure? ==> more[i].now >= f)
  }

  /** A request after the run `events` and its continuation `more` is refused, if they are possible. */
  ghost predicate RefusedAfter(events: seq<Event>, more: seq<Event>, now: int, c: Config) {
    IsRun(events + more, c) ==> Check(Reached(events + more, c).breaker, c, now) == Refuse
  }

  /**
   * After any run that leaves the breaker open, every request is refused until the recovery timeout
   * has passed, whatever else happens, if and only if no caller is in the gap of CanExecute.
   */
  lemma StaysRefusingIffGapEmpty(events: seq<Event>, f: int, c: Config)
    requires c.halfOpenRequests >= 1 && IsRun(events, c)
    requires Reached(events, c).breaker.state == Open && Reached(events, c).breaker.lastFailure == At(f)
    ensures (forall more, now ::
               Within(more, f, c) && now - f < c.recoveryTimeout ==> RefusedAfter(events, more, now, c))
      <==> Reached(events, c).inGap == 0
  {
    if Reached(events, c).inGap == 0 {
      forall more, now | Within(more, f, c) && now - f < c.recoveryTimeout
        ensures RefusedAfter(events, more, now, c)
      {
        if IsRun(events + more, c) {
          assert (events + more)[..|events|] == events;
          assert forall i :: |events| <= i < |events + more| ==> (events + more)[i] == more[i - |events|];
          OpenHolds(events + more, |events|, f, c);
        }
      }
    } else {
      var more := [Enter];
      assert (events + more)[..|events + more| - 1] == events;
      assert IsRun(events + more, c);
      assert Within(more, f, c) && !RefusedAfter(events, more, f + c.recoveryTimeout - 1, c);
    }
  }

  /**
   * An instance: two callers find the timeout over, one reopens the breaker by failing, and the
   * other still puts it half-open, so a request is allowed right after a failure.
   */
  lemma GapAdmitsRightAfterFailure(c: Config)
    requires c == Config(1, 10, 1)
    ensures var events := [Failure(0), Ask(10), Ask(10), Enter, Failure(10), Enter];
            && IsRun(events, c)
            && LatestFailure(events) == At(10)
            && Reached(events[..5], c).breaker.state == Open
            && Check(Reached(events, c).breaker, c, 10) == Allow
  {
    var e1, e2, e3 := [Failure(0)], [Failure(0), Ask(10)], [Failure(0), Ask(10), Ask(10)];
    var e4 := [Failure(0), Ask(10), Ask(10), Enter];
    var e5 := [Failure(0), Ask(10), Ask(10), Enter, Failure(10)];
    var e6 := [Failure(0), Ask(10), Ask(10), Enter, Failure(10), Enter];
    assert e1[..0] == [] && e2[..1] == e1 && e3[..2] == e2 && e4[..3] == e3 && e5[..4] == e4 && e6[..5] == e5;
    var tripped := Breaker(Open, 1, At(0), 0);
    assert IsRun(e1, c) && Reached(e1, c) == System(tripped, 0);
    assert IsRun(e2, c) && Reached(e2, c) == System(tripped, 1);
    assert IsRun(e3, c) && Reached(e3, c) == System(tripped, 2);
    assert IsRun(e4, c) && Reached(e4, c) == System(Entered(tripped), 1);
    assert IsRun(e5, c) && Reached(e5, c) == System(Breaker(Open, 2, At(10), 0), 1);
    assert IsRun(e6, c) && Reached(e6, c) == System(Breaker(HalfOpen, 2, At(10), 0), 0);
  }
}
