/** The circuit breaker in front of a data source. Times are nanoseconds. */
module CircuitBreaking {

  datatype Phase = Closed | Open | HalfOpen

  datatype Config = Config(failureThreshold: int, openDuration: int, halfOpenMaxRequests: int, successThreshold: int)

  datatype Breaker = Breaker(phase: Phase, failureCount: int, successCount: int, openedAt: int, halfOpenRequests: int)

  const SECOND := 1_000_000_000

  function WithDefaults(c: Config): Config {
    Config(if c.failureThreshold <= 0 then 5 else c.failureThreshold,
           if c.openDuration <= 0 then 30 * SECOND else c.openDuration,
           if c.halfOpenMaxRequests <= 0 then 1 else c.halfOpenMaxRequests,
           if c.successThreshold <= 0 then 2 else c.successThreshold)
  }

  predicate Positive(c: Config) {
    c.failureThreshold > 0 && c.openDuration > 0 && c.halfOpenMaxRequests > 0 && c.successThreshold > 0
  }

  const INIT := Breaker(Closed, 0, 0, 0, 0)

  /** A probe slot of the current half-open episode, if one is left. */
  function Probe(b: Breaker, c: Config): (bool, Breaker) {
    if b.halfOpenRequests < c.halfOpenMaxRequests then (true, b.(halfOpenRequests := b.halfOpenRequests + 1))
    else (false, b)
  }

  function Allow(b: Breaker, now: int, c: Config): (bool, Breaker) {
    match b.phase
    case Closed => (true, b)
    case HalfOpen => Probe(b, c)
    case Open =>
      if now - b.openedAt >= c.openDuration then
        Probe(b.(phase := HalfOpen, successCount := 0, halfOpenRequests := 0), c)
      else (false, b)
  }

  function Succeed(b: Breaker, c: Config): Breaker {
    match b.phase
    case Closed => b.(failureCount := 0)
    case Open => b
    case HalfOpen =>
      if b.successCount + 1 >= c.successThreshold then Breaker(Closed, 0, 0, b.openedAt, 0)
      else b.(successCount := b.successCount + 1)
  }

  function Fail(b: Breaker, now: int, c: Config): Breaker {
    match b.phase
    case Closed =>
      if b.failureCount + 1 >= c.failureThreshold then
        b.(failureCount := b.failureCount + 1, phase := Open, openedAt := now)
      else b.(failureCount := b.failureCount + 1)
    case Open => b
    case HalfOpen => Breaker(Open, 0, 0, now, 0)
  }

  class CircuitBreaker {
    var phase: Phase
    var failureCount: int
    var successCount: int
    var openedAt: int
    var halfOpenRequests: int
    const config: Config

    ghost function View(): Breaker
      reads this
    {
      Breaker(phase, failureCount, successCount, openedAt, halfOpenRequests)
    }

    constructor (cfg: Config)
      ensures View() == INIT && config == WithDefaults(cfg) && Positive(config)
      ensures Positive(cfg) ==> config == cfg
    {
      config := WithDefaults(cfg);
      phase, failureCount, successCount, openedAt, halfOpenRequests := Closed, 0, 0, 0, 0;
    }

    method AllowRequest(now: int) returns (allowed: bool)
      modifies this
      ensures (allowed, View()) == Allow(old(View()), now, config)
    {
      match phase
      case Closed => return true;
      case Open =>
        if now - openedAt >= config.openDuration {
          phase := HalfOpen;
          successCount := 0;
          halfOpenRequests := 0;
        } else {
          return false;
        }
        if halfOpenRequests < config.halfOpenMaxRequests {
          halfOpenRequests := halfOpenRequests + 1;
          return true;
        }
        return false;
      case HalfOpen =>
        if halfOpenRequests < config.halfOpenMaxRequests {
          halfOpenRequests := halfOpenRequests + 1;
          return true;
        }
        return false;
    }

    method RecordSuccess()
      modifies this
      ensures View() == Succeed(old(View()), config)
    {
      match phase
      case Closed => failureCount := 0;
      case Open =>
      case HalfOpen =>
        successCount := successCount + 1;
        if successCount >= config.successThreshold {
          phase := Closed;
          failureCount := 0;
          successCount := 0;
          halfOpenRequests := 0;
        }
    }

    method RecordFailure(now: int)
      modifies this
      ensures View() == Fail(old(View()), now, config)
    {
      match phase
      case Closed =>
        failureCount := failureCount + 1;
        if failureCount >= config.failureThreshold {
          phase := Open;
          openedAt := now;
        }
      case Open =>
      case HalfOpen =>
        phase := Open;
        openedAt := now;
        failureCount := 0;
        successCount := 0;
        halfOpenRequests := 0;
    }
  }

  // ---------------------------------------------------------------------
  // Whole runs: a history of calls by any number of clients
  // ---------------------------------------------------------------------

  datatype Event = Request(now: int) | Success | Failure(now: int)

  function Step(b: Breaker, e: Event, c: Config): Breaker {
    match e
    case Request(now) => Allow(b, now, c).1
    case Success => Succeed(b, c)
    case Failure(now) => Fail(b, now, c)
  }

  function Last(h: seq<Event>): Event requires h != [] { h[|h| - 1] }

  function Front(h: seq<Event>): seq<Event> requires h != [] { h[..|h| - 1] }

  function After(h: seq<Event>, c: Config): Breaker {
    if h == [] then INIT else Step(After(Front(h), c), Last(h), c)
  }

  /** The number of failures recorded since the last recorded success, read off the history.
      The breaker closes by a recorded success only, so this also counts from the last re-close. */
  function Streak(h: seq<Event>): nat {
    if h == [] then 0
    else match Last(h)
      case Request(_) => Streak(Front(h))
      case Success => 0
      case Failure(_) => Streak(Front(h)) + 1
  }

  lemma {:induction false} ClosedCountsTheStreak(h: seq<Event>, c: Config)
    requires Positive(c)
    ensures var b := After(h, c);
            b.phase == Closed ==> b.failureCount == Streak(h) < c.failureThreshold
  {
    if h != [] {
      ClosedCountsTheStreak(Front(h), c);
    }
  }

  /** From the closed state the breaker trips exactly on the failure that makes the streak as
      long as the threshold, and on nothing else. */
  lemma TripsOnTheThreshold(h: seq<Event>, e: Event, c: Config)
    requires Positive(c) && After(h, c).phase == Closed
    ensures Streak(h) < c.failureThreshold
    ensures var b := After(h + [e], c);
            && (b.phase == Open <==> e.Failure? && Streak(h + [e]) == c.failureThreshold)
            && (b.phase != Open ==> b.phase == Closed)
            && (b.phase == Open ==> b.openedAt == e.now)
  {
    ClosedCountsTheStreak(h, c);
    assert Front(h + [e]) == h && Last(h + [e]) == e;
  }

  function AfterAll(b: Breaker, events: seq<Event>, c: Config): Breaker
    decreases |events|
  {
    if events == [] then b else AfterAll(Step(b, events[0], c), events[1..], c)
  }

  function Admitted(b: Breaker, events: seq<Event>, c: Config): nat
    decreases |events|
  {
    if events == [] then 0
    else (if events[0].Request? && Allow(b, events[0].now, c).0 then 1 else 0)
         + Admitted(Step(b, events[0], c), events[1..], c)
  }

  /** For the open duration after a trip nothing is admitted and nothing that is recorded
      changes the breaker. */
  lemma {:induction false} OpenAdmitsNothing(b: Breaker, events: seq<Event>, c: Config)
    requires b.phase == Open
    requires forall i :: 0 <= i < |events| && events[i].Request? ==> events[i].now - b.openedAt < c.openDuration
    ensures AfterAll(b, events, c) == b && Admitted(b, events, c) == 0
    decreases |events|
  {
    if events != [] {
      assert Step(b, events[0], c) == b;
      OpenAdmitsNothing(b, events[1..], c);
    }
  }

  predicate KeptOr(given: int, used: int, otherwise: int) {
    used == given > 0 || (used == otherwise && given <= 0)
  }

  /** Settings that are positive are kept, each by itself, and the others are five failures, thirty
      seconds, one probe and two successes. */
  lemma DefaultsFillIn(c: Config)
    ensures var d := WithDefaults(c);
            && Positive(d) && (Positive(c) ==> d == c)
            && KeptOr(c.failureThreshold, d.failureThreshold, 5)
            && KeptOr(c.openDuration, d.openDuration, 30_000_000_000)
            && KeptOr(c.halfOpenMaxRequests, d.halfOpenMaxRequests, 1)
            && KeptOr(c.successThreshold, d.successThreshold, 2)
  {
  }

  /** An open breaker admits a request exactly once its open duration is over, as the first of a new
      episode. */
  lemma OpenAdmitsWhenOver(b: Breaker, now: int, c: Config)
    requires Positive(c) && b.phase == Open
    ensures Allow(b, now, c).0 <==> now >= b.openedAt + c.openDuration
    ensures Allow(b, now, c).0 ==>
              var b' := Allow(b, now, c).1;
              b'.phase == HalfOpen && b'.halfOpenRequests == 1 && b'.successCount == 0
  {
  }

  /** A failure in the half-open state, however many successes the episode has seen, opens the breaker
      for a whole new open duration; the failure counts for no streak. */
  lemma HalfOpenFailureReopens(b: Breaker, now: int, events: seq<Event>, c: Config)
    requires Positive(c) && b.phase == HalfOpen
    requires forall i :: 0 <= i < |events| && events[i].Request? ==> events[i].now < now + c.openDuration
    ensures var tripped := Fail(b, now, c);
            && tripped.phase == Open && tripped.openedAt == now
            && AfterAll(tripped, events, c) == tripped && Admitted(tripped, events, c) == 0
            && Allow(tripped, now + c.openDuration, c).0
  {
    OpenAdmitsNothing(Fail(b, now, c), events, c);
    OpenAdmitsWhenOver(Fail(b, now, c), now + c.openDuration, c);
  }

  /** A closed breaker admits everything and is none the worse for it. */
  lemma ClosedAdmits(h: seq<Event>, now: int, c: Config)
    requires After(h, c).phase == Closed
    ensures Allow(After(h, c), now, c).0 && After(h + [Request(now)], c) == After(h, c)
  {
    assert Front(h + [Request(now)]) == h && Last(h + [Request(now)]) == Request(now);
  }

  /** The requests admitted since the current half-open episode began. */
  function EpisodeAdmits(h: seq<Event>, c: Config): nat {
    if h == [] || After(h, c).phase != HalfOpen then 0
    else
      var before := After(Front(h), c);
      (if before.phase == HalfOpen then EpisodeAdmits(Front(h), c) else 0)
      + if Last(h).Request? && Allow(before, Last(h).now, c).0 then 1 else 0
  }

  /** No half-open episode of any run admits more than its quota. */
  lemma {:induction false} EpisodeQuota(h: seq<Event>, c: Config)
    requires Positive(c)
    ensures EpisodeAdmits(h, c) <= c.halfOpenMaxRequests
    ensures After(h, c).phase == HalfOpen ==> EpisodeAdmits(h, c) == After(h, c).halfOpenRequests
  {
    if h != [] {
      EpisodeQuota(Front(h), c);
    }
  }

  // ---------------------------------------------------------------------
  // One client whose requests all succeed
  // ---------------------------------------------------------------------

  /** One attempt: ask, and record the success if admitted. */
  function Attempt(b: Breaker, now: int, c: Config): (bool, Breaker) {
    var (allowed, b') := Allow(b, now, c);
    (allowed, if allowed then Succeed(b', c) else b')
  }

  function Attempts(b: Breaker, times: seq<int>, c: Config): Breaker
    decreases |times|
  {
    if times == [] then b else Attempts(Attempt(b, times[0], c).1, times[1..], c)
  }

  function AdmittedAttempts(b: Breaker, times: seq<int>, c: Config): nat
    decreases |times|
  {
    if times == [] then 0
    else (if Attempt(b, times[0], c).0 then 1 else 0) + AdmittedAttempts(Attempt(b, times[0], c).1, times[1..], c)
  }

  lemma {:induction false} ClosedStaysClosed(b: Breaker, times: seq<int>, c: Config)
    requires b.phase == Closed
    ensures Attempts(b, times, c).phase == Closed && AdmittedAttempts(b, times, c) == |times|
    decreases |times|
  {
    if times != [] {
      ClosedStaysClosed(Attempt(b, times[0], c).1, times[1..], c);
    }
  }

  /** In the half-open state, with every admitted request of the episode a success so far. */
  lemma {:induction false} ProbingVerdict(b: Breaker, times: seq<int>, c: Config)
    requires Positive(c) && b.phase == HalfOpen
    requires 0 <= b.successCount == b.halfOpenRequests <= c.halfOpenMaxRequests && b.successCount < c.successThreshold
    ensures c.successThreshold <= c.halfOpenMaxRequests ==>
              (Attempts(b, times, c).phase == Closed <==> b.successCount + |times| >= c.successThreshold)
              && AdmittedAttempts(b, times, c) == |times|
    ensures c.successThreshold > c.halfOpenMaxRequests ==>
              Attempts(b, times, c).phase == HalfOpen
              && b.halfOpenRequests + AdmittedAttempts(b, times, c)
                 == if b.halfOpenRequests + |times| <= c.halfOpenMaxRequests then b.halfOpenRequests + |times|
                    else c.halfOpenMaxRequests
    decreases |times|
  {
    if times != [] {
      var b1 := Attempt(b, times[0], c).1;
      if b1.phase == Closed {
        ClosedStaysClosed(b1, times[1..], c);
      } else {
        ProbingVerdict(b1, times[1..], c);
      }
    }
  }

  /** A client whose admitted requests all succeed, starting once the open duration is over.
      If the success threshold fits the half-open quota the breaker closes on exactly that many
      attempts; if it does not, the breaker never closes and every attempt beyond the quota is
      denied, however long the client keeps trying. */
  lemma RecloseIffThresholdFitsQuota(b: Breaker, times: seq<int>, c: Config)
    requires Positive(c) && b.phase == Open && times != []
    requires times[0] - b.openedAt >= c.openDuration
    ensures c.successThreshold <= c.halfOpenMaxRequests ==>
              (Attempts(b, times, c).phase == Closed <==> |times| >= c.successThreshold)
              && AdmittedAttempts(b, times, c) == |times|
    ensures c.successThreshold > c.halfOpenMaxRequests ==>
              Attempts(b, times, c).phase == HalfOpen
              && AdmittedAttempts(b, times, c)
                 == if |times| <= c.halfOpenMaxRequests then |times| else c.halfOpenMaxRequests
  {
    var probing := b.(phase := HalfOpen, successCount := 0, halfOpenRequests := 0);
    assert Attempt(b, times[0], c) == Attempt(probing, times[0], c);
    assert Attempts(b, times, c) == Attempts(probing, times, c);
    assert AdmittedAttempts(b, times, c) == AdmittedAttempts(probing, times, c);
    ProbingVerdict(probing, times, c);
  }

  /** Successes recorded by anyone else, such as a health check, need no admission: they close a
      half-open breaker as soon as the threshold is met, whatever the quota is. */
  lemma {:induction false} OutsideSuccessesClose(b: Breaker, successes: seq<Event>, c: Config)
    requires b.phase == HalfOpen && b.successCount < c.successThreshold
    requires forall i :: 0 <= i < |successes| ==> successes[i] == Success
    ensures AfterAll(b, successes, c).phase == Closed <==> b.successCount + |successes| >= c.successThreshold
    decreases |successes|
  {
    if successes != [] {
      var b1 := Step(b, successes[0], c);
      if b1.phase == HalfOpen {
        OutsideSuccessesClose(b1, successes[1..], c);
      } else {
        ClosedByRecording(b1, successes[1..], c);
      }
    }
  }

  lemma {:induction false} ClosedByRecording(b: Breaker, successes: seq<Event>, c: Config)
    requires b.phase == Closed && forall i :: 0 <= i < |successes| ==> successes[i] == Success
    ensures AfterAll(b, successes, c).phase == Closed
    decreases |successes|
  {
    if successes != [] {
      ClosedByRecording(Step(b, successes[0], c), successes[1..], c);
    }
  }

  /** The defaults are of the second kind: after one probe the client is locked out for good. */
  lemma DefaultsLockOut(b: Breaker, times: seq<int>)
    requires b.phase == Open && times != [] && times[0] - b.openedAt >= 30 * SECOND
    ensures var c := WithDefaults(Config(0, 0, 0, 0));
            Attempts(b, times, c).phase == HalfOpen && AdmittedAttempts(b, times, c) == 1
  {
    RecloseIffThresholdFitsQuota(b, times, WithDefaults(Config(0, 0, 0, 0)));
  }
}
