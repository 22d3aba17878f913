/** The limiter that degrades from Redis to the local table and recovers through a probe.
    Requests and the probe interleave at their atomic accesses to the shared flag and to the
    resettable once; `Do` on the once is taken as one such access. */
module Fallback {

  /** `waiting` and `switched` count recovery probes before and after they switch back;
      `inPrimary` and `starters` count requests inside the Redis call and on their way from
      raising the flag to starting the probe. */
  datatype Limiter = Limiter(
    useFallback: bool, onceDone: bool, stopped: bool,
    waiting: nat, switched: nat, inPrimary: nat, starters: nat)

  datatype Event =
    | Begin           // Allow reads the flag
    | PrimaryOk       // the Redis call returned an answer
    | PrimaryFailed   // the Redis call failed and the flag was raised
    | StartProbe      // startRecoveryProbe
    | PingFailed
    | SwitchBack      // the ping succeeded and the flag was cleared
    | ResetOnce       // probeOnce replaced, the probe returns
    | Stop
    | ProbeStopped    // a waiting probe sees the closed stop channel

  const INIT := Limiter(false, false, false, 0, 0, 0, 0)

  predicate Enabled(s: Limiter, e: Event) {
    match e
    case Begin => true
    case PrimaryOk => s.inPrimary > 0
    case PrimaryFailed => s.inPrimary > 0
    case StartProbe => s.starters > 0
    case PingFailed => s.waiting > 0
    case SwitchBack => s.waiting > 0
    case ResetOnce => s.switched > 0
    case Stop => !s.stopped
    case ProbeStopped => s.stopped && s.waiting > 0
  }

  function Apply(s: Limiter, e: Event): Limiter
    requires Enabled(s, e)
  {
    match e
    case Begin => if s.useFallback then s else s.(inPrimary := s.inPrimary + 1)
    case PrimaryOk => s.(inPrimary := s.inPrimary - 1)
    case PrimaryFailed => s.(inPrimary := s.inPrimary - 1, useFallback := true, starters := s.starters + 1)
    case StartProbe =>
      if s.onceDone then s.(starters := s.starters - 1)
      else s.(starters := s.starters - 1, onceDone := true, waiting := s.waiting + 1)
    case PingFailed => s
    case SwitchBack => s.(waiting := s.waiting - 1, switched := s.switched + 1, useFallback := false)
    case ResetOnce => s.(switched := s.switched - 1, onceDone := false)
    case Stop => s.(stopped := true)
    case ProbeStopped => s.(waiting := s.waiting - 1)
  }

  predicate Run(s: Limiter, events: seq<Event>)
    decreases |events|
  {
    events == [] || (Enabled(s, events[0]) && Run(Apply(s, events[0]), events[1..]))
  }

  function After(s: Limiter, events: seq<Event>): Limiter
    requires Run(s, events)
    decreases |events|
  {
    if events == [] then s else After(Apply(s, events[0]), events[1..])
  }

  /** sync.Once, of which only matters here whether it has been used. */
  datatype Once = Once(used: bool)

  /** The fields that requests and the probe share. Where requests and probes stand, which the
      program counters of their goroutines tell, is counted beside them. */
  class FallbackRateLimiter {
    var useFallback: bool
    var probeOnce: Once
    var stopClosed: bool
    ghost var waiting: nat
    ghost var switched: nat
    ghost var inPrimary: nat
    ghost var starters: nat

    ghost function View(): Limiter
      reads this
    {
      Limiter(useFallback, probeOnce.used, stopClosed, waiting, switched, inPrimary, starters)
    }

    constructor ()
      ensures View() == INIT
    {
      useFallback, probeOnce, stopClosed := false, Once(false), false;
      waiting, switched, inPrimary, starters := 0, 0, 0, 0;
    }

    /** The start of Allow; true sends the request to the local limiter. */
    method BeginAllow() returns (local: bool)
      modifies this`inPrimary
      ensures View() == Apply(old(View()), Begin)
      ensures local == useFallback
    {
      if useFallback {
        return true;
      }
      inPrimary := inPrimary + 1;
      return false;
    }

    /** The Redis call returned; only a failure raises the flag and goes on to start the probe. */
    method PrimaryReturned(failed: bool) returns (local: bool)
      requires inPrimary > 0
      modifies this`useFallback, this`inPrimary, this`starters
      ensures View() == Apply(old(View()), if failed then PrimaryFailed else PrimaryOk)
      ensures local == failed
    {
      inPrimary := inPrimary - 1;
      if failed {
        useFallback := true;
        starters := starters + 1;
        return true;
      }
      return false;
    }

    /** startRecoveryProbe: `launched` says whether once.Do ran its function. */
    method StartRecoveryProbe() returns (launched: bool)
      requires starters > 0
      modifies this`probeOnce, this`waiting, this`starters
      ensures View() == Apply(old(View()), StartProbe)
      ensures launched == !old(probeOnce.used)
    {
      starters := starters - 1;
      launched := !probeOnce.used;
      probeOnce := Once(true);
      if launched {
        waiting := waiting + 1;
      }
    }

    /** One turn of runProbe up to the switch back; `done` says that it goes on to reset the once. */
    method ProbeTick(pingFailed: bool) returns (done: bool)
      requires waiting > 0
      modifies this`useFallback, this`waiting, this`switched
      ensures View() == Apply(old(View()), if pingFailed then PingFailed else SwitchBack)
      ensures done == !pingFailed
    {
      if pingFailed {
        return false;
      }
      useFallback := false;
      waiting, switched := waiting - 1, switched + 1;
      return true;
    }

    /** The end of runProbe after a switch back. */
    method ProbeReset()
      requires switched > 0
      modifies this`probeOnce, this`switched
      ensures View() == Apply(old(View()), ResetOnce)
    {
      probeOnce := Once(false);
      switched := switched - 1;
    }

    /** The other end of runProbe. */
    method ProbeSeesStop()
      requires stopClosed && waiting > 0
      modifies this`waiting
      ensures View() == Apply(old(View()), ProbeStopped)
    {
      waiting := waiting - 1;
    }

    method CloseStop()
      requires !stopClosed
      modifies this`stopClosed
      ensures View() == Apply(old(View()), Stop)
    {
      stopClosed := true;
    }
  }

  // ---------------------------------------------------------------------
  // One probe at a time
  // ---------------------------------------------------------------------

  predicate OneProbe(s: Limiter) {
    && s.waiting + s.switched <= 1
    && (s.waiting + s.switched == 1 ==> s.onceDone)
    && (s.onceDone && !s.stopped ==> s.waiting + s.switched == 1)
  }

  lemma {:induction false} OneProbeInRun(s: Limiter, events: seq<Event>)
    requires OneProbe(s) && Run(s, events)
    ensures OneProbe(After(s, events))
    decreases |events|
  {
    if events != [] {
      OneProbeInRun(Apply(s, events[0]), events[1..]);
    }
  }

  /** In every interleaving at most one recovery probe is alive, and until the limiter is
      stopped the once is spent exactly while there is one. */
  lemma AtMostOneProbe(events: seq<Event>)
    requires Run(INIT, events)
    ensures var s := After(INIT, events);
            s.waiting + s.switched <= 1 && (!s.stopped ==> (s.onceDone <==> s.waiting + s.switched == 1))
  {
    OneProbeInRun(INIT, events);
  }

  // ---------------------------------------------------------------------
  // What the flag and the once tell of a run
  // ---------------------------------------------------------------------

  function Failed(before: bool, e: Event): bool {
    if e == PrimaryFailed then true else if e == SwitchBack then false else before
  }

  function Launched(before: bool, e: Event): bool {
    if e == StartProbe then true else if e == ResetOnce then false else before
  }

  /** Whether the last failure of a run came after its last successful ping. */
  predicate Failing(before: bool, events: seq<Event>)
    decreases |events|
  {
    if events == [] then before
    else Failing(Failed(before, events[0]), events[1..])
  }

  /** Whether the last start of a probe came after the last reset. */
  predicate Started(before: bool, events: seq<Event>)
    decreases |events|
  {
    if events == [] then before
    else Started(Launched(before, events[0]), events[1..])
  }

  lemma {:induction false} FieldsFollow(s: Limiter, events: seq<Event>)
    requires Run(s, events)
    ensures After(s, events).useFallback == Failing(s.useFallback, events)
    ensures After(s, events).onceDone == Started(s.onceDone, events)
    ensures After(s, events).stopped <==> s.stopped || Stop in events
    decreases |events|
  {
    if events != [] {
      FieldsFollow(Apply(s, events[0]), events[1..]);
    }
  }

  /** In every run a request goes to the local limiter exactly if the last failure of a Redis call came
      after the last successful ping, and a failed call launches a probe exactly if none was started
      since the last reset; stopping changes neither. */
  lemma RouteFollowsTheRun(events: seq<Event>)
    requires Run(INIT, events)
    ensures var s := After(INIT, events);
            && (Apply(s, Begin).inPrimary == s.inPrimary <==> Failing(false, events))
            && (!Failing(false, events) ==> Apply(s, Begin).inPrimary == s.inPrimary + 1)
            && (s.starters > 0 ==>
                  Apply(s, StartProbe).waiting == s.waiting + if Started(false, events) then 0 else 1)
  {
    FieldsFollow(INIT, events);
  }

  function One(e: Event, first: Event): nat {
    if first == e then 1 else 0
  }

  function Count(e: Event, events: seq<Event>): nat
    decreases |events|
  {
    if events == [] then 0 else One(e, events[0]) + Count(e, events[1..])
  }

  /** The requests of a run that go to Redis, and the starts that launch a probe. */
  function Sent(failing: bool, events: seq<Event>): nat
    decreases |events|
  {
    if events == [] then 0
    else (if events[0] == Begin && !failing then 1 else 0) + Sent(Failed(failing, events[0]), events[1..])
  }

  function Launches(started: bool, events: seq<Event>): nat
    decreases |events|
  {
    if events == [] then 0
    else (if events[0] == StartProbe && !started then 1 else 0) + Launches(Launched(started, events[0]), events[1..])
  }

  /** Nobody is lost on the way: the requests inside Redis and those about to start a probe are in
      number those that came less those that went on. */
  lemma {:induction false} RequestsAreAccounted(s: Limiter, events: seq<Event>)
    requires Run(s, events)
    ensures var s' := After(s, events);
            && s'.inPrimary + Count(PrimaryOk, events) + Count(PrimaryFailed, events)
               == s.inPrimary + Sent(s.useFallback, events)
            && s'.starters + Count(StartProbe, events) == s.starters + Count(PrimaryFailed, events)
    decreases |events|
  {
    if events != [] {
      StepFields(s, events[0]);
      StepRequests(s, events[0]);
      RequestsAreAccounted(Apply(s, events[0]), events[1..]);
    }
  }

  /** So are the probes that wait and those that have switched back. */
  lemma {:induction false} ProbesAreAccounted(s: Limiter, events: seq<Event>)
    requires Run(s, events)
    ensures var s' := After(s, events);
            && s'.waiting + Count(SwitchBack, events) + Count(ProbeStopped, events)
               == s.waiting + Launches(s.onceDone, events)
            && s'.switched + Count(ResetOnce, events) == s.switched + Count(SwitchBack, events)
    decreases |events|
  {
    if events != [] {
      StepFields(s, events[0]);
      StepProbes(s, events[0]);
      ProbesAreAccounted(Apply(s, events[0]), events[1..]);
    }
  }

  lemma StepRequests(s: Limiter, e: Event)
    requires Enabled(s, e)
    ensures var s' := Apply(s, e);
            && s'.inPrimary + One(PrimaryOk, e) + One(PrimaryFailed, e)
               == s.inPrimary + (if e == Begin && !s.useFallback then 1 else 0)
            && s'.starters + One(StartProbe, e) == s.starters + One(PrimaryFailed, e)
  {
  }

  lemma StepProbes(s: Limiter, e: Event)
    requires Enabled(s, e)
    ensures var s' := Apply(s, e);
            && s'.waiting + One(SwitchBack, e) + One(ProbeStopped, e)
               == s.waiting + (if e == StartProbe && !s.onceDone then 1 else 0)
            && s'.switched + One(ResetOnce, e) == s.switched + One(SwitchBack, e)
  {
  }

  lemma StepFields(s: Limiter, e: Event)
    requires Enabled(s, e)
    ensures Apply(s, e).useFallback == Failed(s.useFallback, e) && Apply(s, e).onceDone == Launched(s.onceDone, e)
  {
  }

  // ---------------------------------------------------------------------
  // Degraded mode is always on its way out, except through one window
  // ---------------------------------------------------------------------

  /** Degraded mode has a waiting probe, or a request that is about to start one. */
  predicate Covered(s: Limiter) {
    s.useFallback && !s.stopped ==> s.waiting > 0 || s.starters > 0
  }

  /** The last request on its way to start a probe finds the once still spent by a probe that
      has switched back already. */
  predicate LosingStart(s: Limiter, e: Event) {
    e == StartProbe && s.switched > 0 && s.useFallback && s.starters == 1 && !s.stopped
  }

  lemma CoverStep(s: Limiter, e: Event)
    requires OneProbe(s) && Covered(s) && Enabled(s, e)
    ensures Covered(Apply(s, e)) <==> !LosingStart(s, e)
  {
  }

  predicate AlwaysCovered(s: Limiter, events: seq<Event>)
    requires Run(s, events)
    decreases |events|
  {
    Covered(s) && (events == [] || AlwaysCovered(Apply(s, events[0]), events[1..]))
  }

  predicate NeverLosing(s: Limiter, events: seq<Event>)
    requires Run(s, events)
    decreases |events|
  {
    events == [] || (!LosingStart(s, events[0]) && NeverLosing(Apply(s, events[0]), events[1..]))
  }

  /** No call of startRecoveryProbe falls between a switch back and the reset after it. */
  predicate WindowAvoided(s: Limiter, events: seq<Event>)
    requires Run(s, events)
    decreases |events|
  {
    events == [] ||
    (!(events[0] == StartProbe && s.switched > 0) && WindowAvoided(Apply(s, events[0]), events[1..]))
  }

  lemma {:induction false} CoveredIffFrom(s: Limiter, events: seq<Event>)
    requires Run(s, events) && OneProbe(s) && Covered(s)
    ensures AlwaysCovered(s, events) <==> NeverLosing(s, events)
    ensures WindowAvoided(s, events) ==> NeverLosing(s, events)
    decreases |events|
  {
    if events != [] {
      var s1 := Apply(s, events[0]);
      CoverStep(s, events[0]);
      if Covered(s1) {
        CoveredIffFrom(s1, events[1..]);
      }
    }
  }

  /** A run is covered throughout exactly when it has no losing start; in particular every run
      is in which no probe is started inside the window between switch back and reset. */
  lemma RecoveryIsCovered(events: seq<Event>)
    requires Run(INIT, events)
    ensures AlwaysCovered(INIT, events) <==> NeverLosing(INIT, events)
    ensures WindowAvoided(INIT, events) ==> AlwaysCovered(INIT, events)
  {
    CoveredIffFrom(INIT, events);
  }

  /** Degraded, and nobody left to notice. */
  predicate Lost(s: Limiter) {
    s.useFallback && s.waiting == 0 && s.switched == 0 && s.starters == 0 && s.inPrimary == 0
  }

  lemma Prefixed(s: Limiter, e: Event, tail: seq<Event>)
    requires Enabled(s, e) && Run(Apply(s, e), tail)
    ensures Run(s, [e] + tail) && After(s, [e] + tail) == After(Apply(s, e), tail)
  {
    assert ([e] + tail)[1..] == tail;
  }

  predicate EndsLost(s: Limiter, events: seq<Event>) {
    Run(s, events) && Lost(After(s, events)) && !After(s, events).stopped
  }

  ghost predicate CanEndLost(s: Limiter) {
    exists events :: EndsLost(s, events)
  }

  lemma CanEndLostBefore(s: Limiter, e: Event)
    requires Enabled(s, e) && CanEndLost(Apply(s, e))
    ensures CanEndLost(s)
  {
    var events :| EndsLost(Apply(s, e), events);
    Prefixed(s, e, events);
    assert EndsLost(s, [e] + events);
  }

  lemma LostEndsLost(s: Limiter)
    requires Lost(s) && !s.stopped
    ensures CanEndLost(s)
  {
    var none: seq<Event> := [];
    assert After(s, none) == s;
    assert EndsLost(s, none);
  }

  /** The probe has switched back but not reset the once, and a late failure comes in between. */
  lemma LateFailureLoses(s: Limiter)
    requires s.onceDone && !s.stopped && s.waiting == 0 && s.switched == 1 && s.inPrimary == 1 && s.starters == 0
    ensures CanEndLost(s)
  {
    var s1 := Apply(s, PrimaryFailed);
    var s2 := Apply(s1, StartProbe);
    var s3 := Apply(s2, ResetOnce);
    LostEndsLost(s3);
    CanEndLostBefore(s2, ResetOnce);
    CanEndLostBefore(s1, StartProbe);
    CanEndLostBefore(s, PrimaryFailed);
  }

  /** The window is real: two requests are in flight, one fails and starts a probe, the probe
      recovers, and the other fails before the once is reset. */
  lemma WindowLosesTheProbe()
    ensures CanEndLost(INIT)
  {
    var s1 := Apply(INIT, Begin);
    var s2 := Apply(s1, Begin);
    var s3 := Apply(s2, PrimaryFailed);
    var s4 := Apply(s3, StartProbe);
    LateFailureLoses(Apply(s4, SwitchBack));
    CanEndLostBefore(s4, SwitchBack);
    CanEndLostBefore(s3, StartProbe);
    CanEndLostBefore(s2, PrimaryFailed);
    CanEndLostBefore(s1, Begin);
    CanEndLostBefore(INIT, Begin);
  }

  /** A run that ends lost went through the window. */
  lemma {:induction false} LostMeansWindow(events: seq<Event>)
    requires EndsLost(INIT, events)
    ensures !WindowAvoided(INIT, events)
  {
    if WindowAvoided(INIT, events) {
      RecoveryIsCovered(events);
      CoveredAtTheEnd(INIT, events);
    }
  }

  lemma {:induction false} CoveredAtTheEnd(s: Limiter, events: seq<Event>)
    requires Run(s, events) && AlwaysCovered(s, events)
    ensures Covered(After(s, events))
    decreases |events|
  {
    if events != [] {
      CoveredAtTheEnd(Apply(s, events[0]), events[1..]);
    }
  }

  /** And it is final: whatever happens afterwards, every request stays on the local limiter. */
  lemma {:induction false} LostForever(s: Limiter, events: seq<Event>)
    requires Lost(s) && Run(s, events)
    ensures Lost(After(s, events)) && forall i :: 0 <= i < |events| ==> events[i] == Begin || events[i] == Stop
    decreases |events|
  {
    if events != [] {
      LostForever(Apply(s, events[0]), events[1..]);
      forall i | 0 <= i < |events| ensures events[i] == Begin || events[i] == Stop {
        if i > 0 {
          assert events[i] == events[1..][i - 1];
        }
      }
    }
  }
}
