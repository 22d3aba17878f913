/** The distributed rate limiter: the token bucket script that Redis runs as one atomic step.
    Numbers are exact; `clock` is the real time in seconds that both sides share. */
module TokenBucket {
  import opened Reals
  import opened Text

  datatype Bucket = Bucket(tokens: real, lastRefill: real)

  datatype Limits = Limits(maxTokens: nat, refillRate: real)

  datatype Answer = Answer(allowed: bool, remaining: int, resetSeconds: real)

  function Refill(b: Bucket, now: real, l: Limits): Bucket {
    if now - b.lastRefill > 0.0 then
      Bucket(Min(l.maxTokens as real, b.tokens + (now - b.lastRefill) * l.refillRate), now)
    else b
  }

  function Fresh(now: real, l: Limits): Bucket {
    Bucket(l.maxTokens as real, now)
  }

  predicate Admits(b: Bucket, requested: int) {
    b.tokens >= requested as real
  }

  function Deduct(b: Bucket, requested: int): Bucket {
    if Admits(b, requested) then b.(tokens := b.tokens - requested as real) else b
  }

  function ResetSeconds(b: Bucket, l: Limits): real
    requires l.maxTokens > 0 ==> l.refillRate > 0.0
  {
    if b.tokens < l.maxTokens as real && l.refillRate != 0.0 then
      (l.maxTokens as real - b.tokens) / l.refillRate
    else 0.0
  }

  /** One run of the script on a bucket that is there or missing. */
  function Spend(b: Option<Bucket>, now: real, requested: int, l: Limits): Bucket {
    Deduct(Refill(if b.Some? then b.value else Fresh(now, l), now, l), requested)
  }

  function Grants(b: Option<Bucket>, now: real, requested: int, l: Limits): bool {
    Admits(Refill(if b.Some? then b.value else Fresh(now, l), now, l), requested)
  }

  function Reply(b: Option<Bucket>, now: real, requested: int, l: Limits): Answer
    requires l.maxTokens > 0 ==> l.refillRate > 0.0
  {
    var after := Spend(b, now, requested, l);
    Answer(Grants(b, now, requested, l), after.tokens.Floor, ResetSeconds(after, l))
  }

  // ---------------------------------------------------------------------
  // The bound on what one bucket grants
  // ---------------------------------------------------------------------

  /** A call with its clock reading, which may be earlier than the one before. */
  datatype Call = Call(now: real, requested: nat)

  function SpendAll(b: Bucket, calls: seq<Call>, l: Limits): Bucket
    decreases |calls|
  {
    if calls == [] then b else SpendAll(Spend(Some(b), calls[0].now, calls[0].requested, l), calls[1..], l)
  }

  /** The tokens granted over a run. */
  function Granted(b: Bucket, calls: seq<Call>, l: Limits): nat
    decreases |calls|
  {
    if calls == [] then 0
    else (if Grants(Some(b), calls[0].now, calls[0].requested, l) then calls[0].requested else 0)
         + Granted(Spend(Some(b), calls[0].now, calls[0].requested, l), calls[1..], l)
  }

  /** What the refill rate yields over the advance of the bucket's own clock. */
  function Earned(b: Bucket, b': Bucket, l: Limits): real {
    (b'.lastRefill - b.lastRefill) * l.refillRate
  }

  predicate Sound(b: Bucket, l: Limits) {
    0.0 <= b.tokens <= l.maxTokens as real
  }

  lemma RefillBound(b: Bucket, now: real, l: Limits)
    requires Sound(b, l) && l.refillRate >= 0.0
    ensures var b' := Refill(b, now, l);
            && Sound(b', l) && b'.lastRefill >= b.lastRefill
            && b.tokens <= b'.tokens <= b.tokens + Earned(b, b', l)
  {
    var elapsed := now - b.lastRefill;
    if elapsed > 0.0 {
      var gain := elapsed * l.refillRate;
      ProductIsNonnegative(elapsed, l.refillRate);
      assert Refill(b, now, l) == Bucket(Min(l.maxTokens as real, b.tokens + gain), now);
    } else {
      assert (b.lastRefill - b.lastRefill) * l.refillRate == 0.0;
    }
  }

  /** One call: it grants or leaves the bucket's content alone, and the content gains at most
      what the refill rate allows. */
  lemma SpendBound(b: Bucket, now: real, requested: nat, l: Limits)
    requires Sound(b, l) && l.refillRate >= 0.0
    ensures var b' := Spend(Some(b), now, requested, l);
            var granted := if Grants(Some(b), now, requested, l) then requested else 0;
            && Sound(b', l)
            && b'.lastRefill >= b.lastRefill
            && b'.tokens + granted as real <= b.tokens + Earned(b, b', l)
            && (!Grants(Some(b), now, requested, l) ==> b' == Refill(b, now, l) && b'.tokens >= b.tokens)
  {
    RefillBound(b, now, l);
    assert Spend(Some(b), now, requested, l).lastRefill == Refill(b, now, l).lastRefill;
    assert Earned(b, Spend(Some(b), now, requested, l), l) == Earned(b, Refill(b, now, l), l);
  }

  lemma EarnedAdds(a: Bucket, b: Bucket, c: Bucket, l: Limits)
    ensures Earned(a, b, l) + Earned(b, c, l) == Earned(a, c, l)
  {
  }

  lemma EarnedFromNothing(b: Bucket, l: Limits)
    ensures Earned(b, b, l) == 0.0
  {
  }

  /** Between any two points of any run, even with clock readings that go backward, the tokens
      granted are at most the bucket's content plus the refill for the advance of its own clock. */
  lemma {:induction false} GrantBound(b: Bucket, calls: seq<Call>, l: Limits)
    requires Sound(b, l) && l.refillRate >= 0.0
    ensures Sound(SpendAll(b, calls, l), l)
    ensures SpendAll(b, calls, l).lastRefill >= b.lastRefill
    ensures Granted(b, calls, l) as real + SpendAll(b, calls, l).tokens
         <= b.tokens + Earned(b, SpendAll(b, calls, l), l)
    decreases |calls|
  {
    if calls == [] {
      EarnedFromNothing(b, l);
    } else {
      var c := calls[0];
      var b1 := Spend(Some(b), c.now, c.requested, l);
      SpendBound(b, c.now, c.requested, l);
      GrantBound(b1, calls[1..], l);
      EarnedAdds(b, b1, SpendAll(b, calls, l), l);
    }
  }

  /** Hence never more than one full bucket plus the refill. */
  lemma GrantsStayInBudget(b: Bucket, calls: seq<Call>, l: Limits)
    requires Sound(b, l) && l.refillRate >= 0.0
    ensures Granted(b, calls, l) as real <= l.maxTokens as real + Earned(b, SpendAll(b, calls, l), l)
  {
    GrantBound(b, calls, l);
  }

  /** The reset time in the answer is exact: left alone, the bucket is full from that moment
      on and at no time before it. */
  lemma ResetIsExact(b: Bucket, wait: real, l: Limits)
    requires Sound(b, l) && l.refillRate > 0.0 && wait > 0.0
    ensures Refill(b, b.lastRefill + wait, l).tokens == l.maxTokens as real <==> wait >= ResetSeconds(b, l)
  {
    var gap := l.maxTokens as real - b.tokens;
    var reset := ResetSeconds(b, l);
    if gap > 0.0 {
      assert reset * l.refillRate == gap;
      if wait >= reset {
        assert (wait - reset) * l.refillRate >= 0.0;
      } else {
        assert (reset - wait) * l.refillRate > 0.0;
      }
      assert wait * l.refillRate == reset * l.refillRate + (wait - reset) * l.refillRate;
    } else {
      assert wait * l.refillRate >= 0.0;
    }
  }

  /** The remaining count in the answer is exact: a further request at the same instant is
      granted if and only if it asks for no more than that. */
  lemma RemainingIsExact(e: Option<Bucket>, now: real, requested: nat, more: nat, l: Limits)
    requires e.Some? ==> Sound(e.value, l)
    requires l.refillRate >= 0.0 && (l.maxTokens > 0 ==> l.refillRate > 0.0)
    ensures var answer := Reply(e, now, requested, l);
            && 0 <= answer.remaining <= l.maxTokens
            && (Grants(Some(Spend(e, now, requested, l)), now, more, l) <==> more <= answer.remaining)
  {
    var b := if e.Some? then e.value else Fresh(now, l);
    RefillBound(b, now, l);
    var after := Spend(e, now, requested, l);
    assert Refill(after, now, l) == after;
    assert after.tokens >= more as real <==> after.tokens.Floor >= more;
  }

  // ---------------------------------------------------------------------
  // What a bucket has to give
  // ---------------------------------------------------------------------

  /** What one run of the script finds: the refilled bucket, or a full one for a new key. */
  function Found(e: Option<Bucket>, now: real, l: Limits): real {
    if e.Some? then Refill(e.value, now, l).tokens else l.maxTokens as real
  }

  /** A request is granted exactly if what is found suffices, and takes what it asks for, no more;
      a refused one takes nothing. */
  lemma GrantTakesWhatItAsks(e: Option<Bucket>, now: real, requested: nat, l: Limits)
    ensures Grants(e, now, requested, l) <==> requested as real <= Found(e, now, l)
    ensures Spend(e, now, requested, l).tokens
         == Found(e, now, l) - if Grants(e, now, requested, l) then requested as real else 0.0
  {
  }

  /** At one instant the remaining count falls by just what is granted, from the limit for a new key. */
  lemma RemainingCountsDown(e: Option<Bucket>, now: real, requested: nat, more: nat, l: Limits)
    requires l.maxTokens > 0 ==> l.refillRate > 0.0
    ensures var first, again := Reply(e, now, requested, l), Reply(Some(Spend(e, now, requested, l)), now, more, l);
            && again.remaining == first.remaining - (if again.allowed then more else 0)
            && (e.None? ==> first.remaining == l.maxTokens - if first.allowed then requested else 0)
  {
    var after := Spend(e, now, requested, l);
    assert Refill(after, now, l) == after;
  }

  /** Left alone, a bucket can grant a request from the moment on at which the refill has made up
      for what is missing, if the request fits the bucket at all. */
  lemma AvailableIff(b: Bucket, wait: real, requested: nat, l: Limits)
    requires Sound(b, l) && l.refillRate > 0.0 && wait > 0.0
    ensures Grants(Some(b), b.lastRefill + wait, requested, l)
       <==> requested <= l.maxTokens && wait * l.refillRate >= requested as real - b.tokens
  {
    ProductIsNonnegative(wait, l.refillRate);
    assert b.lastRefill + wait - b.lastRefill == wait;
  }

  // ---------------------------------------------------------------------
  // The Redis key and its time to live
  // ---------------------------------------------------------------------

  /** A stored hash with the moment at which Redis forgets it. */
  datatype Entry = Entry(bucket: Bucket, deadline: real)

  function Live(e: Option<Entry>, clock: real): Option<Bucket> {
    if e.Some? && clock < e.value.deadline then Some(e.value.bucket) else None
  }

  /** A limiter of `maxTokens` per window of `window` seconds. */
  function WindowLimits(maxTokens: nat, window: real): Limits
    requires window > 0.0
  {
    Limits(maxTokens, maxTokens as real / window)
  }

  function Ttl(window: real): int {
    window.Floor * 2
  }

  function UnixSeconds(clock: real): real {
    clock.Floor as real
  }

  /** The Redis server as the script sees it: hashes, their deadlines, one key at a time. */
  class Redis {
    var hashes: map<string, Entry>

    ghost function Stored(key: string): Option<Entry>
      reads this
    {
      if key in hashes then Some(hashes[key]) else None
    }

    constructor ()
      ensures hashes == map[]
    {
      hashes := map[];
    }

    /** The part of the script that refills. */
    static method TopUp(tokens: real, lastRefill: real, now: real, l: Limits) returns (tokens': real, lastRefill': real)
      ensures Bucket(tokens', lastRefill') == Refill(Bucket(tokens, lastRefill), now, l)
    {
      tokens', lastRefill' := tokens, lastRefill;
      var elapsed := now - lastRefill;
      if elapsed > 0.0 {
        tokens' := Min(l.maxTokens as real, tokens + elapsed * l.refillRate);
        lastRefill' := now;
      }
    }

    /** The Lua script, run at time `clock` with the given arguments. A time to live that is not
        positive deletes the key at once, which a deadline in the past says too. */
    method RunScript(key: string, clock: real, now: real, l: Limits, requested: int, ttl: int)
      returns (answer: Answer)
      requires l.maxTokens > 0 ==> l.refillRate > 0.0
      modifies this
      ensures answer == Reply(Live(old(Stored(key)), clock), now, requested, l)
      ensures hashes == old(hashes)[key :=
                Entry(Spend(Live(old(Stored(key)), clock), now, requested, l), clock + ttl as real)]
    {
      ghost var before := Live(Stored(key), clock);
      var max := l.maxTokens as real;
      var tokens, lastRefill := max, now;
      if key in hashes && clock < hashes[key].deadline {
        tokens, lastRefill := hashes[key].bucket.tokens, hashes[key].bucket.lastRefill;
      }
      ghost var b := if before.Some? then before.value else Fresh(now, l);
      assert b == Bucket(tokens, lastRefill);
      tokens, lastRefill := TopUp(tokens, lastRefill, now, l);
      assert Bucket(tokens, lastRefill) == Refill(b, now, l);
      var allowed := false;
      if tokens >= requested as real {
        tokens := tokens - requested as real;
        allowed := true;
      }
      ghost var after := Spend(before, now, requested, l);
      assert Bucket(tokens, lastRefill) == after;
      hashes := hashes[key := Entry(Bucket(tokens, lastRefill), clock + ttl as real)];
      var resetSeconds := 0.0;
      if tokens < max && l.refillRate != 0.0 {
        resetSeconds := (max - tokens) / l.refillRate;
      }
      assert resetSeconds == ResetSeconds(after, l) && allowed == Grants(before, now, requested, l);
      answer := Answer(allowed, tokens.Floor, resetSeconds);
    }

    /** DistributedRateLimiter.Allow, which reads the clock again once the script has answered, and
        passes on one window from then instead of the script's reset time. */
    method Allow(key: string, clock: real, later: real, maxTokens: nat, window: real, count: int)
      returns (verdict: Verdict)
      requires window > 0.0
      modifies this
      ensures var answer := Ask(old(Stored(key)), clock, maxTokens, window, count).0;
              verdict == Verdict(answer.allowed, maxTokens, answer.remaining, later + window)
      ensures hashes == old(hashes)[key := Ask(old(Stored(key)), clock, maxTokens, window, count).1]
    {
      RateIsPositive(maxTokens, window);
      var answer := RunScript(key, clock, UnixSeconds(clock), WindowLimits(maxTokens, window), count, Ttl(window));
      var resetAt := later + window;
      return Verdict(answer.allowed, maxTokens, answer.remaining, resetAt);
    }
  }

  /** RateLimitResult */
  datatype Verdict = Verdict(allowed: bool, limit: nat, remaining: int, resetAt: real)

  lemma RateIsPositive(maxTokens: nat, window: real)
    requires window > 0.0
    ensures WindowLimits(maxTokens, window).refillRate >= 0.0
    ensures maxTokens > 0 ==> WindowLimits(maxTokens, window).refillRate > 0.0
    ensures WindowLimits(maxTokens, window).refillRate * window == maxTokens as real
  {
  }

  /** One call of the limiter: the answer and the stored entry. */
  function Ask(e: Option<Entry>, clock: real, maxTokens: nat, window: real, count: int): (Answer, Entry)
    requires window > 0.0
  {
    RateIsPositive(maxTokens, window);
    var l := WindowLimits(maxTokens, window);
    var b := Live(e, clock);
    var now := UnixSeconds(clock);
    (Reply(b, now, count, l), Entry(Spend(b, now, count, l), clock + Ttl(window) as real))
  }

  /** The same limiter on a store that never forgets. */
  function AskForever(b: Option<Bucket>, clock: real, maxTokens: nat, window: real, count: int): (Answer, Bucket)
    requires window > 0.0
  {
    RateIsPositive(maxTokens, window);
    var l := WindowLimits(maxTokens, window);
    (Reply(b, UnixSeconds(clock), count, l), Spend(b, UnixSeconds(clock), count, l))
  }

  datatype Arrival = Arrival(clock: real, count: nat)

  predicate Chronological(arrivals: seq<Arrival>) {
    forall i, j :: 0 <= i <= j < |arrivals| ==> arrivals[i].clock <= arrivals[j].clock
  }

  function Answers(e: Option<Entry>, arrivals: seq<Arrival>, maxTokens: nat, window: real): seq<Answer>
    requires window > 0.0
    decreases |arrivals|
  {
    if arrivals == [] then []
    else
      var r := Ask(e, arrivals[0].clock, maxTokens, window, arrivals[0].count);
      [r.0] + Answers(Some(r.1), arrivals[1..], maxTokens, window)
  }

  function AnswersForever(b: Option<Bucket>, arrivals: seq<Arrival>, maxTokens: nat, window: real): seq<Answer>
    requires window > 0.0
    decreases |arrivals|
  {
    if arrivals == [] then []
    else
      var r := AskForever(b, arrivals[0].clock, maxTokens, window, arrivals[0].count);
      [r.0] + AnswersForever(Some(r.1), arrivals[1..], maxTokens, window)
  }

  /** An entry as the limiter leaves it behind at time `clock`. */
  predicate WrittenAt(e: Entry, clock: real, maxTokens: nat, window: real) {
    && 0.0 <= e.bucket.tokens <= maxTokens as real
    && e.bucket.lastRefill == UnixSeconds(clock)
    && e.deadline == clock + Ttl(window) as real
  }

  lemma EnoughRefill(elapsed: real, maxTokens: nat, window: real)
    requires window >= 1.0 && elapsed >= Ttl(window) as real
    ensures elapsed * WindowLimits(maxTokens, window).refillRate >= maxTokens as real
  {
    RateIsPositive(maxTokens, window);
    var rate := WindowLimits(maxTokens, window).refillRate;
    assert window.Floor >= 1;
    assert elapsed >= window;
    assert (elapsed - window) * rate >= 0.0;
    assert elapsed * rate == window * rate + (elapsed - window) * rate;
  }

  /** By the time Redis forgets a bucket it would have been refilled to the brim. */
  lemma ExpiredMeansFull(e: Entry, written: real, clock: real, maxTokens: nat, window: real)
    requires window >= 1.0 && WrittenAt(e, written, maxTokens, window)
    requires clock >= e.deadline
    ensures Refill(e.bucket, UnixSeconds(clock), WindowLimits(maxTokens, window))
         == Fresh(UnixSeconds(clock), WindowLimits(maxTokens, window))
  {
    var elapsed := UnixSeconds(clock) - UnixSeconds(written);
    assert window.Floor >= 1;
    assert clock.Floor >= written.Floor + Ttl(window);
    EnoughRefill(elapsed, maxTokens, window);
  }

  /** One call on both stores, in step. */
  lemma AskInStep(e: Entry, written: real, a: Arrival, maxTokens: nat, window: real)
    requires window >= 1.0 && WrittenAt(e, written, maxTokens, window) && written <= a.clock
    ensures var r := Ask(Some(e), a.clock, maxTokens, window, a.count);
            && (r.0, r.1.bucket) == AskForever(Some(e.bucket), a.clock, maxTokens, window, a.count)
            && WrittenAt(r.1, a.clock, maxTokens, window)
  {
    var l := WindowLimits(maxTokens, window);
    RateIsPositive(maxTokens, window);
    SpendBound(e.bucket, UnixSeconds(a.clock), a.count, l);
    assert a.clock.Floor >= written.Floor;
    if a.clock >= e.deadline {
      ExpiredMeansFull(e, written, a.clock, maxTokens, window);
    }
  }

  lemma {:induction false} SameAnswersFrom(e: Entry, written: real, arrivals: seq<Arrival>,
                                           maxTokens: nat, window: real)
    requires window >= 1.0 && WrittenAt(e, written, maxTokens, window)
    requires Chronological(arrivals) && (arrivals != [] ==> written <= arrivals[0].clock)
    ensures Answers(Some(e), arrivals, maxTokens, window) == AnswersForever(Some(e.bucket), arrivals, maxTokens, window)
    decreases |arrivals|
  {
    if arrivals != [] {
      var a := arrivals[0];
      AskInStep(e, written, a, maxTokens, window);
      var r := Ask(Some(e), a.clock, maxTokens, window, a.count);
      SameAnswersFrom(r.1, a.clock, arrivals[1..], maxTokens, window);
    }
  }

  lemma SameAnswers(arrivals: seq<Arrival>, maxTokens: nat, window: real)
    requires window >= 1.0 && Chronological(arrivals)
    ensures Answers(None, arrivals, maxTokens, window) == AnswersForever(None, arrivals, maxTokens, window)
  {
    if arrivals != [] {
      var a := arrivals[0];
      var r := Ask(None, a.clock, maxTokens, window, a.count);
      SameAnswersFrom(r.1, a.clock, arrivals[1..], maxTokens, window);
    }
  }

  // ---------------------------------------------------------------------
  // What the limiter as a whole grants
  // ---------------------------------------------------------------------

  /** The tokens that a run of calls on one key is granted. */
  function Total(answers: seq<Answer>, arrivals: seq<Arrival>): nat
    requires |answers| == |arrivals|
  {
    if arrivals == [] then 0
    else (if answers[0].allowed then arrivals[0].count else 0) + Total(answers[1..], arrivals[1..])
  }

  lemma {:induction false} OneAnswerEach(e: Option<Entry>, arrivals: seq<Arrival>, maxTokens: nat, window: real)
    requires window > 0.0
    ensures |Answers(e, arrivals, maxTokens, window)| == |arrivals|
    decreases |arrivals|
  {
    if arrivals != [] {
      var a := arrivals[0];
      OneAnswerEach(Some(Ask(e, a.clock, maxTokens, window, a.count).1), arrivals[1..], maxTokens, window);
    }
  }

  /** What the refill rate yields between two clock readings, as the limiter truncates them. */
  function Yield(start: real, end: real, maxTokens: nat, window: real): real
    requires window > 0.0
  {
    (UnixSeconds(end) - UnixSeconds(start)) * WindowLimits(maxTokens, window).refillRate
  }

  lemma YieldAdds(a: real, b: real, c: real, maxTokens: nat, window: real)
    requires window > 0.0
    ensures Yield(a, b, maxTokens, window) + Yield(b, c, maxTokens, window) == Yield(a, c, maxTokens, window)
    ensures Yield(a, a, maxTokens, window) == 0.0
  {
    var r := WindowLimits(maxTokens, window).refillRate;
    ProductDistributes(UnixSeconds(b) - UnixSeconds(a), UnixSeconds(c) - UnixSeconds(b), r);
    assert 0.0 * r == 0.0;
  }

  function Finish(start: real, arrivals: seq<Arrival>): real {
    if arrivals == [] then start else arrivals[|arrivals| - 1].clock
  }

  lemma BucketYield(b: Bucket, written: real, a: Arrival, l: Limits, maxTokens: nat, window: real)
    requires window > 0.0 && l == WindowLimits(maxTokens, window) && l.refillRate >= 0.0
    requires Sound(b, l) && b.lastRefill == UnixSeconds(written) <= UnixSeconds(a.clock)
    ensures var b' := Spend(Some(b), UnixSeconds(a.clock), a.count, l);
            b'.tokens + (if Grants(Some(b), UnixSeconds(a.clock), a.count, l) then a.count as real else 0.0)
            <= b.tokens + Yield(written, a.clock, maxTokens, window)
  {
    SpendBound(b, UnixSeconds(a.clock), a.count, l);
    var b' := Spend(Some(b), UnixSeconds(a.clock), a.count, l);
    assert b'.lastRefill == UnixSeconds(a.clock);
    assert Earned(b, b', l) == Yield(written, a.clock, maxTokens, window);
  }

  /** One call on a stored entry, expired or not, takes what it grants and gains what the clock yields. */
  lemma AskBound(e: Entry, written: real, a: Arrival, maxTokens: nat, window: real)
    requires window >= 1.0 && WrittenAt(e, written, maxTokens, window) && written <= a.clock
    ensures var (answer, e') := Ask(Some(e), a.clock, maxTokens, window, a.count);
            && WrittenAt(e', a.clock, maxTokens, window)
            && e'.bucket.tokens + (if answer.allowed then a.count as real else 0.0)
               <= e.bucket.tokens + Yield(written, a.clock, maxTokens, window)
  {
    AskInStep(e, written, a, maxTokens, window);
    RateIsPositive(maxTokens, window);
    assert a.clock.Floor >= written.Floor;
    BucketYield(e.bucket, written, a, WindowLimits(maxTokens, window), maxTokens, window);
  }

  /** From any point of a run on, keys expiring or not, the limiter grants at most what the bucket
      holds there plus what the refill rate yields until the last call. */
  lemma {:induction false} BudgetFrom(e: Entry, written: real, arrivals: seq<Arrival>, maxTokens: nat, window: real)
    requires window >= 1.0 && WrittenAt(e, written, maxTokens, window)
    requires Chronological(arrivals) && (arrivals != [] ==> written <= arrivals[0].clock)
    ensures |Answers(Some(e), arrivals, maxTokens, window)| == |arrivals|
    ensures Total(Answers(Some(e), arrivals, maxTokens, window), arrivals) as real
         <= e.bucket.tokens + Yield(written, Finish(written, arrivals), maxTokens, window)
    decreases |arrivals|
  {
    OneAnswerEach(Some(e), arrivals, maxTokens, window);
    if arrivals == [] {
      YieldAdds(written, written, written, maxTokens, window);
    } else {
      var a, rest := arrivals[0], arrivals[1..];
      var r := Ask(Some(e), a.clock, maxTokens, window, a.count);
      AskBound(e, written, a, maxTokens, window);
      BudgetFrom(r.1, a.clock, rest, maxTokens, window);
      var more, end := Answers(Some(r.1), rest, maxTokens, window), Finish(a.clock, rest);
      assert end == Finish(written, arrivals);
      FirstTotal(r.0, more, arrivals);
      YieldAdds(written, a.clock, end, maxTokens, window);
      BoundAdds(if r.0.allowed then a.count else 0, Total(more, rest), r.1.bucket.tokens, e.bucket.tokens,
                Yield(written, a.clock, maxTokens, window), Yield(a.clock, end, maxTokens, window));
    }
  }

  lemma FirstTotal(answer: Answer, more: seq<Answer>, arrivals: seq<Arrival>)
    requires |arrivals| == 1 + |more|
    ensures Total([answer] + more, arrivals)
         == (if answer.allowed then arrivals[0].count else 0) + Total(more, arrivals[1..])
  {
    assert ([answer] + more)[1..] == more;
  }

  /** Over any run in time order on one key, keys expiring or not, the limiter grants at most one full
      bucket plus what the refill rate yields between the first call and the last. */
  lemma LimiterBudget(arrivals: seq<Arrival>, maxTokens: nat, window: real)
    requires window >= 1.0 && Chronological(arrivals) && arrivals != []
    ensures |Answers(None, arrivals, maxTokens, window)| == |arrivals|
    ensures Total(Answers(None, arrivals, maxTokens, window), arrivals) as real
         <= maxTokens as real + Yield(arrivals[0].clock, arrivals[|arrivals| - 1].clock, maxTokens, window)
  {
    OneAnswerEach(None, arrivals, maxTokens, window);
    var a, rest := arrivals[0], arrivals[1..];
    var r := Ask(None, a.clock, maxTokens, window, a.count);
    RateIsPositive(maxTokens, window);
    BudgetFrom(r.1, a.clock, rest, maxTokens, window);
    FirstTotal(r.0, Answers(Some(r.1), rest, maxTokens, window), arrivals);
    assert Finish(a.clock, rest) == arrivals[|arrivals| - 1].clock;
  }

  /** The tokens granted before the i-th call of a run. */
  function GrantedBefore(e: Option<Entry>, arrivals: seq<Arrival>, i: nat, maxTokens: nat, window: real): nat
    requires window > 0.0 && i <= |arrivals|
    decreases i
  {
    if i == 0 then 0
    else
      var r := Ask(e, arrivals[0].clock, maxTokens, window, arrivals[0].count);
      (if r.0.allowed then arrivals[0].count else 0)
      + GrantedBefore(Some(r.1), arrivals[1..], i - 1, maxTokens, window)
  }

  lemma {:induction false} ServedFrom(e: Option<Entry>, arrivals: seq<Arrival>, i: nat, room: int,
                                      maxTokens: nat, window: real)
    requires window > 0.0 && i < |arrivals| && room <= maxTokens
    requires e.Some? ==> room as real <= e.value.bucket.tokens <= maxTokens as real
    ensures |Answers(e, arrivals, maxTokens, window)| == |arrivals|
    ensures GrantedBefore(e, arrivals, i, maxTokens, window) + arrivals[i].count <= room ==>
              Answers(e, arrivals, maxTokens, window)[i].allowed
    decreases i
  {
    OneAnswerEach(e, arrivals, maxTokens, window);
    var a, rest := arrivals[0], arrivals[1..];
    var r := Ask(e, a.clock, maxTokens, window, a.count);
    AskLeaves(e, a, room, maxTokens, window);
    if i > 0 {
      assert rest[i - 1] == arrivals[i];
      ServedFrom(Some(r.1), rest, i - 1, room - (if r.0.allowed then a.count else 0), maxTokens, window);
    }
  }

  /** A call grants what fits into the room there is at least, and leaves the rest of that room. */
  lemma AskLeaves(e: Option<Entry>, a: Arrival, room: int, maxTokens: nat, window: real)
    requires window > 0.0 && room <= maxTokens
    requires e.Some? ==> room as real <= e.value.bucket.tokens <= maxTokens as real
    ensures var (answer, e') := Ask(e, a.clock, maxTokens, window, a.count);
            && (a.count <= room ==> answer.allowed)
            && (room - if answer.allowed then a.count else 0) as real <= e'.bucket.tokens <= maxTokens as real
  {
    RateIsPositive(maxTokens, window);
    var l, now, b := WindowLimits(maxTokens, window), UnixSeconds(a.clock), Live(e, a.clock);
    GrantTakesWhatItAsks(b, now, a.count, l);
    if b.Some? {
      RefillGains(b.value, now, l);
    }
  }

  lemma RefillGains(b: Bucket, now: real, l: Limits)
    requires b.tokens <= l.maxTokens as real && l.refillRate >= 0.0
    ensures b.tokens <= Refill(b, now, l).tokens <= l.maxTokens as real
  {
    if now > b.lastRefill {
      ProductIsNonnegative(now - b.lastRefill, l.refillRate);
    }
  }

  /** In every run on one key, at whatever clock readings and with keys expiring or not, a request is
      granted as long as it and the grants before it stay within the limit. */
  lemma LimiterServes(arrivals: seq<Arrival>, i: nat, maxTokens: nat, window: real)
    requires window > 0.0 && i < |arrivals|
    ensures |Answers(None, arrivals, maxTokens, window)| == |arrivals|
    ensures GrantedBefore(None, arrivals, i, maxTokens, window) + arrivals[i].count <= maxTokens ==>
              Answers(None, arrivals, maxTokens, window)[i].allowed
  {
    ServedFrom(None, arrivals, i, maxTokens, maxTokens, window);
  }

  /** Within one second of the clock nothing is refilled: a further request takes from what the
      answer before it said to remain. */
  lemma SameSecond(e: Option<Entry>, a: Arrival, b: Arrival, maxTokens: nat, window: real)
    requires window >= 1.0 && a.clock <= b.clock && a.clock.Floor == b.clock.Floor
    ensures var r := Ask(e, a.clock, maxTokens, window, a.count);
            var again := Ask(Some(r.1), b.clock, maxTokens, window, b.count).0;
            (e.None? || e.value.bucket.lastRefill <= UnixSeconds(a.clock)) ==>
              again.remaining == r.0.remaining - if again.allowed then b.count else 0
  {
    RateIsPositive(maxTokens, window);
    var l, now := WindowLimits(maxTokens, window), UnixSeconds(a.clock);
    var r := Ask(e, a.clock, maxTokens, window, a.count);
    assert window.Floor >= 1;
    assert Live(Some(r.1), b.clock) == Some(r.1.bucket);
    RemainingCountsDown(Live(e, a.clock), now, a.count, b.count, l);
  }

  /** A stored entry lives for two windows, in whole seconds. */
  lemma EntryLivesTwoWindows(e: Option<Entry>, a: Arrival, maxTokens: nat, seconds: nat, window: real)
    requires seconds as real <= window < (seconds + 1) as real && window > 0.0
    ensures Ask(e, a.clock, maxTokens, window, a.count).1.deadline == a.clock + (2 * seconds) as real
  {
    assert window.Floor == seconds;
  }

  /** With a window of less than a second no run in time order is ever limited: every request of at
      most a full bucket is granted, however many there are. */
  lemma {:induction false} ShortWindowLimitsNothing(e: Option<Entry>, arrivals: seq<Arrival>, i: nat,
                                                    maxTokens: nat, window: real)
    requires 0.0 < window < 1.0 && Chronological(arrivals) && i < |arrivals|
    requires e.Some? ==> e.value.deadline <= arrivals[0].clock
    ensures |Answers(e, arrivals, maxTokens, window)| == |arrivals|
    ensures Answers(e, arrivals, maxTokens, window)[i].allowed <==> arrivals[i].count <= maxTokens
    decreases |arrivals|
  {
    OneAnswerEach(e, arrivals, maxTokens, window);
    var a, rest := arrivals[0], arrivals[1..];
    var r := Ask(e, a.clock, maxTokens, window, a.count);
    assert window.Floor == 0 && Live(e, a.clock).None?;
    if i > 0 {
      assert rest[0] == arrivals[1];
      ShortWindowLimitsNothing(Some(r.1), rest, i - 1, maxTokens, window);
    }
  }

  /** A window of less than a second makes the time to live zero: the key is gone before the
      next call, and a second full-size request at the same instant is granted. */
  lemma ShortWindowForgets(maxTokens: nat, window: real)
    requires 0.0 < window < 1.0 && maxTokens >= 1
    ensures var twice := [Arrival(0.0, maxTokens), Arrival(0.0, maxTokens)];
            && Chronological(twice)
            && |Answers(None, twice, maxTokens, window)| == 2 == |AnswersForever(None, twice, maxTokens, window)|
            && Answers(None, twice, maxTokens, window)[1].allowed
            && !AnswersForever(None, twice, maxTokens, window)[1].allowed
  {
    var a := Arrival(0.0, maxTokens);
    assert [a, a][1..] == [a];
    assert [a][1..] == [];
    assert window.Floor == 0;
    var r := Ask(None, 0.0, maxTokens, window, maxTokens);
    assert Answers(None, [a, a], maxTokens, window) == [r.0] + Answers(Some(r.1), [a], maxTokens, window);
    var f := AskForever(None, 0.0, maxTokens, window, maxTokens);
    assert AnswersForever(None, [a, a], maxTokens, window) == [f.0] + AnswersForever(Some(f.1), [a], maxTokens, window);
  }

  /** Forgetting idle buckets goes unnoticed, whatever the callers do at whatever times, exactly
      when the window is at least one second. */
  lemma ForgettingIsUnobservable(maxTokens: nat, window: real)
    requires window > 0.0 && maxTokens >= 1
    ensures (forall arrivals :: Chronological(arrivals) ==>
               Answers(None, arrivals, maxTokens, window) == AnswersForever(None, arrivals, maxTokens, window))
       <==> window >= 1.0
  {
    if window >= 1.0 {
      forall arrivals | Chronological(arrivals)
        ensures Answers(None, arrivals, maxTokens, window) == AnswersForever(None, arrivals, maxTokens, window)
      {
        SameAnswers(arrivals, maxTokens, window);
      }
    } else {
      ShortWindowForgets(maxTokens, window);
    }
  }
}
