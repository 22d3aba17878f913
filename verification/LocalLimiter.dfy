/** The in-process rate limiter: a table of per-key token buckets with a cleanup sweep.
    The bucket itself is the `rate.Limiter` of golang.org/x/time, with exact numbers. */
module LocalLimiter {
  import opened Reals
  import opened Text

  datatype Bucket = Bucket(tokens: real, last: real)

  datatype Entry = Entry(limiter: Bucket, lastSeen: real)

  /** requestsPerWindow, windowSize in seconds, and the bound on tracked keys. */
  datatype Config = Config(burst: nat, window: real, maxEntries: int)

  datatype Answer = Answer(allowed: bool, limit: nat, remaining: int, resetAt: real)

  function Rate(c: Config): (r: real)
    requires c.window > 0.0
    ensures r >= 0.0 && r * c.window == c.burst as real
  {
    c.burst as real / c.window
  }

  function NewLimiter(now: real, c: Config): Bucket {
    Bucket(c.burst as real, now)
  }

  /** TokensAt: the content at time `t`, refilled since the last update and capped. */
  function Level(b: Bucket, t: real, c: Config): real
    requires c.window > 0.0
  {
    if t <= b.last then Min(c.burst as real, b.tokens)
    else Min(c.burst as real, b.tokens + (t - b.last) * Rate(c))
  }

  /** AllowN: an admitted request is deducted, a refused one changes nothing. */
  function AllowN(b: Bucket, t: real, n: nat, c: Config): (bool, Bucket)
    requires c.window > 0.0
  {
    if n <= c.burst && Level(b, t, c) - n as real >= 0.0 then (true, Bucket(Level(b, t, c) - n as real, t))
    else (false, b)
  }

  function Serve(b: Bucket, t: real, n: nat, c: Config): (Answer, Bucket)
    requires c.window > 0.0
  {
    var r := AllowN(b, t, n, c);
    var left := Level(r.1, t, c).Floor;
    (Answer(r.0, c.burst, if left < 0 then 0 else left, t + c.window), r.1)
  }

  type Table = map<string, Entry>

  predicate Refused(table: Table, key: string, c: Config) {
    key !in table && |table| >= c.maxEntries
  }

  function Lookup(table: Table, key: string, now: real, c: Config): Bucket {
    if key in table then table[key].limiter else NewLimiter(now, c)
  }

  function Refusal(now: real, c: Config): Answer {
    Answer(false, c.burst, 0, now + c.window)
  }

  function Allow(table: Table, key: string, count: nat, now: real, c: Config): (Answer, Table)
    requires c.window > 0.0
  {
    if Refused(table, key, c) then (Refusal(now, c), table)
    else
      var r := Serve(Lookup(table, key, now, c), now, count, c);
      (r.0, table[key := Entry(r.1, now)])
  }

  predicate Idle(e: Entry, now: real, c: Config) {
    now - e.lastSeen > 2.0 * c.window
  }

  function Sweep(table: Table, now: real, c: Config): Table {
    map k | k in table && !Idle(table[k], now, c) :: table[k]
  }

  class KeyedRateLimiter {
    var limiters: Table
    const config: Config

    constructor (config: Config)
      ensures this.config == config && limiters == map[]
    {
      this.config := config;
      limiters := map[];
    }

    method AllowRequest(key: string, count: nat, now: real) returns (answer: Answer)
      requires config.window > 0.0
      modifies this`limiters
      ensures (answer, limiters) == Allow(old(limiters), key, count, now, config)
      ensures answer.limit == config.burst && answer.resetAt == now + config.window
    {
      var entry;
      if key !in limiters {
        if |limiters| >= config.maxEntries {
          return Answer(false, config.burst, 0, now + config.window);
        }
        entry := Entry(NewLimiter(now, config), now);
      } else {
        entry := limiters[key];
      }
      var allowed, limiter := AllowN(entry.limiter, now, count, config).0, AllowN(entry.limiter, now, count, config).1;
      limiters := limiters[key := Entry(limiter, now)];
      var remaining := Level(limiter, now, config).Floor;
      if remaining < 0 {
        remaining := 0;
      }
      var resetAt := now + config.window;
      return Answer(allowed, config.burst, remaining, resetAt);
    }

    /** One tick of startCleanup: the table is visited in an arbitrary order. */
    method Cleanup(now: real)
      modifies this`limiters
      ensures limiters == Sweep(old(limiters), now, config)
    {
      var todo := limiters.Keys;
      while todo != {}
        invariant todo <= limiters.Keys <= old(limiters).Keys
        invariant forall k :: k in limiters ==> limiters[k] == old(limiters)[k]
        invariant forall k :: k in old(limiters) && k !in todo ==>
                    (k in limiters <==> !Idle(old(limiters)[k], now, config))
        decreases todo
      {
        var key :| key in todo;
        if now - limiters[key].lastSeen > 2.0 * config.window {
          limiters := limiters - {key};
        }
        todo := todo - {key};
      }
      assert limiters.Keys == Sweep(old(limiters), now, config).Keys;
    }
  }

  // ---------------------------------------------------------------------
  // What one bucket grants
  // ---------------------------------------------------------------------

  datatype Call = Call(now: real, count: nat)

  predicate InTimeOrder(now: real, calls: seq<Call>) {
    && (forall i :: 0 <= i < |calls| ==> now <= calls[i].now)
    && (forall i, j :: 0 <= i <= j < |calls| ==> calls[i].now <= calls[j].now)
  }

  function EndTime(now: real, calls: seq<Call>): real {
    if calls == [] then now else calls[|calls| - 1].now
  }

  function Granted(b: Bucket, calls: seq<Call>, c: Config): nat
    requires c.window > 0.0
    decreases |calls|
  {
    if calls == [] then 0
    else
      var r := AllowN(b, calls[0].now, calls[0].count, c);
      (if r.0 then calls[0].count else 0) + Granted(r.1, calls[1..], c)
  }

  /** One call, refused or not, takes exactly what it grants. */
  lemma AllowTakesWhatItGrants(b: Bucket, now: real, n: nat, c: Config)
    requires c.window > 0.0 && Sound(b, now, c)
    ensures var r := AllowN(b, now, n, c);
            Sound(r.1, now, c) && Level(r.1, now, c) == Level(b, now, c) - if r.0 then n as real else 0.0
  {
    LevelIs(b, now, c);
  }

  function Refilled(start: real, end: real, c: Config): real
    requires c.window > 0.0
  {
    (end - start) * Rate(c)
  }

  lemma RefilledFacts(start: real, middle: real, end: real, c: Config)
    requires c.window > 0.0
    ensures Refilled(start, start, c) == 0.0
    ensures Refilled(start, middle, c) + Refilled(middle, end, c) == Refilled(start, end, c)
  {
    var r := Rate(c);
    assert start - start == 0.0 && 0.0 * r == 0.0;
    ProductDistributes(middle - start, end - middle, r);
    assert (middle - start) + (end - middle) == end - start;
  }

  lemma GrantStep(b: Bucket, now: real, t: real, n: nat, c: Config)
    requires c.window > 0.0 && Sound(b, now, c) && now <= t
    ensures var r := AllowN(b, t, n, c);
            && Sound(r.1, t, c)
            && Level(r.1, t, c) + (if r.0 then n as real else 0.0) <= Level(b, now, c) + Refilled(now, t, c)
  {
    LevelLater(b, now, t, c);
    AllowTakesWhatItGrants(b, t, n, c);
  }

  /** Over any run in time order a bucket grants at most its content at the start plus the refill
      for the time that passes. */
  lemma {:induction false} GrantBound(b: Bucket, now: real, calls: seq<Call>, c: Config)
    requires c.window > 0.0 && Sound(b, now, c) && InTimeOrder(now, calls)
    ensures Granted(b, calls, c) as real <= Level(b, now, c) + Refilled(now, EndTime(now, calls), c)
    decreases |calls|
  {
    if calls == [] {
      LevelIs(b, now, c);
      RefilledFacts(now, now, now, c);
    } else {
      var t, n, rest := calls[0].now, calls[0].count, calls[1..];
      var r, end := AllowN(b, t, n, c), EndTime(t, rest);
      GrantStep(b, now, t, n, c);
      GrantBound(r.1, t, rest, c);
      assert end == EndTime(now, calls);
      RefilledFacts(now, t, end, c);
      BoundAdds(if r.0 then n else 0, Granted(r.1, rest, c), Level(r.1, t, c),
                Level(b, now, c), Refilled(now, t, c), Refilled(t, end, c));
    }
  }

  /** The remaining count in an answer is exact: a further request at the same instant is granted
      if and only if it asks for no more than that. */
  lemma RemainingIsExact(b: Bucket, now: real, n: nat, more: nat, c: Config)
    requires c.window > 0.0 && Sound(b, now, c)
    ensures var r := Serve(b, now, n, c);
            && 0 <= r.0.remaining <= c.burst
            && (AllowN(r.1, now, more, c).0 <==> more <= r.0.remaining)
  {
    AllowTakesWhatItGrants(b, now, n, c);
    var b1 := AllowN(b, now, n, c).1;
    LevelIs(b1, now, c);
    assert Level(b1, now, c) >= more as real <==> Level(b1, now, c).Floor >= more;
  }

  /** Left alone, a bucket can grant a request from the moment on at which the refill has made up for
      what is missing, if the request fits the bucket at all. */
  lemma AvailableIff(b: Bucket, now: real, later: real, n: nat, c: Config)
    requires c.window > 0.0 && Sound(b, now, c) && now <= later
    ensures AllowN(b, later, n, c).0 <==> n <= c.burst && Refilled(now, later, c) >= n as real - Level(b, now, c)
  {
    LevelLater(b, now, later, c);
    CoversIff(c.burst as real, Level(b, now, c), Refilled(now, later, c), Level(b, later, c), n as real);
  }

  /** The level in terms of the refill. */
  lemma LevelLater(b: Bucket, now: real, later: real, c: Config)
    requires c.window > 0.0 && Sound(b, now, c) && now <= later
    ensures Level(b, later, c) == Min(c.burst as real, Level(b, now, c) + Refilled(now, later, c))
    ensures 0.0 <= Level(b, now, c) <= c.burst as real
  {
    LevelAdvances(b, now, later, c);
  }

  lemma CoversIff(cap: real, level: real, gain: real, level': real, n: real)
    requires level' == Min(cap, level + gain)
    ensures n <= cap && level' - n >= 0.0 <==> n <= cap && gain >= n - level
  {
  }

  // ---------------------------------------------------------------------
  // Sweeping goes unnoticed
  // ---------------------------------------------------------------------

  datatype Event = Ask(key: string, count: nat, now: real) | Tick(now: real)

  /** Calls are in time order. A sweep may work with the time of a tick that has waited for the
      lock, so that only what comes after it is later. */
  predicate Chronological(events: seq<Event>) {
    forall i, j :: 0 <= i <= j < |events| && events[j].Ask? ==> events[i].now <= events[j].now
  }

  /** All calls to come are at `now` or later. */
  predicate Ahead(now: real, events: seq<Event>) {
    forall i :: 0 <= i < |events| && events[i].Ask? ==> now <= events[i].now
  }

  function Next(table: Table, e: Event, c: Config): Table
    requires c.window > 0.0
  {
    match e
    case Ask(key, count, now) => Allow(table, key, count, now, c).1
    case Tick(now) => Sweep(table, now, c)
  }

  /** No call finds the table full while its key is not tracked. */
  predicate NeverFull(table: Table, events: seq<Event>, c: Config)
    requires c.window > 0.0
    decreases |events|
  {
    events == [] ||
    ((events[0].Ask? ==> !Refused(table, events[0].key, c)) && NeverFull(Next(table, events[0], c), events[1..], c))
  }

  function Answers(table: Table, events: seq<Event>, c: Config): seq<Answer>
    requires c.window > 0.0
    decreases |events|
  {
    if events == [] then []
    else (match events[0]
          case Ask(key, count, now) => [Allow(table, key, count, now, c).0]
          case Tick(_) => [])
         + Answers(Next(table, events[0], c), events[1..], c)
  }

  /** The reference: one bucket per key, kept for ever and without a bound on keys. */
  type Ideal = map<string, Bucket>

  function Find(ideal: Ideal, key: string, now: real, c: Config): Bucket {
    if key in ideal then ideal[key] else NewLimiter(now, c)
  }

  function IdealNext(ideal: Ideal, e: Event, c: Config): Ideal
    requires c.window > 0.0
  {
    match e
    case Ask(key, count, now) => ideal[key := Serve(Find(ideal, key, now, c), now, count, c).1]
    case Tick(_) => ideal
  }

  function IdealAnswers(ideal: Ideal, events: seq<Event>, c: Config): seq<Answer>
    requires c.window > 0.0
    decreases |events|
  {
    if events == [] then []
    else (match events[0]
          case Ask(key, count, now) => [Serve(Find(ideal, key, now, c), now, count, c).0]
          case Tick(_) => [])
         + IdealAnswers(IdealNext(ideal, events[0], c), events[1..], c)
  }

  predicate Sound(b: Bucket, now: real, c: Config) {
    0.0 <= b.tokens <= c.burst as real && b.last <= now
  }

  /** Two buckets that no later call can tell apart. */
  predicate Alike(a: Bucket, b: Bucket, now: real, c: Config)
    requires c.window > 0.0
  {
    Sound(a, now, c) && Sound(b, now, c) && Level(a, now, c) == Level(b, now, c)
  }

  predicate Full(b: Bucket, now: real, c: Config)
    requires c.window > 0.0
  {
    Sound(b, now, c) && Level(b, now, c) == c.burst as real
  }

  /** The swept table shows for every tracked key the ideal bucket, and every key it has
      forgotten has a full one. */
  predicate Related(table: Table, ideal: Ideal, now: real, c: Config)
    requires c.window > 0.0
  {
    && (forall k :: k in table ==> k in ideal && Alike(table[k].limiter, ideal[k], now, c))
    && (forall k :: k in table ==> table[k].limiter.last <= table[k].lastSeen <= now)
    && (forall k :: k in ideal && k !in table ==> Full(ideal[k], now, c))
  }

  lemma CappedTwice(cap: real, level: real, x: real, y: real)
    requires y >= 0.0
    ensures Min(cap, Min(cap, level + x) + y) == Min(cap, level + (x + y))
  {
  }

  /** The level without the case that no time has passed. */
  lemma LevelIs(b: Bucket, now: real, c: Config)
    requires c.window > 0.0 && Sound(b, now, c)
    ensures (now - b.last) * Rate(c) >= 0.0
    ensures Level(b, now, c) == Min(c.burst as real, b.tokens + (now - b.last) * Rate(c))
    ensures 0.0 <= Level(b, now, c) <= c.burst as real
  {
    var r := Rate(c);
    ProductIsNonnegative(now - b.last, r);
    if now <= b.last {
      assert now - b.last == 0.0;
    }
  }

  /** Between updates a level only depends on the level before and the time that passed. */
  lemma LevelAdvances(b: Bucket, now: real, later: real, c: Config)
    requires c.window > 0.0 && Sound(b, now, c) && now <= later
    ensures Level(b, later, c) == Min(c.burst as real, Level(b, now, c) + (later - now) * Rate(c))
    ensures 0.0 <= Level(b, now, c) <= c.burst as real
  {
    var r := Rate(c);
    var x, y := (now - b.last) * r, (later - now) * r;
    LevelIs(b, now, c);
    LevelIs(b, later, c);
    ProductDistributes(now - b.last, later - now, r);
    assert (now - b.last) + (later - now) == later - b.last;
    ProductIsNonnegative(later - now, r);
    CappedTwice(c.burst as real, b.tokens, x, y);
  }

  lemma AlikeLater(a: Bucket, b: Bucket, now: real, later: real, c: Config)
    requires c.window > 0.0 && Alike(a, b, now, c) && now <= later
    ensures Alike(a, b, later, c)
  {
    LevelAdvances(a, now, later, c);
    LevelAdvances(b, now, later, c);
  }

  lemma FullLater(b: Bucket, now: real, later: real, c: Config)
    requires c.window > 0.0 && Full(b, now, c) && now <= later
    ensures Full(b, later, c)
  {
    LevelAdvances(b, now, later, c);
    ProductIsMonotone(0.0, later - now, Rate(c));
  }

  /** After two idle windows a bucket is full again. */
  lemma IdleMeansFull(b: Bucket, lastSeen: real, now: real, c: Config)
    requires c.window > 0.0 && Sound(b, lastSeen, c)
    requires now - lastSeen > 2.0 * c.window
    ensures Full(b, now, c)
  {
    var r, gone := Rate(c), now - b.last;
    ProductIsMonotone(c.window, gone, r);
    assert gone * r >= c.burst as real;
    LevelIs(b, now, c);
  }

  lemma NewIsFull(now: real, c: Config)
    requires c.window > 0.0
    ensures Full(NewLimiter(now, c), now, c)
  {
  }

  lemma ServeAlike(a: Bucket, b: Bucket, now: real, n: nat, c: Config)
    requires c.window > 0.0 && Alike(a, b, now, c)
    ensures Serve(a, now, n, c).0 == Serve(b, now, n, c).0
    ensures Alike(Serve(a, now, n, c).1, Serve(b, now, n, c).1, now, c)
  {
    LevelAdvances(a, now, now, c);
  }

  lemma RelatedLater(table: Table, ideal: Ideal, now: real, later: real, c: Config)
    requires c.window > 0.0 && Related(table, ideal, now, c) && now <= later
    ensures Related(table, ideal, later, c)
  {
    forall k | k in table ensures Alike(table[k].limiter, ideal[k], later, c) {
      AlikeLater(table[k].limiter, ideal[k], now, later, c);
    }
    forall k | k in ideal && k !in table ensures Full(ideal[k], later, c) {
      FullLater(ideal[k], now, later, c);
    }
  }

  lemma AskRelated(table: Table, ideal: Ideal, key: string, count: nat, now: real, c: Config)
    requires c.window > 0.0 && Related(table, ideal, now, c) && !Refused(table, key, c)
    ensures Allow(table, key, count, now, c).0 == Serve(Find(ideal, key, now, c), now, count, c).0
    ensures Related(Allow(table, key, count, now, c).1, IdealNext(ideal, Ask(key, count, now), c), now, c)
  {
    NewIsFull(now, c);
    ServeAlike(Lookup(table, key, now, c), Find(ideal, key, now, c), now, count, c);
  }

  lemma SweepRelated(table: Table, ideal: Ideal, tick: real, now: real, c: Config)
    requires c.window > 0.0 && Related(table, ideal, now, c) && tick <= now
    ensures Related(Sweep(table, tick, c), ideal, now, c)
  {
    forall k | k in ideal && k !in Sweep(table, tick, c) ensures Full(ideal[k], now, c) {
      if k in table {
        IdleMeansFull(table[k].limiter, table[k].lastSeen, tick, c);
        FullLater(table[k].limiter, tick, now, c);
      }
    }
  }

  function Later(now: real, e: Event): real {
    if now <= e.now then e.now else now
  }

  /** One event on both sides, in step. */
  lemma NextRelated(table: Table, ideal: Ideal, now: real, events: seq<Event>, c: Config)
    requires c.window > 0.0 && Related(table, ideal, now, c)
    requires events != [] && Chronological(events) && Ahead(now, events)
    requires events[0].Ask? ==> !Refused(table, events[0].key, c)
    ensures Related(Next(table, events[0], c), IdealNext(ideal, events[0], c), Later(now, events[0]), c)
    ensures Chronological(events[1..]) && Ahead(Later(now, events[0]), events[1..])
    ensures events[0].Ask? ==>
              var Ask(key, count, t) := events[0];
              Allow(table, key, count, t, c).0 == Serve(Find(ideal, key, t, c), t, count, c).0
  {
    var e := events[0];
    RelatedLater(table, ideal, now, Later(now, e), c);
    match e
    case Ask(key, count, t) => AskRelated(table, ideal, key, count, t, c);
    case Tick(t) => SweepRelated(table, ideal, t, Later(now, e), c);
  }

  lemma {:induction false} SweepingFrom(table: Table, ideal: Ideal, now: real, events: seq<Event>, c: Config)
    requires c.window > 0.0 && Related(table, ideal, now, c)
    requires Chronological(events) && Ahead(now, events)
    requires NeverFull(table, events, c)
    ensures Answers(table, events, c) == IdealAnswers(ideal, events, c)
    decreases |events|
  {
    if events != [] {
      var e := events[0];
      NextRelated(table, ideal, now, events, c);
      SweepingFrom(Next(table, e, c), IdealNext(ideal, e, c), Later(now, e), events[1..], c);
    }
  }

  /** A bucket that a refused key would have: it is full, and answers differently. */
  lemma FullAnswersDifferently(b: Bucket, now: real, count: nat, c: Config)
    requires c.window > 0.0 && c.burst >= 1 && Full(b, now, c)
    ensures Serve(b, now, count, c).0 != Refusal(now, c)
  {
    assert count > c.burst ==> Serve(b, now, count, c).0.remaining == c.burst;
  }

  lemma {:induction false} RefusalShows(table: Table, ideal: Ideal, now: real, events: seq<Event>, c: Config)
    requires c.window > 0.0 && c.burst >= 1 && Related(table, ideal, now, c)
    requires Chronological(events) && Ahead(now, events)
    requires !NeverFull(table, events, c)
    ensures Answers(table, events, c) != IdealAnswers(ideal, events, c)
    decreases |events|
  {
    var e := events[0];
    var here, there := Answers(table, events, c), IdealAnswers(ideal, events, c);
    if e.Ask? && Refused(table, e.key, c) {
      RelatedLater(table, ideal, now, e.now, c);
      FullAnswersDifferently(Find(ideal, e.key, e.now, c), e.now, e.count, c);
      assert here[0] != there[0];
    } else {
      var here' := Answers(Next(table, e, c), events[1..], c);
      var there' := IdealAnswers(IdealNext(ideal, e, c), events[1..], c);
      NextRelated(table, ideal, now, events, c);
      RefusalShows(Next(table, e, c), IdealNext(ideal, e, c), Later(now, e), events[1..], c);
      if e.Ask? {
        assert here[1..] == here' && there[1..] == there';
      } else {
        assert here == [] + here' == here' && there == [] + there' == there';
      }
    }
  }

  /** For every run of calls in time order, with sweeps anywhere in it and up to date or not, the
      answers are those of buckets that are never dropped as long as the table is below its bound
      whenever an untracked key shows up; and, unless the limit is zero requests, only then. */
  lemma SweepIsUnobservable(events: seq<Event>, c: Config)
    requires c.window > 0.0 && Chronological(events)
    ensures NeverFull(map[], events, c) ==> Answers(map[], events, c) == IdealAnswers(map[], events, c)
    ensures c.burst >= 1 ==>
              (Answers(map[], events, c) == IdealAnswers(map[], events, c) <==> NeverFull(map[], events, c))
  {
    if events != [] {
      if NeverFull(map[], events, c) {
        SweepingFrom(map[], map[], events[0].now, events, c);
      } else if c.burst >= 1 {
        RefusalShows(map[], map[], events[0].now, events, c);
      }
    }
  }

  /** The one visible difference: a full table refuses untracked keys, and remembers nothing of it. */
  lemma FullTableRefuses(table: Table, key: string, count: nat, now: real, c: Config)
    requires c.window > 0.0
    ensures |Allow(table, key, count, now, c).1|
         <= if |table| > c.maxEntries then |table| else if c.maxEntries > 0 then c.maxEntries else 0
    ensures Refused(table, key, c) <==> key !in Allow(table, key, count, now, c).1
    ensures Refused(table, key, c) ==> Allow(table, key, count, now, c) == (Refusal(now, c), table)
    ensures key in table || |table| < c.maxEntries ==> key in Allow(table, key, count, now, c).1
  {
    var t' := Allow(table, key, count, now, c).1;
    if !Refused(table, key, c) {
      assert t'.Keys == table.Keys + {key};
    }
  }

  // ---------------------------------------------------------------------
  // What the limiter as a whole grants for one key
  // ---------------------------------------------------------------------

  /** The tokens that the calls for `key` are granted in a run. */
  function GrantedFor(key: string, table: Table, events: seq<Event>, c: Config): nat
    requires c.window > 0.0
    decreases |events|
  {
    if events == [] then 0
    else GrantedBy(key, table, events[0], c) + GrantedFor(key, Next(table, events[0], c), events[1..], c)
  }

  function GrantedBy(key: string, table: Table, e: Event, c: Config): nat
    requires c.window > 0.0
  {
    if e.Ask? && e.key == key && Allow(table, key, e.count, e.now, c).0.allowed then e.count else 0
  }

  /** What a call for the key would find: its bucket's content, or a full bucket. */
  function Content(key: string, table: Table, now: real, c: Config): real
    requires c.window > 0.0
  {
    if key in table then Level(table[key].limiter, now, c) else c.burst as real
  }

  predicate Sane(table: Table, now: real, c: Config) {
    forall k :: k in table ==>
      Sound(table[k].limiter, table[k].lastSeen, c) && table[k].lastSeen <= now
  }

  /** Time passes: the content gains at most the refill, and loses nothing. */
  lemma ContentLater(key: string, table: Table, now: real, later: real, c: Config)
    requires c.window > 0.0 && Sane(table, now, c) && now <= later
    ensures Sane(table, later, c)
    ensures Content(key, table, later, c) <= Content(key, table, now, c) + Refilled(now, later, c)
    ensures Content(key, table, now, c) <= Content(key, table, later, c)
  {
    if key in table {
      LevelGains(table[key].limiter, now, later, c);
    } else {
      RefilledIsNonnegative(now, later, c);
    }
  }

  lemma RefilledIsNonnegative(now: real, later: real, c: Config)
    requires c.window > 0.0 && now <= later
    ensures Refilled(now, later, c) >= 0.0
  {
    ProductIsNonnegative(later - now, Rate(c));
  }

  lemma LevelGains(b: Bucket, now: real, later: real, c: Config)
    requires c.window > 0.0 && Sound(b, now, c) && now <= later
    ensures Level(b, now, c) <= Level(b, later, c) <= Level(b, now, c) + Refilled(now, later, c)
  {
    RefilledIsNonnegative(now, later, c);
    LevelLater(b, now, later, c);
    LevelCapped(c.burst as real, Level(b, now, c), Refilled(now, later, c), Level(b, later, c));
  }

  lemma LevelCapped(cap: real, level: real, gain: real, level': real)
    requires level <= cap && gain >= 0.0 && level' == Min(cap, level + gain)
    ensures level <= level' <= level + gain
  {
  }

  /** A call takes what it grants, for its own key only, and a refused one nothing. */
  lemma AskTakes(key: string, table: Table, e: Event, c: Config)
    requires c.window > 0.0 && e.Ask? && Sane(table, e.now, c)
    ensures Sane(Next(table, e, c), e.now, c)
    ensures Content(key, Next(table, e, c), e.now, c) + GrantedBy(key, table, e, c) as real
         == Content(key, table, e.now, c)
  {
    NewIsFull(e.now, c);
    AllowTakesWhatItGrants(Lookup(table, e.key, e.now, c), e.now, e.count, c);
  }

  /** A sweep, up to date or not, forgets full buckets only. */
  lemma SweepForgetsFull(key: string, table: Table, tick: real, now: real, c: Config)
    requires c.window > 0.0 && Sane(table, now, c) && tick <= now
    ensures Sane(Sweep(table, tick, c), now, c)
    ensures Content(key, Sweep(table, tick, c), now, c) == Content(key, table, now, c)
  {
    if key in table && Idle(table[key], tick, c) {
      IdleMeansFull(table[key].limiter, table[key].lastSeen, tick, c);
      FullLater(table[key].limiter, tick, now, c);
    }
  }

  lemma StepTakes(key: string, table: Table, now: real, e: Event, c: Config)
    requires c.window > 0.0 && Sane(table, now, c) && (e.Ask? ==> now <= e.now)
    ensures Sane(Next(table, e, c), Later(now, e), c)
    ensures Content(key, Next(table, e, c), Later(now, e), c) + GrantedBy(key, table, e, c) as real
         <= Content(key, table, now, c) + Refilled(now, Later(now, e), c)
    ensures Content(key, table, now, c)
         <= Content(key, Next(table, e, c), Later(now, e), c) + GrantedBy(key, table, e, c) as real
  {
    ContentLater(key, table, now, Later(now, e), c);
    match e
    case Ask(_, _, _) => AskTakes(key, table, e, c);
    case Tick(t) => SweepForgetsFull(key, table, t, Later(now, e), c);
  }

  /** The latest time in a run, from `now` on. */
  function Latest(now: real, events: seq<Event>): real
    decreases |events|
  {
    if events == [] then now else Latest(Later(now, events[0]), events[1..])
  }

  lemma ContentIsNatural(key: string, table: Table, now: real, c: Config)
    requires c.window > 0.0 && Sane(table, now, c)
    ensures 0.0 <= Content(key, table, now, c) <= c.burst as real
  {
    if key in table {
      LevelIs(table[key].limiter, now, c);
    }
  }

  lemma {:induction false} KeyBudgetFrom(key: string, table: Table, now: real, events: seq<Event>, c: Config)
    requires c.window > 0.0 && Sane(table, now, c) && Chronological(events) && Ahead(now, events)
    ensures GrantedFor(key, table, events, c) as real
         <= Content(key, table, now, c) + Refilled(now, Latest(now, events), c)
    decreases |events|
  {
    if events == [] {
      ContentIsNatural(key, table, now, c);
      RefilledFacts(now, now, now, c);
    } else {
      var e, rest := events[0], events[1..];
      var next, after := Next(table, e, c), Later(now, e);
      StepTakes(key, table, now, e, c);
      assert Ahead(after, rest);
      KeyBudgetFrom(key, next, after, rest, c);
      var end := Latest(after, rest);
      RefilledFacts(now, after, end, c);
      BoundAdds(GrantedBy(key, table, e, c), GrantedFor(key, next, rest, c), Content(key, next, after, c),
                Content(key, table, now, c), Refilled(now, after, c), Refilled(after, end, c));
    }
  }

  /** In every run of the limiter, whatever other keys do, with sweeps and with refusals by a full
      table, one key is granted at most a full bucket plus the refill for the time that passes. */
  lemma KeyBudget(key: string, events: seq<Event>, c: Config)
    requires c.window > 0.0 && Chronological(events) && events != []
    ensures GrantedFor(key, map[], events, c) as real
         <= c.burst as real + Refilled(events[0].now, Latest(events[0].now, events), c)
  {
    KeyBudgetFrom(key, map[], events[0].now, events, c);
  }

  function After(table: Table, events: seq<Event>, c: Config): Table
    requires c.window > 0.0
    decreases |events|
  {
    if events == [] then table else After(Next(table, events[0], c), events[1..], c)
  }

  lemma {:induction false} KeyKeeps(key: string, table: Table, now: real, events: seq<Event>, c: Config)
    requires c.window > 0.0 && Sane(table, now, c) && Chronological(events) && Ahead(now, events)
    ensures now <= Latest(now, events) && Sane(After(table, events, c), Latest(now, events), c)
    ensures Content(key, table, now, c)
         <= Content(key, After(table, events, c), Latest(now, events), c) + GrantedFor(key, table, events, c) as real
    decreases |events|
  {
    if events != [] {
      var e := events[0];
      StepTakes(key, table, now, e, c);
      assert Ahead(Later(now, e), events[1..]);
      KeyKeeps(key, Next(table, e, c), Later(now, e), events[1..], c);
    }
  }

  /** The other half: after every run, a call for a key that is not refused by a full table is granted
      as long as it and the grants before it stay within the limit. */
  lemma KeyIsServed(key: string, events: seq<Event>, count: nat, now: real, c: Config)
    requires c.window > 0.0 && Chronological(events) && forall i :: 0 <= i < |events| ==> events[i].now <= now
    requires !Refused(After(map[], events, c), key, c)
    ensures GrantedFor(key, map[], events, c) + count <= c.burst ==>
              Allow(After(map[], events, c), key, count, now, c).0.allowed
  {
    var start := if events == [] then now else events[0].now;
    var table := After(map[], events, c);
    KeyKeeps(key, map[], start, events, c);
    LatestIsIn(start, events, now);
    ContentLater(key, table, Latest(start, events), now, c);
    ContentIsNatural(key, table, now, c);
  }

  lemma {:induction false} LatestIsIn(start: real, events: seq<Event>, now: real)
    requires start <= now && forall i :: 0 <= i < |events| ==> events[i].now <= now
    ensures Latest(start, events) <= now
    decreases |events|
  {
    if events != [] {
      LatestIsIn(Later(start, events[0]), events[1..], now);
    }
  }

  // ---------------------------------------------------------------------
  // Which keys are tracked
  // ---------------------------------------------------------------------

  /** The time of the last call for the key that a full table did not refuse, if there is one. */
  function LastServed(key: string, table: Table, events: seq<Event>, c: Config): Option<real>
    requires c.window > 0.0
    decreases |events|
  {
    if events == [] then None
    else
      var later := LastServed(key, Next(table, events[0], c), events[1..], c);
      if later.Some? then later
      else if events[0].Ask? && events[0].key == key && !Refused(table, key, c) then Some(events[0].now)
      else None
  }

  function OrElse(later: Option<real>, before: Option<real>): Option<real> {
    if later.Some? then later else before
  }

  /** A tracked key was last served when its entry says; one that is not, too long before `tick`. */
  predicate TracksKey(key: string, table: Table, last: Option<real>, tick: real, c: Config) {
    if key in table then last == Some(table[key].lastSeen)
    else last.Some? ==> tick - last.value > 2.0 * c.window
  }

  lemma {:induction false} TrackedFrom(key: string, table: Table, last: Option<real>, events: seq<Event>, tick: real,
                                       c: Config)
    requires c.window > 0.0 && TracksKey(key, table, last, tick, c)
    requires forall i :: 0 <= i < |events| && events[i].Tick? ==> events[i].now <= tick
    ensures TracksKey(key, After(table, events, c), OrElse(LastServed(key, table, events, c), last), tick, c)
    decreases |events|
  {
    if events != [] {
      var e := events[0];
      var served := if e.Ask? && e.key == key && !Refused(table, key, c) then Some(e.now) else last;
      TrackedFrom(key, Next(table, e, c), served, events[1..], tick, c);
    }
  }

  /** After every run, a sweep whose tick is the latest leaves exactly the keys that were served no more
      than two windows before it. */
  lemma TrackedIffRecent(key: string, events: seq<Event>, tick: real, c: Config)
    requires c.window > 0.0 && forall i :: 0 <= i < |events| && events[i].Tick? ==> events[i].now <= tick
    ensures var last := LastServed(key, map[], events, c);
            key in Sweep(After(map[], events, c), tick, c) <==> last.Some? && tick - last.value <= 2.0 * c.window
  {
    TrackedFrom(key, map[], None, events, tick, c);
  }
}
