/** The per-request DataLoader as a protocol. Every section that runs with the mutex held is
    one event, and so is every single execution of a request inside a taken batch. */
module DataLoading {

  datatype Request = Request(source: string, query: string)

  /** What travels through a caller's result channel: the execution of one query. */
  datatype Reply = Reply(source: string, query: string, answer: string)

  /** A batch that was taken out of `pending`, less the requests it has already answered. */
  datatype Batch = Batch(source: string, ids: seq<nat>)

  /** Where the requests are. A request is named by its position in `requests`, that is by its
      order of submission. */
  datatype Flow = Flow(
    requests: seq<Request>,
    pending: map<string, seq<nat>>,
    batches: set<Batch>,
    replies: map<nat, Reply>)

  /** The timers. `callbacks` holds every timer whose callback has still to run its locked
      section: those that are waiting, and those that had fired already when they were stopped. */
  datatype Clock = Clock(timers: map<string, nat>, callbacks: map<nat, string>, next: nat)

  datatype Loader = Loader(maxBatch: int, closed: bool, flow: Flow, clock: Clock)

  /** `stale` and `fired` tell which stopped timers had fired before they were stopped. */
  datatype Event =
    | Load(source: string, query: string, stale: bool)
    | Cancel(source: string, stale: bool)
    | Close(fired: set<string>)
    | Fire(timer: nat)
    | Deliver(batch: Batch, answer: string)

  function Init(maxBatch: int): Loader {
    Loader(maxBatch, false, Flow([], map[], {}, map[]), Clock(map[], map[], 0))
  }

  function Queue(f: Flow, source: string): seq<nat> {
    if source in f.pending then f.pending[source] else []
  }

  function Submit(f: Flow, source: string, query: string): Flow {
    f.(requests := f.requests + [Request(source, query)],
       pending := f.pending[source := Queue(f, source) + [|f.requests|]])
  }

  /** takePending, and the hand-over of what it took to executeBatch. */
  function Take(f: Flow, source: string): Flow {
    f.(pending := f.pending - {source},
       batches := if Queue(f, source) == [] then f.batches else f.batches + {Batch(source, Queue(f, source))})
  }

  function Queues(pending: map<string, seq<nat>>, sources: set<string>): set<Batch> {
    set d | d in sources && d in pending :: Batch(d, pending[d])
  }

  function TakeAll(f: Flow): Flow {
    f.(pending := map[], batches := f.batches + Queues(f.pending, f.pending.Keys))
  }

  predicate CanAnswer(f: Flow, batch: Batch) {
    batch in f.batches && batch.ids != [] && batch.ids[0] < |f.requests|
  }

  function Rest(batch: Batch): Batch
    requires batch.ids != []
  {
    Batch(batch.source, batch.ids[1..])
  }

  /** executeBatch runs the head of a batch and sends the result to its caller. */
  function Answer(f: Flow, batch: Batch, answer: string): Flow
    requires CanAnswer(f, batch)
  {
    var r := f.requests[batch.ids[0]];
    f.(replies := f.replies[batch.ids[0] := Reply(r.source, r.query, answer)],
       batches := f.batches - {batch} + if |batch.ids| > 1 then {Rest(batch)} else {})
  }

  function StopTimer(c: Clock, source: string, stale: bool): Clock {
    if source !in c.timers then c
    else c.(timers := c.timers - {source},
            callbacks := if stale then c.callbacks else c.callbacks - {c.timers[source]})
  }

  /** The callbacks that never run once the timers of `sources` are stopped. */
  function Prevented(c: Clock, sources: set<string>, fired: set<string>): set<nat> {
    set d | d in sources && d in c.timers && d !in fired :: c.timers[d]
  }

  function StopTimers(c: Clock, sources: set<string>, fired: set<string>): Clock {
    c.(timers := c.timers - sources, callbacks := c.callbacks - Prevented(c, sources, fired))
  }

  function EnsureTimer(c: Clock, source: string): Clock {
    if source in c.timers then c
    else Clock(c.timers[source := c.next], c.callbacks[c.next := source], c.next + 1)
  }

  function Expire(c: Clock, timer: nat): Clock
    requires timer in c.callbacks
  {
    c.(timers := c.timers - {c.callbacks[timer]}, callbacks := c.callbacks - {timer})
  }

  predicate Enabled(s: Loader, e: Event) {
    match e
    case Fire(timer) => timer in s.clock.callbacks
    case Deliver(batch, _) => CanAnswer(s.flow, batch)
    case _ => true
  }

  function Apply(s: Loader, e: Event): Loader
    requires Enabled(s, e)
  {
    match e
    case Load(source, query, stale) =>
      if s.closed then s
      else
        var f := Submit(s.flow, source, query);
        if |Queue(f, source)| >= s.maxBatch then
          s.(flow := Take(f, source), clock := StopTimer(s.clock, source, stale))
        else s.(flow := f, clock := EnsureTimer(s.clock, source))
    case Cancel(source, stale) =>
      if Queue(s.flow, source) == [] then s.(flow := Take(s.flow, source))
      else s.(flow := Take(s.flow, source), clock := StopTimer(s.clock, source, stale))
    case Close(fired) =>
      s.(closed := true, flow := TakeAll(s.flow), clock := StopTimers(s.clock, s.flow.pending.Keys, fired))
    case Fire(timer) =>
      s.(flow := Take(s.flow, s.clock.callbacks[timer]), clock := Expire(s.clock, timer))
    case Deliver(batch, answer) =>
      s.(flow := Answer(s.flow, batch, answer))
  }

  /** Every interleaving: a list of events, each enabled where it happens. */
  predicate Run(s: Loader, events: seq<Event>)
    decreases |events|
  {
    events == [] || (Enabled(s, events[0]) && Run(Apply(s, events[0]), events[1..]))
  }

  function After(s: Loader, events: seq<Event>): Loader
    requires Run(s, events)
    decreases |events|
  {
    if events == [] then s else After(Apply(s, events[0]), events[1..])
  }

  // ---------------------------------------------------------------------
  // Invariants
  // ---------------------------------------------------------------------

  /** Nothing waits without a timer that will come for it. */
  predicate NothingStranded(s: Loader) {
    && s.clock.timers.Keys == s.flow.pending.Keys
    && (forall d :: d in s.flow.pending ==> 0 < |s.flow.pending[d]| < if s.maxBatch > 1 then s.maxBatch else 1)
    && Ticking(s.clock)
  }

  predicate Ticking(c: Clock) {
    && (forall d :: d in c.timers ==> c.timers[d] in c.callbacks && c.callbacks[c.timers[d]] == d)
    && (forall t :: t in c.callbacks ==> t < c.next)
  }

  predicate Increasing(ids: seq<nat>) {
    forall i, j :: 0 <= i < j < |ids| ==> ids[i] < ids[j]
  }

  /** `ids` are submitted, unanswered requests for `source`, in order of submission. */
  predicate Unanswered(f: Flow, source: string, ids: seq<nat>) {
    && Increasing(ids)
    && forall id :: id in ids ==> id < |f.requests| && f.requests[id].source == source && id !in f.replies
  }

  predicate Waiting(f: Flow, id: nat)
    requires id < |f.requests|
  {
    id in Queue(f, f.requests[id].source)
  }

  predicate Taken(f: Flow, id: nat) {
    exists b :: b in f.batches && id in b.ids
  }

  predicate Answered(f: Flow, id: nat) {
    id in f.replies
  }

  predicate InOrder(f: Flow) {
    && (forall d :: d in f.pending ==> Unanswered(f, d, f.pending[d]))
    && (forall b :: b in f.batches ==> b.ids != [] && Unanswered(f, b.source, b.ids))
  }

  /** A taken batch is ahead of the queue of its source, and batches share no request. */
  predicate Apart(f: Flow) {
    && (forall b :: b in f.batches ==> Ahead(b.ids, Queue(f, b.source)))
    && (forall b, b' :: b in f.batches && b' in f.batches && b != b' ==> Disjoint(b.ids, b'.ids))
  }

  predicate Ahead(a: seq<nat>, b: seq<nat>) {
    forall i, j :: 0 <= i < |a| && 0 <= j < |b| ==> a[i] < b[j]
  }

  predicate Disjoint(a: seq<nat>, b: seq<nat>) {
    forall id :: !(id in a && id in b)
  }

  predicate Accounted(f: Flow) {
    forall id :: 0 <= id < |f.requests| ==> Waiting(f, id) || Taken(f, id) || Answered(f, id)
  }

  /** An answer is the execution of the caller's own request. */
  predicate OwnAnswers(f: Flow) {
    forall id :: id in f.replies ==>
      id < |f.requests| && f.replies[id].source == f.requests[id].source && f.replies[id].query == f.requests[id].query
  }

  predicate Placed(f: Flow) {
    InOrder(f) && Apart(f) && Accounted(f) && OwnAnswers(f)
  }

  predicate Inv(s: Loader) {
    NothingStranded(s) && Placed(s.flow)
  }

  lemma InitInv(maxBatch: int)
    ensures Inv(Init(maxBatch))
  {
  }

  // ---------------------------------------------------------------------
  // Requests keep their places apart
  // ---------------------------------------------------------------------

  lemma TakenStays(f: Flow, f': Flow, id: nat)
    requires Taken(f, id) && f.batches <= f'.batches
    ensures Taken(f', id)
  {
    var b :| b in f.batches && id in b.ids;
    assert b in f'.batches;
  }

  /** A batch and a queue or another batch of a different source have no request in common. */
  lemma SourcesDiffer(f: Flow, d: string, a: seq<nat>, d': string, b: seq<nat>)
    requires d != d' && Unanswered(f, d, a) && Unanswered(f, d', b)
    ensures Disjoint(a, b)
  {
  }

  lemma AheadIsDisjoint(a: seq<nat>, b: seq<nat>)
    requires Ahead(a, b)
    ensures Disjoint(a, b) && Disjoint(b, a)
  {
  }

  /** A batch shares no request with any queue. */
  lemma BatchAvoidsQueue(f: Flow, b: Batch, d: string)
    requires InOrder(f) && Apart(f) && b in f.batches && d in f.pending
    ensures Disjoint(b.ids, f.pending[d]) && Disjoint(f.pending[d], b.ids)
  {
    if b.source == d {
      AheadIsDisjoint(b.ids, Queue(f, d));
    } else {
      SourcesDiffer(f, b.source, b.ids, d, f.pending[d]);
    }
  }

  lemma TakeKeepsApart(f: Flow, source: string)
    requires Placed(f)
    ensures InOrder(Take(f, source)) && Apart(Take(f, source))
  {
    var f' := Take(f, source);
    forall b | b in f'.batches
      ensures b.ids != [] && Unanswered(f', b.source, b.ids) && Ahead(b.ids, Queue(f', b.source))
    {
      assert Unanswered(f, b.source, b.ids);
      assert b in f.batches ==> Ahead(b.ids, Queue(f, b.source));
    }
    forall d | d in f'.pending ensures Unanswered(f', d, f'.pending[d]) {
      assert Unanswered(f, d, f.pending[d]);
    }
    forall b, b' | b in f'.batches && b' in f'.batches && b != b' ensures Disjoint(b.ids, b'.ids) {
      if b !in f.batches {
        BatchAvoidsQueue(f, b', source);
      } else if b' !in f.batches {
        BatchAvoidsQueue(f, b, source);
      }
    }
  }

  /** Handing a source's queue to a batch moves its requests, and nothing else. */
  lemma TakeMoves(f: Flow, source: string)
    requires Placed(f)
    ensures Placed(Take(f, source))
  {
    var f' := Take(f, source);
    TakeKeepsApart(f, source);
    forall id | 0 <= id < |f'.requests| ensures Waiting(f', id) || Taken(f', id) || Answered(f', id) {
      if Taken(f, id) {
        TakenStays(f, f', id);
      } else if Waiting(f, id) && f.requests[id].source == source {
        assert Batch(source, Queue(f, source)) in f'.batches;
      }
    }
  }

  lemma TakeAllMoves(f: Flow)
    requires Placed(f) && forall d :: d in f.pending ==> f.pending[d] != []
    ensures Placed(TakeAll(f))
  {
    var f' := TakeAll(f);
    forall b | b in f'.batches ensures b.ids != [] && Unanswered(f', b.source, b.ids) {
      assert Unanswered(f, b.source, b.ids);
    }
    forall b, b' | b in f'.batches && b' in f'.batches && b != b' ensures Disjoint(b.ids, b'.ids) {
      if b !in f.batches && b' !in f.batches {
        SourcesDiffer(f, b.source, b.ids, b'.source, b'.ids);
      } else if b !in f.batches {
        BatchAvoidsQueue(f, b', b.source);
      } else if b' !in f.batches {
        BatchAvoidsQueue(f, b, b'.source);
      }
    }
    forall id | 0 <= id < |f'.requests| ensures Waiting(f', id) || Taken(f', id) || Answered(f', id) {
      if Taken(f, id) {
        TakenStays(f, f', id);
      } else if Waiting(f, id) {
        assert Batch(f.requests[id].source, Queue(f, f.requests[id].source)) in f'.batches;
      }
    }
  }

  lemma SubmitKeepsApart(f: Flow, source: string, query: string)
    requires Placed(f)
    ensures InOrder(Submit(f, source, query)) && Apart(Submit(f, source, query))
  {
    var f' := Submit(f, source, query);
    forall d | d in f'.pending ensures Unanswered(f', d, f'.pending[d]) {
      assert Unanswered(f, d, Queue(f, d)) by {
        assert d !in f.pending ==> Queue(f, d) == [];
      }
      forall i, j | 0 <= i < j < |f'.pending[d]| ensures f'.pending[d][i] < f'.pending[d][j] {
        assert f'.pending[d][i] == Queue(f, d)[i] && Queue(f, d)[i] in Queue(f, d);
      }
    }
    forall b | b in f'.batches
      ensures b.ids != [] && Unanswered(f', b.source, b.ids) && Ahead(b.ids, Queue(f', b.source))
    {
      assert Unanswered(f, b.source, b.ids) && Ahead(b.ids, Queue(f, b.source));
      forall i, j | 0 <= i < |b.ids| && 0 <= j < |Queue(f', b.source)| ensures b.ids[i] < Queue(f', b.source)[j] {
        assert b.ids[i] in b.ids;
      }
    }
  }

  lemma SubmitQueues(f: Flow, source: string, query: string)
    requires Placed(f)
    ensures Placed(Submit(f, source, query))
  {
    var f' := Submit(f, source, query);
    SubmitKeepsApart(f, source, query);
    forall id | 0 <= id < |f'.requests| ensures Waiting(f', id) || Taken(f', id) || Answered(f', id) {
      if id == |f.requests| {
        assert Queue(f', source)[|Queue(f, source)|] == id;
      } else if Taken(f, id) {
        TakenStays(f, f', id);
      } else if Waiting(f, id) {
        var d := f.requests[id].source;
        assert Queue(f, d) <= Queue(f', d);
      }
    }
  }

  lemma RestIsSmaller(f: Flow, b: Batch)
    requires b.ids != [] && Unanswered(f, b.source, b.ids)
    ensures Increasing(b.ids[1..])
    ensures forall id :: id in b.ids <==> id == b.ids[0] || id in b.ids[1..]
    ensures b.ids[0] !in b.ids[1..]
    ensures forall id :: id in b.ids[1..] ==> b.ids[0] < id
  {
    assert b.ids == [b.ids[0]] + b.ids[1..];
  }

  lemma AnswerKeepsApart(f: Flow, b0: Batch, answer: string)
    requires Placed(f) && CanAnswer(f, b0)
    ensures InOrder(Answer(f, b0, answer)) && Apart(Answer(f, b0, answer))
  {
    var f' := Answer(f, b0, answer);
    RestIsSmaller(f, b0);
    forall b | b in f'.batches
      ensures b.ids != [] && Unanswered(f', b.source, b.ids) && Ahead(b.ids, Queue(f', b.source))
    {
      var b1 := if b in f.batches then b else b0;
      assert Unanswered(f, b1.source, b1.ids) && Ahead(b1.ids, Queue(f, b1.source));
      if b in f.batches {
        assert Disjoint(b.ids, b0.ids);
      }
    }
    forall d | d in f'.pending ensures Unanswered(f', d, f'.pending[d]) {
      assert Unanswered(f, d, f.pending[d]);
      BatchAvoidsQueue(f, b0, d);
    }
    forall b, b' | b in f'.batches && b' in f'.batches && b != b' ensures Disjoint(b.ids, b'.ids) {
      assert Disjoint((if b in f.batches then b else b0).ids, (if b' in f.batches then b' else b0).ids);
    }
  }

  lemma AnswerMoves(f: Flow, b0: Batch, answer: string)
    requires Placed(f) && CanAnswer(f, b0)
    ensures Placed(Answer(f, b0, answer))
  {
    var f' := Answer(f, b0, answer);
    AnswerKeepsApart(f, b0, answer);
    RestIsSmaller(f, b0);
    forall id | 0 <= id < |f'.requests| ensures Waiting(f', id) || Taken(f', id) || Answered(f', id) {
      if Taken(f, id) && id != b0.ids[0] {
        var b :| b in f.batches && id in b.ids;
        assert (if b == b0 then Rest(b0) else b) in f'.batches;
      }
    }
  }

  // ---------------------------------------------------------------------
  // Every step, every run
  // ---------------------------------------------------------------------

  lemma StopKeepsTicking(c: Clock, source: string, stale: bool)
    requires Ticking(c)
    ensures Ticking(StopTimer(c, source, stale))
  {
  }

  lemma StartKeepsTicking(c: Clock, source: string)
    requires Ticking(c)
    ensures Ticking(EnsureTimer(c, source))
  {
  }

  /** A callback that outlived its own timer may unregister a newer one of its source: the
      newer callback then stays outstanding, and the source's queue has just been taken. */
  lemma ExpireKeepsTicking(c: Clock, timer: nat)
    requires Ticking(c) && timer in c.callbacks
    ensures Ticking(Expire(c, timer))
  {
  }

  lemma LoadStrandsNothing(s: Loader, source: string, query: string, stale: bool)
    requires NothingStranded(s)
    ensures NothingStranded(Apply(s, Load(source, query, stale)))
  {
    StopKeepsTicking(s.clock, source, stale);
    StartKeepsTicking(s.clock, source);
  }

  lemma FireStrandsNothing(s: Loader, timer: nat)
    requires NothingStranded(s) && timer in s.clock.callbacks
    ensures NothingStranded(Apply(s, Fire(timer)))
  {
    ExpireKeepsTicking(s.clock, timer);
  }

  lemma StepStrandsNothing(s: Loader, e: Event)
    requires NothingStranded(s) && Enabled(s, e)
    ensures NothingStranded(Apply(s, e))
  {
    match e
    case Load(source, query, stale) => LoadStrandsNothing(s, source, query, stale);
    case Cancel(source, stale) => StopKeepsTicking(s.clock, source, stale);
    case Close(fired) =>
    case Fire(timer) => FireStrandsNothing(s, timer);
    case Deliver(batch, answer) =>
  }

  lemma StepInv(s: Loader, e: Event)
    requires Inv(s) && Enabled(s, e)
    ensures Inv(Apply(s, e))
  {
    StepStrandsNothing(s, e);
    match e
    case Load(source, query, _) =>
      SubmitQueues(s.flow, source, query);
      TakeMoves(Submit(s.flow, source, query), source);
    case Cancel(source, _) => TakeMoves(s.flow, source);
    case Close(_) => TakeAllMoves(s.flow);
    case Fire(timer) => TakeMoves(s.flow, s.clock.callbacks[timer]);
    case Deliver(batch, answer) => AnswerMoves(s.flow, batch, answer);
  }

  lemma {:induction false} RunInv(s: Loader, events: seq<Event>)
    requires Inv(s) && Run(s, events)
    ensures Inv(After(s, events))
    decreases |events|
  {
    if events != [] {
      StepInv(s, events[0]);
      RunInv(Apply(s, events[0]), events[1..]);
    }
  }

  // ---------------------------------------------------------------------
  // What callers can rely on, in every interleaving
  // ---------------------------------------------------------------------

  /** No request is ever stranded: after any interleaving, timers and queues name the same
      sources, every queue is nonempty and below the batch size, and every registered timer
      still has its callback to run. */
  lemma NoRequestStranded(maxBatch: int, events: seq<Event>)
    requires Run(Init(maxBatch), events)
    ensures NothingStranded(After(Init(maxBatch), events))
  {
    InitInv(maxBatch);
    RunInv(Init(maxBatch), events);
  }

  /** Every submitted request is in exactly one place. */
  lemma ExactlyOnePlace(maxBatch: int, events: seq<Event>, id: nat)
    requires Run(Init(maxBatch), events)
    requires id < |After(Init(maxBatch), events).flow.requests|
    ensures var f := After(Init(maxBatch), events).flow;
            && (Waiting(f, id) || Taken(f, id) || Answered(f, id))
            && !(Waiting(f, id) && Taken(f, id))
            && !(Waiting(f, id) && Answered(f, id))
            && !(Taken(f, id) && Answered(f, id))
            && (forall b, b' :: b in f.batches && b' in f.batches && id in b.ids && id in b'.ids ==> b == b')
  {
    InitInv(maxBatch);
    RunInv(Init(maxBatch), events);
    var f := After(Init(maxBatch), events).flow;
    if Taken(f, id) {
      var b :| b in f.batches && id in b.ids;
      assert Unanswered(f, b.source, b.ids);
      if Waiting(f, id) {
        BatchAvoidsQueue(f, b, f.requests[id].source);
      }
    }
  }

  /** A delivery answers the oldest request left in its batch with the execution of that very
      request. Its channel was empty, so the send does not block, and no earlier answer is touched. */
  lemma DeliveryIsExact(maxBatch: int, events: seq<Event>, e: Event)
    requires Run(Init(maxBatch), events)
    requires e.Deliver? && Enabled(After(Init(maxBatch), events), e)
    ensures var s := After(Init(maxBatch), events);
            var id := e.batch.ids[0];
            && id !in s.flow.replies
            && (forall other :: other in e.batch.ids[1..] ==> id < other)
            && Apply(s, e).flow.replies
               == s.flow.replies[id := Reply(e.batch.source, s.flow.requests[id].query, e.answer)]
  {
    InitInv(maxBatch);
    RunInv(Init(maxBatch), events);
    var s := After(Init(maxBatch), events);
    assert Unanswered(s.flow, e.batch.source, e.batch.ids);
    RestIsSmaller(s.flow, e.batch);
  }

  /** A load that is accepted is queued behind the others of its source. If that fills the batch all of
      them are taken at once, in order; until then they wait, on the timer that the first of them
      started. Other sources are not concerned. */
  lemma LoadWaitsOrFills(s: Loader, source: string, query: string, stale: bool)
    requires !s.closed
    ensures var s' := Apply(s, Load(source, query, stale));
            var queue := Queue(s.flow, source) + [|s.flow.requests|];
            && s'.flow.requests == s.flow.requests + [Request(source, query)]
            && (|queue| >= s.maxBatch ==>
                  Queue(s'.flow, source) == [] && s'.flow.batches == s.flow.batches + {Batch(source, queue)}
                  && source !in s'.clock.timers)
            && (|queue| < s.maxBatch ==>
                  Queue(s'.flow, source) == queue && s'.flow.batches == s.flow.batches && source in s'.clock.timers
                  && (source in s.clock.timers ==> s'.clock == s.clock))
            && forall d :: d != source ==> Queue(s'.flow, d) == Queue(s.flow, d)
  {
  }

  /** The events that hand over what waits for a source: its timer, a cancelled caller, and closing. */
  predicate Flushes(s: Loader, e: Event, d: string) {
    match e
    case Cancel(source, _) => source == d
    case Fire(timer) => timer in s.clock.callbacks && s.clock.callbacks[timer] == d
    case Close(_) => true
    case _ => false
  }

  /** They take the whole queue as one batch, and a stopped timer that had not fired is silent. */
  lemma FlushTakesTheQueue(s: Loader, e: Event, d: string)
    requires Inv(s) && Enabled(s, e) && Flushes(s, e, d) && Queue(s.flow, d) != []
    ensures var s' := Apply(s, e);
            && Queue(s'.flow, d) == [] && Batch(d, Queue(s.flow, d)) in s'.flow.batches && d !in s'.clock.timers
            && s'.flow.requests == s.flow.requests && s'.flow.replies == s.flow.replies
            && ((e.Cancel? && !e.stale) || (e.Close? && d !in e.fired) ==>
                  d in s.clock.timers && s.clock.timers[d] !in s'.clock.callbacks)
            && (!e.Close? ==> forall other :: other != d ==> Queue(s'.flow, other) == Queue(s.flow, other))
  {
  }

  /** After closing nothing is accepted any more, in whatever run. */
  lemma ClosedTakesNothing(s: Loader, fired: set<string>, events: seq<Event>)
    requires Run(Apply(s, Close(fired)), events)
    ensures After(Apply(s, Close(fired)), events).flow.requests == s.flow.requests
  {
    StaysClosed(Apply(s, Close(fired)), events);
  }

  lemma {:induction false} StaysClosed(s: Loader, events: seq<Event>)
    requires s.closed && Run(s, events)
    ensures After(s, events).closed && After(s, events).flow.requests == s.flow.requests
    decreases |events|
  {
    if events != [] {
      StaysClosed(Apply(s, events[0]), events[1..]);
    }
  }

  predicate Fitting(s: Loader) {
    forall b :: b in s.flow.batches ==> |b.ids| <= if s.maxBatch > 1 then s.maxBatch else 1
  }

  lemma StepFits(s: Loader, e: Event)
    requires Inv(s) && Fitting(s) && Enabled(s, e)
    ensures Fitting(Apply(s, e))
  {
  }

  lemma {:induction false} FitsInRun(s: Loader, events: seq<Event>)
    requires Inv(s) && Fitting(s) && Run(s, events)
    ensures Fitting(After(s, events))
    decreases |events|
  {
    if events != [] {
      StepFits(s, events[0]);
      StepInv(s, events[0]);
      FitsInRun(Apply(s, events[0]), events[1..]);
    }
  }

  /** No batch of any run is larger than the batch size. */
  lemma BatchesFit(maxBatch: int, events: seq<Event>)
    requires Run(Init(maxBatch), events)
    ensures forall b :: b in After(Init(maxBatch), events).flow.batches ==>
              |b.ids| <= if maxBatch > 1 then maxBatch else 1
  {
    InitInv(maxBatch);
    FitsInRun(Init(maxBatch), events);
    SameBatchSize(Init(maxBatch), events);
  }

  lemma {:induction false} SameBatchSize(s: Loader, events: seq<Event>)
    requires Run(s, events)
    ensures After(s, events).maxBatch == s.maxBatch
    decreases |events|
  {
    if events != [] {
      SameBatchSize(Apply(s, events[0]), events[1..]);
    }
  }

  /** The replies of `f` are still there, unchanged, in `f'`. */
  predicate Extends(f: Flow, f': Flow) {
    && f.requests <= f'.requests
    && forall id :: id in f.replies ==> id in f'.replies && f'.replies[id] == f.replies[id]
  }

  lemma StepExtends(s: Loader, e: Event)
    requires Inv(s) && Enabled(s, e)
    ensures Extends(s.flow, Apply(s, e).flow)
  {
    if e.Deliver? {
      assert Unanswered(s.flow, e.batch.source, e.batch.ids);
      assert e.batch.ids[0] in e.batch.ids;
    }
  }

  lemma ExtendsTransitive(a: Flow, b: Flow, c: Flow)
    requires Extends(a, b) && Extends(b, c)
    ensures Extends(a, c)
  {
  }

  /** Answers are never withdrawn or replaced. */
  lemma {:induction false} AnswersStay(s: Loader, events: seq<Event>)
    requires Inv(s) && Run(s, events)
    ensures Extends(s.flow, After(s, events).flow)
    decreases |events|
  {
    if events != [] {
      var s1 := Apply(s, events[0]);
      StepInv(s, events[0]);
      StepExtends(s, events[0]);
      AnswersStay(s1, events[1..]);
      ExtendsTransitive(s.flow, s1.flow, After(s, events).flow);
    }
  }

  // ---------------------------------------------------------------------
  // Draining
  // ---------------------------------------------------------------------

  /** The events that the loader performs on its own. */
  predicate Internal(e: Event) {
    e.Fire? || e.Deliver?
  }

  function Undelivered(s: Loader): int {
    |s.flow.requests| - |s.flow.replies|
  }

  function Measure(s: Loader): int {
    Undelivered(s) + |s.clock.callbacks|
  }

  predicate AllAnswered(s: Loader) {
    forall id :: 0 <= id < |s.flow.requests| ==> Answered(s.flow, id)
  }

  function Ids(n: nat): (r: set<nat>)
    ensures |r| == n && forall i: nat :: i in r <==> i < n
  {
    if n == 0 then {} else Ids(n - 1) + {n - 1}
  }

  lemma SubsetSize(a: set<nat>, b: set<nat>)
    requires a <= b
    ensures |a| <= |b| && (|a| == |b| ==> a == b)
  {
    assert |b - a| == |b| - |a|;
    if |a| == |b| {
      assert b - a == {};
    }
  }

  lemma UndeliveredIsNatural(s: Loader)
    requires Inv(s)
    ensures Undelivered(s) >= 0
    ensures Undelivered(s) == 0 <==> AllAnswered(s)
  {
    var all := Ids(|s.flow.requests|);
    var keys := s.flow.replies.Keys;
    SubsetSize(keys, all);
    if AllAnswered(s) {
      forall i | i in all ensures i in keys {
        assert Answered(s.flow, i);
      }
      assert keys == all;
    }
  }

  /** While something is undelivered the loader has a step of its own to make. */
  lemma Progress(s: Loader)
    requires Inv(s) && !AllAnswered(s)
    ensures exists e :: Internal(e) && Enabled(s, e)
  {
    var id :| 0 <= id < |s.flow.requests| && !Answered(s.flow, id);
    if Waiting(s.flow, id) {
      var e := Fire(s.clock.timers[s.flow.requests[id].source]);
      assert Internal(e) && Enabled(s, e);
    } else {
      var b :| b in s.flow.batches && id in b.ids;
      assert Unanswered(s.flow, b.source, b.ids);
      assert b.ids[0] in b.ids;
      assert Internal(Deliver(b, "")) && Enabled(s, Deliver(b, ""));
    }
  }

  lemma KeyRemoved<V>(m: map<nat, V>, k: nat)
    requires k in m
    ensures |m - {k}| == |m| - 1
  {
    assert (m - {k}).Keys == m.Keys - {k};
  }

  lemma KeyAdded<V>(m: map<nat, V>, k: nat, v: V)
    requires k !in m
    ensures |m[k := v]| == |m| + 1
  {
    assert m[k := v].Keys == m.Keys + {k};
  }

  lemma InternalStepDecreases(s: Loader, e: Event)
    requires Inv(s) && Internal(e) && Enabled(s, e)
    ensures Measure(Apply(s, e)) == Measure(s) - 1
    ensures Undelivered(Apply(s, e)) == Undelivered(s) - if e.Deliver? then 1 else 0
  {
    match e
    case Fire(timer) =>
      KeyRemoved(s.clock.callbacks, timer);
    case Deliver(b, answer) =>
      var id := b.ids[0];
      assert Unanswered(s.flow, b.source, b.ids);
      assert id in b.ids;
      var r := s.flow.requests[id];
      KeyAdded(s.flow.replies, id, Reply(r.source, r.query, answer));
  }

  lemma FewerCallbacks(c: map<nat, string>, c': map<nat, string>)
    requires c'.Keys <= c.Keys
    ensures |c'| <= |c|
  {
    SubsetSize(c'.Keys, c.Keys);
    assert |c'| == |c'.Keys| && |c| == |c.Keys|;
  }

  lemma StoppingAddsNothing(c: Clock, source: string, stale: bool)
    ensures |StopTimer(c, source, stale).callbacks| <= |c.callbacks|
  {
    FewerCallbacks(c.callbacks, StopTimer(c, source, stale).callbacks);
  }

  lemma ClosingAddsNothing(c: Clock, sources: set<string>, fired: set<string>)
    ensures |StopTimers(c, sources, fired).callbacks| <= |c.callbacks|
  {
    FewerCallbacks(c.callbacks, StopTimers(c, sources, fired).callbacks);
  }

  lemma SameAnswersLessWork(s: Loader, s': Loader)
    requires s'.flow.requests == s.flow.requests && s'.flow.replies == s.flow.replies
    requires |s'.clock.callbacks| <= |s.clock.callbacks|
    ensures Measure(s') <= Measure(s) && Undelivered(s') == Undelivered(s)
  {
  }

  lemma TakingAnswersNothing(f: Flow, source: string)
    ensures Take(f, source).requests == f.requests && Take(f, source).replies == f.replies
    ensures TakeAll(f).requests == f.requests && TakeAll(f).replies == f.replies
  {
  }

  /** Cancelling and closing never add work. */
  lemma FlushAddsNoWork(s: Loader, e: Event)
    requires e.Cancel? || e.Close?
    ensures Measure(Apply(s, e)) <= Measure(s)
    ensures Undelivered(Apply(s, e)) == Undelivered(s)
  {
    match e
    case Cancel(source, stale) =>
      StoppingAddsNothing(s.clock, source, stale);
      TakingAnswersNothing(s.flow, source);
      SameAnswersLessWork(s, Apply(s, e));
    case Close(fired) =>
      ClosingAddsNothing(s.clock, s.flow.pending.Keys, fired);
      TakingAnswersNothing(s.flow, "");
      SameAnswersLessWork(s, Apply(s, e));
  }

  lemma OneStepOfWork(s: Loader, e: Event)
    requires Inv(s) && Enabled(s, e) && !e.Load?
    ensures Measure(Apply(s, e)) + (if Internal(e) then 1 else 0) <= Measure(s)
  {
    if Internal(e) {
      InternalStepDecreases(s, e);
    } else {
      FlushAddsNoWork(s, e);
    }
  }

  /** The steps of timers and batches in a run. */
  function InternalSteps(events: seq<Event>): nat {
    if events == [] then 0 else (if Internal(events[0]) then 1 else 0) + InternalSteps(events[1..])
  }

  /** With no new loads, but cancels and closes at any point, the loader's own steps come to an end
      after at most `Measure` of them, in whatever order they happen, and they can only end with
      every request answered. */
  lemma {:induction false} LoaderDrains(s: Loader, events: seq<Event>)
    requires Inv(s) && Run(s, events)
    requires forall i :: 0 <= i < |events| ==> !events[i].Load?
    ensures Inv(After(s, events))
    ensures InternalSteps(events) + Measure(After(s, events)) <= Measure(s)
    ensures InternalSteps(events) <= Measure(s)
    ensures AllAnswered(After(s, events)) || exists e :: Internal(e) && Enabled(After(s, events), e)
    decreases |events|
  {
    if events == [] {
      UndeliveredIsNatural(s);
      if !AllAnswered(s) {
        Progress(s);
      }
    } else {
      StepInv(s, events[0]);
      OneStepOfWork(s, events[0]);
      LoaderDrains(Apply(s, events[0]), events[1..]);
    }
  }

  // ---------------------------------------------------------------------
  // The loader object
  // ---------------------------------------------------------------------

  /** The fields of the loader and of the runtime around it. Each method is one section that the
      source runs with the mutex held, built from the same helpers. */
  class DataLoader {
    const maxBatch: int
    var closed: bool
    var requests: seq<Request>
    var pending: map<string, seq<nat>>
    var batches: set<Batch>
    var replies: map<nat, Reply>
    var timers: map<string, nat>
    var callbacks: map<nat, string>
    var nextTimer: nat

    ghost function FlowView(): Flow
      reads this
    {
      Flow(requests, pending, batches, replies)
    }

    ghost function ClockView(): Clock
      reads this
    {
      Clock(timers, callbacks, nextTimer)
    }

    ghost function View(): Loader
      reads this
    {
      Loader(maxBatch, closed, FlowView(), ClockView())
    }

    constructor (maxBatch: int)
      ensures View() == Init(maxBatch)
    {
      this.maxBatch := maxBatch;
      closed := false;
      requests, pending, batches, replies := [], map[], {}, map[];
      timers, callbacks, nextTimer := map[], map[], 0;
    }

    /** ensureTimer: a timer that is already running is left alone. */
    method StartTimer(source: string)
      modifies this`timers, this`callbacks, this`nextTimer
      ensures ClockView() == EnsureTimer(old(ClockView()), source)
    {
      if source in timers {
        return;
      }
      timers := timers[source := nextTimer];
      callbacks := callbacks[nextTimer := source];
      nextTimer := nextTimer + 1;
    }

    /** stopTimer */
    method HaltTimer(source: string, stale: bool)
      modifies this`timers, this`callbacks
      ensures ClockView() == StopTimer(old(ClockView()), source, stale)
    {
      if source in timers {
        if !stale {
          callbacks := callbacks - {timers[source]};
        }
        timers := timers - {source};
      }
    }

    /** takePending */
    method TakePending(source: string) returns (reqs: seq<nat>)
      modifies this`pending
      ensures reqs == Queue(old(FlowView()), source)
      ensures pending == old(pending) - {source}
    {
      reqs := if source in pending then pending[source] else [];
      pending := pending - {source};
    }

    /** The locked section of Load; the result tells whether the request was accepted. */
    method SubmitLoad(source: string, query: string, stale: bool) returns (accepted: bool)
      modifies this
      ensures accepted == !old(closed)
      ensures View() == Apply(old(View()), Load(source, query, stale))
    {
      if closed {
        return false;
      }
      var req := |requests|;
      requests := requests + [Request(source, query)];
      pending := pending[source := (if source in pending then pending[source] else []) + [req]];
      var batch := pending[source];
      if |batch| >= maxBatch {
        HaltTimer(source, stale);
        var reqs := TakePending(source);
        batches := batches + {Batch(source, reqs)};
      } else {
        StartTimer(source);
      }
      return true;
    }

    /** The locked section of Load after its context was cancelled. */
    method FlushOnCancel(source: string, stale: bool)
      modifies this
      ensures View() == Apply(old(View()), Cancel(source, stale))
    {
      var reqs := TakePending(source);
      if |reqs| > 0 {
        HaltTimer(source, stale);
        batches := batches + {Batch(source, reqs)};
      }
    }

    /** The locked section of a timer's callback. */
    method OnTimer(timer: nat)
      requires timer in callbacks
      modifies this
      ensures View() == Apply(old(View()), Fire(timer))
    {
      var source := callbacks[timer];
      callbacks := callbacks - {timer};
      var reqs := TakePending(source);
      timers := timers - {source};
      if |reqs| > 0 {
        batches := batches + {Batch(source, reqs)};
      }
    }

    /** One turn of the loop of executeBatch. */
    method ExecuteNext(batch: Batch, answer: string)
      requires CanAnswer(FlowView(), batch)
      modifies this
      ensures View() == Apply(old(View()), Deliver(batch, answer))
    {
      var id := batch.ids[0];
      var r := requests[id];
      replies := replies[id := Reply(r.source, r.query, answer)];
      batches := batches - {batch};
      if |batch.ids| > 1 {
        batches := batches + {Batch(batch.source, batch.ids[1..])};
      }
    }

    /** The loop body of Close for one source. */
    method FlushOnClose(source: string, stale: bool)
      requires source in pending && pending[source] != []
      modifies this`timers, this`callbacks, this`batches
      ensures ClockView() == StopTimer(old(ClockView()), source, stale)
      ensures batches == old(batches) + {Batch(source, pending[source])}
    {
      var reqs := pending[source];
      HaltTimer(source, stale);
      if |reqs| > 0 {
        batches := batches + {Batch(source, reqs)};
      }
    }

    /** Close: the sources are visited in an arbitrary order. */
    method Shutdown(fired: set<string>)
      requires NothingStranded(View())
      modifies this
      ensures View() == Apply(old(View()), Close(fired))
    {
      closed := true;
      ghost var clock, flow := ClockView(), FlowView();
      assert forall d :: d in pending ==> d in clock.timers && pending[d] != [];
      FlushEach(fired);
      pending := map[];
      assert ClockView() == StopTimers(clock, flow.pending.Keys, fired) && FlowView() == TakeAll(flow);
    }

    /** The loop of Close, in any order. */
    method FlushEach(fired: set<string>)
      requires forall d :: d in pending ==> d in timers && pending[d] != []
      modifies this`timers, this`callbacks, this`batches
      ensures ClockView() == StopTimers(old(ClockView()), pending.Keys, fired)
      ensures batches == old(batches) + Queues(pending, pending.Keys)
    {
      ghost var clock, halted := ClockView(), ClockView();
      ghost var taken, flushed := batches, batches;
      var todo := pending.Keys;
      ghost var done: set<string> := {};
      StopNothing(clock, done, fired);
      while todo != {}
        invariant todo + done == pending.Keys && todo !! done
        invariant ClockView() == halted && halted == StopTimers(clock, done, fired)
        invariant batches == flushed && flushed == taken + Queues(pending, done)
        modifies this`timers, this`callbacks, this`batches
        decreases todo
      {
        var d :| d in todo;
        StopOneMore(clock, done, d, fired);
        QueueOneMore(taken, pending, done, d);
        FlushOnClose(d, d in fired);
        todo, done := todo - {d}, done + {d};
        halted, flushed := StopTimers(clock, done, fired), taken + Queues(pending, done);
      }
      assert done == pending.Keys;
    }
  }

  lemma QueueOneMore(taken: set<Batch>, pending: map<string, seq<nat>>, sources: set<string>, source: string)
    requires source in pending
    ensures taken + Queues(pending, sources + {source})
         == taken + Queues(pending, sources) + {Batch(source, pending[source])}
  {
    assert Queues(pending, sources + {source}) == Queues(pending, sources) + {Batch(source, pending[source])};
  }

  lemma StopNothing(c: Clock, sources: set<string>, fired: set<string>)
    requires sources == {}
    ensures StopTimers(c, sources, fired) == c
  {
    assert c.timers - sources == c.timers;
    assert Prevented(c, sources, fired) == {};
    assert c.callbacks - {} == c.callbacks;
  }

  lemma StopOneMore(c: Clock, sources: set<string>, source: string, fired: set<string>)
    requires source !in sources && source in c.timers
    ensures StopTimer(StopTimers(c, sources, fired), source, source in fired)
         == StopTimers(c, sources + {source}, fired)
  {
    var c1 := StopTimers(c, sources, fired);
    var gone := Prevented(c, sources, fired);
    var gone' := Prevented(c, sources + {source}, fired);
    assert c1.timers - {source} == c.timers - (sources + {source});
    assert gone' == if source in fired then gone else gone + {c.timers[source]};
  }
}
