/** GetOrLoad of the cache layer under interleaved callers. Each event is one call into the
    backend, the flight group or the loader. */
module CacheLoading {
  import opened Text

  type Bytes = string

  const EMPTY_MARKER: Bytes := "__empty__"

  /** The serialization of cached values. Encoding may fail; what was encoded decodes back,
      and no encoding is the empty marker. */
  datatype Codec = Codec(encode: Bytes -> Option<Bytes>, decode: Bytes -> Option<Bytes>)

  ghost predicate Sound(codec: Codec) {
    forall x :: codec.encode(x).Some? ==>
      codec.decode(codec.encode(x).value) == Some(x) && codec.encode(x).value != EMPTY_MARKER
  }

  /** What a caller gets. No data, which the source returns as nil, is the empty value. */
  datatype Outcome = Value(bytes: Bytes) | Failure(error: string)

  datatype Phase =
    | Checking                                // about to read the backend
    | SawCorrupt                              // about to delete the entry it could not decode
    | Missed                                  // about to enter the flight group
    | Waiting(flight: nat)                    // joined a flight
    | Loading(flight: nat)                    // leads a flight, loader running
    | Storing(flight: nat, result: Bytes)     // loader returned
    | Landing(flight: nat, outcome: Outcome)  // flight about to be removed from the group
    | Done(outcome: Outcome, via: Option<nat>)

  datatype Caller = Caller(key: string, phase: Phase)

  /** `returned` records what the flight's loader returned, `outcome` is what its callers get. */
  datatype Flight = Flight(key: string, leader: nat, returned: Option<Outcome>, outcome: Option<Outcome>)

  /** `loaded` records what loaders have returned for which key, `tainted` which entries have
      turned into something undecodable. */
  datatype Layer = Layer(
    backend: map<string, Bytes>,
    group: map<string, nat>,
    flights: seq<Flight>,
    callers: map<nat, Caller>,
    loaded: set<(string, Bytes)>,
    tainted: set<(string, Bytes)>)

  /** `readError`, `deleted` and `written` tell of the backend's own failures. Evict stands for expiry, eviction
      and deletion by others, Taint for an entry that turned into something undecodable. */
  datatype Event =
    | Arrive(caller: nat, key: string)
    | Check(caller: nat, readError: bool)
    | DropCorrupt(caller: nat, deleted: bool)
    | Enter(caller: nat)
    | LoaderReturns(caller: nat, outcome: Outcome)
    | Store(caller: nat, written: bool)
    | Land(caller: nat)
    | Wake(caller: nat)
    | Evict(key: string)
    | Taint(key: string, bytes: Bytes)

  const INIT := Layer(map[], map[], [], map[], {}, {})

  predicate In(s: Layer, caller: nat, p: Phase -> bool) {
    caller in s.callers && p(s.callers[caller].phase)
  }

  predicate Enabled(s: Layer, e: Event, codec: Codec) {
    match e
    case Arrive(caller, _) => caller !in s.callers
    case Check(caller, _) => In(s, caller, (p: Phase) => p.Checking?)
    case DropCorrupt(caller, _) => In(s, caller, (p: Phase) => p.SawCorrupt?)
    case Enter(caller) => In(s, caller, (p: Phase) => p.Missed?)
    case LoaderReturns(caller, _) => In(s, caller, (p: Phase) => p.Loading? && p.flight < |s.flights|)
    case Store(caller, _) => In(s, caller, (p: Phase) => p.Storing?)
    case Land(caller) => In(s, caller, (p: Phase) => p.Landing? && p.flight < |s.flights|)
    case Wake(caller) =>
      In(s, caller, (p: Phase) => p.Waiting? && p.flight < |s.flights| && s.flights[p.flight].outcome.Some?)
    case Evict(_) => true
    case Taint(_, bytes) => codec.decode(bytes).None? && bytes != EMPTY_MARKER
  }

  function Move(s: Layer, caller: nat, phase: Phase): Layer
    requires caller in s.callers
  {
    s.(callers := s.callers[caller := Caller(s.callers[caller].key, phase)])
  }

  /** A caller that becomes the leader of a new flight for its key. */
  function NewFlight(s: Layer, caller: nat): Layer
    requires caller in s.callers
  {
    var key := s.callers[caller].key;
    Move(s.(group := s.group[key := |s.flights|], flights := s.flights + [Flight(key, caller, None, None)]),
         caller, Loading(|s.flights|))
  }

  function Record(s: Layer, f: nat, outcome: Outcome): Layer
    requires f < |s.flights|
  {
    s.(flights := s.flights[f := s.flights[f].(returned := Some(outcome))])
  }

  /** A leader whose flight ends with the outcome it brings. */
  function Landed(s: Layer, caller: nat): Layer
    requires caller in s.callers && s.callers[caller].phase.Landing? && s.callers[caller].phase.flight < |s.flights|
  {
    var key, p := s.callers[caller].key, s.callers[caller].phase;
    Move(s.(group := s.group - {key},
            flights := s.flights[p.flight := s.flights[p.flight].(outcome := Some(p.outcome))]),
         caller, Done(p.outcome, Some(p.flight)))
  }

  /** What reading an entry leads to. */
  function AfterRead(entry: Option<Bytes>, codec: Codec): Phase {
    match entry
    case None => Missed
    case Some(bytes) =>
      if bytes == EMPTY_MARKER then Done(Value(""), None)
      else match codec.decode(bytes)
        case None => SawCorrupt
        case Some(value) => Done(Value(value), None)
  }

  function Entry(s: Layer, key: string): Option<Bytes> {
    if key in s.backend then Some(s.backend[key]) else None
  }

  /** What is written for a loader's result: the marker for no data, otherwise its encoding. */
  function Stored(result: Bytes, codec: Codec): Option<Bytes> {
    if result == "" then Some(EMPTY_MARKER) else codec.encode(result)
  }

  function Apply(s: Layer, e: Event, codec: Codec): Layer
    requires Enabled(s, e, codec)
  {
    match e
    case Arrive(caller, key) => s.(callers := s.callers[caller := Caller(key, Checking)])
    case Check(caller, readError) =>
      Move(s, caller, if readError then Missed else AfterRead(Entry(s, s.callers[caller].key), codec))
    case DropCorrupt(caller, deleted) =>
      Move(if deleted then s.(backend := s.backend - {s.callers[caller].key}) else s, caller, Missed)
    case Enter(caller) =>
      var key := s.callers[caller].key;
      if key in s.group then Move(s, caller, Waiting(s.group[key])) else NewFlight(s, caller)
    case LoaderReturns(caller, outcome) =>
      var key, f := s.callers[caller].key, s.callers[caller].phase.flight;
      var s' := Record(s, f, outcome);
      (match outcome
       case Failure(_) => Move(s', caller, Landing(f, outcome))
       case Value(bytes) => Move(s'.(loaded := s.loaded + {(key, bytes)}), caller, Storing(f, bytes)))
    case Store(caller, written) =>
      var key, p := s.callers[caller].key, s.callers[caller].phase;
      var s' := Move(s, caller, Landing(p.flight, Value(p.result)));
      if written && Stored(p.result, codec).Some? then s'.(backend := s.backend[key := Stored(p.result, codec).value])
      else s'
    case Land(caller) => Landed(s, caller)
    case Wake(caller) =>
      var f := s.callers[caller].phase.flight;
      Move(s, caller, Done(s.flights[f].outcome.value, Some(f)))
    case Evict(key) => s.(backend := s.backend - {key})
    case Taint(key, bytes) => s.(backend := s.backend[key := bytes], tainted := s.tainted + {(key, bytes)})
  }

  predicate Run(s: Layer, events: seq<Event>, codec: Codec)
    decreases |events|
  {
    events == [] || (Enabled(s, events[0], codec) && Run(Apply(s, events[0], codec), events[1..], codec))
  }

  function After(s: Layer, events: seq<Event>, codec: Codec): Layer
    requires Run(s, events, codec)
    decreases |events|
  {
    if events == [] then s else After(Apply(s, events[0], codec), events[1..], codec)
  }

  // ---------------------------------------------------------------------
  // Invariants
  // ---------------------------------------------------------------------

  predicate Leads(p: Phase) {
    p.Loading? || p.Storing? || p.Landing?
  }

  /** What the loader of a leader in this phase has returned. */
  function Returned(p: Phase): Option<Outcome>
    requires Leads(p)
  {
    match p
    case Loading(_) => None
    case Storing(_, result) => Some(Value(result))
    case Landing(_, outcome) => Some(outcome)
  }

  /** A key in the group has a running flight for it. */
  predicate Registered(s: Layer) {
    forall k :: k in s.group ==>
      s.group[k] < |s.flights| && s.flights[s.group[k]].key == k && s.flights[s.group[k]].outcome.None?
  }

  /** A running flight is in the group and has its leader at work. */
  predicate Led(s: Layer) {
    forall f :: 0 <= f < |s.flights| && s.flights[f].outcome.None? ==>
      var Flight(k, leader, _, _) := s.flights[f];
      && k in s.group && s.group[k] == f
      && leader in s.callers && s.callers[leader].key == k
      && Leads(s.callers[leader].phase) && s.callers[leader].phase.flight == f
  }

  /** A leader at work has a running flight, with what its loader returned on record. */
  predicate Leading(s: Layer) {
    forall c :: c in s.callers && Leads(s.callers[c].phase) ==>
      var f := s.callers[c].phase.flight;
      f < |s.flights| && s.flights[f] == Flight(s.callers[c].key, c, Returned(s.callers[c].phase), None)
  }

  /** A flight's outcome is what its own loader returned. */
  predicate Settled(s: Layer) {
    forall f :: 0 <= f < |s.flights| && s.flights[f].outcome.Some? ==> s.flights[f].outcome == s.flights[f].returned
  }

  predicate Grouped(s: Layer) {
    Registered(s) && Led(s) && Leading(s) && Settled(s)
  }

  predicate Joined(s: Layer) {
    forall c :: c in s.callers ==> JoinedCaller(s, s.callers[c])
  }

  predicate JoinedCaller(s: Layer, c: Caller) {
    match c.phase
    case Waiting(f) => f < |s.flights| && s.flights[f].key == c.key
    case Done(outcome, Some(f)) =>
      f < |s.flights| && s.flights[f].key == c.key && s.flights[f].outcome == Some(outcome)
    case _ => true
  }

  predicate Genuine(s: Layer, key: string, outcome: Outcome) {
    outcome.Value? ==> (key, outcome.bytes) in s.loaded
  }

  /** Everything that callers and flights carry was returned by a loader for their key. */
  predicate Carried(s: Layer) {
    && (forall f :: 0 <= f < |s.flights| && s.flights[f].outcome.Some? ==>
          Genuine(s, s.flights[f].key, s.flights[f].outcome.value))
    && (forall c :: c in s.callers ==> CarriedCaller(s, s.callers[c]))
  }

  predicate CarriedCaller(s: Layer, c: Caller) {
    match c.phase
    case Storing(_, result) => (c.key, result) in s.loaded
    case Landing(_, outcome) => Genuine(s, c.key, outcome)
    case Done(outcome, _) => Genuine(s, c.key, outcome)
    case _ => true
  }

  /** A stored entry is the marker or the encoding of something a loader returned for its key,
      unless exactly these bytes are recorded as an entry that has become undecodable. */
  predicate Backed(s: Layer, codec: Codec) {
    forall k :: k in s.backend ==> BackedEntry(s, k, s.backend[k], codec)
  }

  predicate BackedEntry(s: Layer, k: string, bytes: Bytes, codec: Codec) {
    if bytes == EMPTY_MARKER then (k, "") in s.loaded
    else match codec.decode(bytes)
      case None => (k, bytes) in s.tainted
      case Some(r) => r != "" && codec.encode(r) == Some(bytes) && (k, r) in s.loaded
  }

  ghost predicate Inv(s: Layer, codec: Codec) {
    Sound(codec) && Grouped(s) && Joined(s) && Carried(s) && Backed(s, codec)
  }

  /** A caller that neither takes up nor gives up a flight leaves the group in order. */
  lemma MoveGrouped(s: Layer, c: nat, phase: Phase)
    requires Grouped(s) && c in s.callers
    requires Leads(s.callers[c].phase) == Leads(phase)
    requires Leads(phase) ==>
               phase.flight == s.callers[c].phase.flight && Returned(phase) == Returned(s.callers[c].phase)
    ensures Grouped(Move(s, c, phase))
  {
  }

  lemma NewFlightIsLed(s: Layer, c: nat)
    requires Grouped(s) && c in s.callers && !Leads(s.callers[c].phase) && s.callers[c].key !in s.group
    ensures Led(NewFlight(s, c))
  {
    assert forall f :: 0 <= f < |s.flights| ==> NewFlight(s, c).flights[f] == s.flights[f];
  }

  lemma NewFlightLeads(s: Layer, c: nat)
    requires Leading(s) && c in s.callers && !Leads(s.callers[c].phase)
    ensures Leading(NewFlight(s, c))
  {
    assert NewFlight(s, c).flights[|s.flights|] == Flight(s.callers[c].key, c, None, None);
    assert forall f :: 0 <= f < |s.flights| ==> NewFlight(s, c).flights[f] == s.flights[f];
  }

  /** A new flight for a key that has none. */
  lemma EnterGrouped(s: Layer, c: nat)
    requires Grouped(s) && c in s.callers && !Leads(s.callers[c].phase) && s.callers[c].key !in s.group
    ensures Grouped(NewFlight(s, c))
  {
    NewFlightIsLed(s, c);
    NewFlightLeads(s, c);
  }

  /** A leader that goes on, with its own flight updated. */
  lemma ReturnGrouped(s: Layer, c: nat, outcome: Outcome, phase: Phase)
    requires Grouped(s) && c in s.callers && s.callers[c].phase.Loading?
    requires Leads(phase) && phase.flight == s.callers[c].phase.flight < |s.flights| && Returned(phase) == Some(outcome)
    ensures Grouped(Move(Record(s, phase.flight, outcome), c, phase))
  {
    var f, s' := phase.flight, Move(Record(s, phase.flight, outcome), c, phase);
    assert s.flights[f] == Flight(s.callers[c].key, c, None, None);
    assert forall g :: 0 <= g < |s.flights| && g != f ==> s'.flights[g] == s.flights[g];
    assert Registered(s');
    assert Settled(s');
    ReturnLeads(s, c, outcome, phase);
  }

  lemma ReturnLeads(s: Layer, c: nat, outcome: Outcome, phase: Phase)
    requires Grouped(s) && c in s.callers && s.callers[c].phase.Loading?
    requires Leads(phase) && phase.flight == s.callers[c].phase.flight < |s.flights| && Returned(phase) == Some(outcome)
    ensures Leading(Move(Record(s, phase.flight, outcome), c, phase))
    ensures Led(Move(Record(s, phase.flight, outcome), c, phase))
  {
    OthersLead(s, c, phase.flight);
  }

  /** No other leader has the same flight. */
  lemma OthersLead(s: Layer, c: nat, f: nat)
    requires Grouped(s) && c in s.callers && Leads(s.callers[c].phase) && s.callers[c].phase.flight == f
    ensures forall d :: d in s.callers && d != c && Leads(s.callers[d].phase) ==> s.callers[d].phase.flight != f
  {
  }

  lemma LandGrouped(s: Layer, c: nat)
    requires Grouped(s) && c in s.callers && s.callers[c].phase.Landing? && s.callers[c].phase.flight < |s.flights|
    ensures Grouped(Landed(s, c))
  {
    var f, s' := s.callers[c].phase.flight, Landed(s, c);
    assert forall g :: 0 <= g < |s.flights| && g != f ==> s'.flights[g] == s.flights[g];
    assert s'.flights[f].outcome.Some?;
    assert Settled(s');
    OthersLead(s, c, f);
    assert Leading(s');
  }

  /** Steps that touch neither group nor flights nor leaders. */
  lemma SameGroup(s: Layer, s': Layer)
    requires Grouped(s) && s'.group == s.group && s'.flights == s.flights
    requires forall c :: c in s.callers ==> c in s'.callers && s'.callers[c] == s.callers[c]
    requires forall c :: c in s'.callers && c !in s.callers ==> s'.callers[c].phase.Checking?
    ensures Grouped(s')
  {
  }

  /** The steps of callers that lead no flight, and those from outside. */
  lemma FollowerGrouped(s: Layer, e: Event, codec: Codec)
    requires Grouped(s) && Enabled(s, e, codec) && !e.LoaderReturns? && !e.Store? && !e.Land?
    ensures Grouped(Apply(s, e, codec))
  {
    match e
    case Arrive(caller, key) => SameGroup(s, Apply(s, e, codec));
    case Check(caller, readError) =>
      MoveGrouped(s, caller, if readError then Missed else AfterRead(Entry(s, s.callers[caller].key), codec));
    case DropCorrupt(caller, _) =>
      MoveGrouped(s, caller, Missed);
      SameGroup(Move(s, caller, Missed), Apply(s, e, codec));
    case Enter(caller) =>
      var key := s.callers[caller].key;
      if key in s.group {
        MoveGrouped(s, caller, Waiting(s.group[key]));
      } else {
        EnterGrouped(s, caller);
      }
    case Wake(caller) =>
      var f := s.callers[caller].phase.flight;
      MoveGrouped(s, caller, Done(s.flights[f].outcome.value, Some(f)));
    case Evict(_) => SameGroup(s, Apply(s, e, codec));
    case Taint(_, _) => SameGroup(s, Apply(s, e, codec));
  }

  lemma LeaderGrouped(s: Layer, e: Event, codec: Codec)
    requires Grouped(s) && Enabled(s, e, codec) && (e.LoaderReturns? || e.Store? || e.Land?)
    ensures Grouped(Apply(s, e, codec))
  {
    match e
    case LoaderReturns(caller, outcome) =>
      var f := s.callers[caller].phase.flight;
      var phase := if outcome.Value? then Storing(f, outcome.bytes) else Landing(f, outcome);
      ReturnGrouped(s, caller, outcome, phase);
      SameGroup(Move(Record(s, f, outcome), caller, phase), Apply(s, e, codec));
    case Store(caller, _) =>
      var p := s.callers[caller].phase;
      MoveGrouped(s, caller, Landing(p.flight, Value(p.result)));
      SameGroup(Move(s, caller, Landing(p.flight, Value(p.result))), Apply(s, e, codec));
    case Land(caller) => LandGrouped(s, caller);
  }

  lemma StepGrouped(s: Layer, e: Event, codec: Codec)
    requires Grouped(s) && Enabled(s, e, codec)
    ensures Grouped(Apply(s, e, codec))
  {
    if e.LoaderReturns? || e.Store? || e.Land? {
      LeaderGrouped(s, e, codec);
    } else {
      FollowerGrouped(s, e, codec);
    }
  }

  /** Flights only grow, and what is known about one stays. */
  predicate FlightsGrow(s: Layer, s': Layer) {
    && |s.flights| <= |s'.flights|
    && forall f :: 0 <= f < |s.flights| ==>
         s'.flights[f].key == s.flights[f].key && s'.flights[f].leader == s.flights[f].leader
         && (s.flights[f].returned.Some? ==> s'.flights[f].returned == s.flights[f].returned)
         && (s.flights[f].outcome.Some? ==> s'.flights[f].outcome == s.flights[f].outcome)
  }

  lemma JoinedStays(s: Layer, s': Layer, c: Caller)
    requires FlightsGrow(s, s') && JoinedCaller(s, c)
    ensures JoinedCaller(s', c)
  {
  }

  lemma RecordGrows(s: Layer, f: nat, outcome: Outcome)
    requires f < |s.flights| && s.flights[f].returned.None?
    ensures FlightsGrow(s, Record(s, f, outcome))
  {
  }

  lemma LandedGrows(s: Layer, c: nat)
    requires c in s.callers && s.callers[c].phase.Landing? && s.callers[c].phase.flight < |s.flights|
    requires s.flights[s.callers[c].phase.flight].outcome.None?
    ensures FlightsGrow(s, Landed(s, c))
  {
  }

  lemma StepFlightsGrow(s: Layer, e: Event, codec: Codec)
    requires Grouped(s) && Enabled(s, e, codec)
    ensures FlightsGrow(s, Apply(s, e, codec)) && s.loaded <= Apply(s, e, codec).loaded
  {
    if e.LoaderReturns? {
      RecordGrows(s, s.callers[e.caller].phase.flight, e.outcome);
    } else if e.Land? {
      LandedGrows(s, e.caller);
    }
  }

  /** The caller that an event moves, if any. */
  function Mover(e: Event): Option<nat> {
    if e.Evict? || e.Taint? then None else Some(e.caller)
  }

  lemma OthersStay(s: Layer, e: Event, codec: Codec, c: nat)
    requires Enabled(s, e, codec) && c in Apply(s, e, codec).callers && Mover(e) != Some(c)
    ensures c in s.callers && Apply(s, e, codec).callers[c] == s.callers[c]
  {
  }

  lemma MoverJoined(s: Layer, e: Event, codec: Codec)
    requires Grouped(s) && Joined(s) && Enabled(s, e, codec) && Mover(e).Some?
    ensures JoinedCaller(Apply(s, e, codec), Apply(s, e, codec).callers[Mover(e).value])
  {
    if Mover(e).value in s.callers {
      assert JoinedCaller(s, s.callers[Mover(e).value]);
    }
  }

  lemma StepJoined(s: Layer, e: Event, codec: Codec)
    requires Grouped(s) && Joined(s) && Enabled(s, e, codec)
    ensures Joined(Apply(s, e, codec))
  {
    var s' := Apply(s, e, codec);
    StepFlightsGrow(s, e, codec);
    forall c | c in s'.callers ensures JoinedCaller(s', s'.callers[c]) {
      if Mover(e) == Some(c) {
        MoverJoined(s, e, codec);
      } else {
        OthersStay(s, e, codec, c);
        JoinedStays(s, s', s.callers[c]);
      }
    }
  }

  lemma MoverCarried(s: Layer, e: Event, codec: Codec)
    requires Inv(s, codec) && Enabled(s, e, codec) && Mover(e).Some?
    ensures CarriedCaller(Apply(s, e, codec), Apply(s, e, codec).callers[Mover(e).value])
  {
    if Mover(e).value in s.callers {
      var c := s.callers[Mover(e).value];
      assert CarriedCaller(s, c) && JoinedCaller(s, c);
      assert c.key in s.backend ==> BackedEntry(s, c.key, s.backend[c.key], codec);
    }
  }

  /** Only landing gives a flight its outcome. */
  lemma OutcomesStay(s: Layer, e: Event, codec: Codec, f: nat)
    requires Enabled(s, e, codec) && !e.Land?
    requires f < |Apply(s, e, codec).flights| && Apply(s, e, codec).flights[f].outcome.Some?
    ensures f < |s.flights|
    ensures s.flights[f].outcome == Apply(s, e, codec).flights[f].outcome
    ensures s.flights[f].key == Apply(s, e, codec).flights[f].key
  {
  }

  lemma FlightsCarried(s: Layer, e: Event, codec: Codec, f: nat)
    requires Grouped(s) && Carried(s) && Enabled(s, e, codec)
    requires f < |Apply(s, e, codec).flights| && Apply(s, e, codec).flights[f].outcome.Some?
    ensures var s' := Apply(s, e, codec); Genuine(s', s'.flights[f].key, s'.flights[f].outcome.value)
  {
    if e.Land? {
      assert CarriedCaller(s, s.callers[e.caller]);
    } else {
      OutcomesStay(s, e, codec, f);
      StepFlightsGrow(s, e, codec);
    }
  }

  lemma StepCarried(s: Layer, e: Event, codec: Codec)
    requires Inv(s, codec) && Enabled(s, e, codec)
    ensures Carried(Apply(s, e, codec))
  {
    var s' := Apply(s, e, codec);
    StepFlightsGrow(s, e, codec);
    forall f | 0 <= f < |s'.flights| && s'.flights[f].outcome.Some?
      ensures Genuine(s', s'.flights[f].key, s'.flights[f].outcome.value)
    {
      FlightsCarried(s, e, codec, f);
    }
    forall c | c in s'.callers ensures CarriedCaller(s', s'.callers[c]) {
      if Mover(e) == Some(c) {
        MoverCarried(s, e, codec);
      } else {
        OthersStay(s, e, codec, c);
        assert CarriedCaller(s, s.callers[c]);
      }
    }
  }

  lemma BackedStays(s: Layer, s': Layer, k: string, bytes: Bytes, codec: Codec)
    requires s.loaded <= s'.loaded && s.tainted <= s'.tainted && BackedEntry(s, k, bytes, codec)
    ensures BackedEntry(s', k, bytes, codec)
  {
  }

  lemma StoredIsBacked(s: Layer, k: string, result: Bytes, codec: Codec)
    requires Sound(codec) && (k, result) in s.loaded && Stored(result, codec).Some?
    ensures BackedEntry(s, k, Stored(result, codec).value, codec)
  {
  }

  /** What a step leaves in the backend was there, or is stored or tainted by it. */
  lemma BackendChanges(s: Layer, e: Event, codec: Codec, k: string)
    requires Enabled(s, e, codec) && k in Apply(s, e, codec).backend
    ensures s.loaded <= Apply(s, e, codec).loaded && s.tainted <= Apply(s, e, codec).tainted
    ensures var bytes := Apply(s, e, codec).backend[k];
            || (k in s.backend && s.backend[k] == bytes)
            || e == Taint(k, bytes)
            || (e.Store? && s.callers[e.caller].key == k
                && Stored(s.callers[e.caller].phase.result, codec) == Some(bytes))
  {
  }

  lemma StepBacked(s: Layer, e: Event, codec: Codec)
    requires Sound(codec) && Carried(s) && Backed(s, codec) && Enabled(s, e, codec)
    ensures Backed(Apply(s, e, codec), codec)
  {
    var s' := Apply(s, e, codec);
    forall k | k in s'.backend ensures BackedEntry(s', k, s'.backend[k], codec) {
      BackendChanges(s, e, codec, k);
      if k in s.backend && s.backend[k] == s'.backend[k] {
        BackedStays(s, s', k, s'.backend[k], codec);
      } else if e.Store? {
        assert CarriedCaller(s, s.callers[e.caller]);
        StoredIsBacked(s', k, s.callers[e.caller].phase.result, codec);
      }
    }
  }

  lemma StepInv(s: Layer, e: Event, codec: Codec)
    requires Inv(s, codec) && Enabled(s, e, codec)
    ensures Inv(Apply(s, e, codec), codec)
  {
    StepGrouped(s, e, codec);
    StepJoined(s, e, codec);
    StepCarried(s, e, codec);
    StepBacked(s, e, codec);
  }

  lemma {:induction false} RunInv(s: Layer, events: seq<Event>, codec: Codec)
    requires Inv(s, codec) && Run(s, events, codec)
    ensures Inv(After(s, events, codec), codec)
    decreases |events|
  {
    if events != [] {
      StepInv(s, events[0], codec);
      RunInv(Apply(s, events[0], codec), events[1..], codec);
    }
  }

  // ---------------------------------------------------------------------
  // What GetOrLoad promises, in every interleaving
  // ---------------------------------------------------------------------

  /** At most one loader per key runs at any instant. */
  lemma OneLoaderPerKey(events: seq<Event>, codec: Codec, a: nat, b: nat)
    requires Sound(codec) && Run(INIT, events, codec)
    requires var s := After(INIT, events, codec);
             a in s.callers && b in s.callers && s.callers[a].key == s.callers[b].key
             && s.callers[a].phase.Loading? && s.callers[b].phase.Loading?
    ensures a == b
  {
    RunInv(INIT, events, codec);
    var s := After(INIT, events, codec);
    assert s.flights[s.callers[a].phase.flight].outcome.None?;
    assert s.flights[s.callers[b].phase.flight].outcome.None?;
  }

  lemma StepReturned(s: Layer, e: Event, codec: Codec, f: nat)
    requires Grouped(s) && Enabled(s, e, codec)
    requires f < |Apply(s, e, codec).flights| && Apply(s, e, codec).flights[f].returned.Some?
    ensures var Flight(_, leader, returned, _) := Apply(s, e, codec).flights[f];
            (f < |s.flights| && s.flights[f].returned == returned) || e == LoaderReturns(leader, returned.value)
  {
  }

  /** What a flight has on record as returned was returned by the loader that its leader ran. */
  lemma {:induction false} ReturnedByTheLoader(s: Layer, events: seq<Event>, codec: Codec, f: nat)
    requires Grouped(s) && Run(s, events, codec)
    requires f < |After(s, events, codec).flights| && After(s, events, codec).flights[f].returned.Some?
    ensures var Flight(_, leader, returned, _) := After(s, events, codec).flights[f];
            (f < |s.flights| && s.flights[f].returned == returned) || LoaderReturns(leader, returned.value) in events
    decreases |events|
  {
    if events != [] {
      var s1 := Apply(s, events[0], codec);
      StepGrouped(s, events[0], codec);
      ReturnedByTheLoader(s1, events[1..], codec, f);
      if f < |s1.flights| && s1.flights[f].returned.Some? {
        FlightsGrowInRun(s1, events[1..], codec);
        StepReturned(s, events[0], codec, f);
      }
    }
  }

  lemma {:induction false} FlightsGrowInRun(s: Layer, events: seq<Event>, codec: Codec)
    requires Grouped(s) && Run(s, events, codec)
    ensures FlightsGrow(s, After(s, events, codec))
    decreases |events|
  {
    if events != [] {
      StepGrouped(s, events[0], codec);
      StepFlightsGrow(s, events[0], codec);
      FlightsGrowInRun(Apply(s, events[0], codec), events[1..], codec);
    }
  }

  /** All callers of one flight, its leader included, get what that flight's own loader returned,
      and none of them waits without a leader. */
  lemma FlightSharesItsOutcome(events: seq<Event>, codec: Codec, a: nat)
    requires Sound(codec) && Run(INIT, events, codec)
    requires a in After(INIT, events, codec).callers
    ensures var s := After(INIT, events, codec);
            var p := s.callers[a].phase;
            && (p.Done? && p.via.Some? ==>
                  && p.via.value < |s.flights|
                  && var flight := s.flights[p.via.value];
                     flight.key == s.callers[a].key && LoaderReturns(flight.leader, p.outcome) in events)
            && (p.Done? && p.via.Some? ==> s.flights[p.via.value].returned == Some(p.outcome))
            && (p.Waiting? ==> p.flight < |s.flights|)
            && (p.Waiting? && s.flights[p.flight].outcome.None? ==>
                  var leader := s.flights[p.flight].leader;
                  leader in s.callers && s.callers[leader].key == s.callers[a].key && Leads(s.callers[leader].phase))
  {
    RunInv(INIT, events, codec);
    var s := After(INIT, events, codec);
    var p := s.callers[a].phase;
    assert JoinedCaller(s, s.callers[a]);
    if p.Done? && p.via.Some? {
      ReturnedByTheLoader(INIT, events, codec, p.via.value);
    }
  }

  /** Whatever a caller is given as a value was returned by some loader for its key: neither an
      error nor a corrupt entry ever comes back as data. */
  lemma ValuesComeFromLoaders(events: seq<Event>, codec: Codec, c: nat)
    requires Sound(codec) && Run(INIT, events, codec)
    requires var s := After(INIT, events, codec);
             c in s.callers && s.callers[c].phase.Done? && s.callers[c].phase.outcome.Value?
    ensures var s := After(INIT, events, codec);
            (s.callers[c].key, s.callers[c].phase.outcome.bytes) in s.loaded
  {
    RunInv(INIT, events, codec);
    var s := After(INIT, events, codec);
    assert CarriedCaller(s, s.callers[c]);
  }

  /** An entry is on record as undecodable only if an event outside the layer made it so. */
  lemma {:induction false} TaintedByAnEvent(s: Layer, events: seq<Event>, codec: Codec, key: string, bytes: Bytes)
    requires Run(s, events, codec)
    requires (key, bytes) in After(s, events, codec).tainted
    ensures (key, bytes) in s.tainted || Taint(key, bytes) in events
    decreases |events|
  {
    if events != [] {
      TaintedByAnEvent(Apply(s, events[0], codec), events[1..], codec, key, bytes);
    }
  }

  predicate MarkerOrEncoding(s: Layer, key: string, bytes: Bytes, codec: Codec) {
    if bytes == EMPTY_MARKER then (key, "") in s.loaded
    else
      var r := codec.decode(bytes);
      r.Some? && r.value != "" && codec.encode(r.value) == Some(bytes) && (key, r.value) in s.loaded
  }

  /** The backend holds for a key nothing but the marker after a loader returned no data, or the
      encoding of a loader's result, or bytes that an event outside the layer put there. */
  lemma BackendHoldsLoadedData(events: seq<Event>, codec: Codec, key: string)
    requires Sound(codec) && Run(INIT, events, codec)
    requires key in After(INIT, events, codec).backend
    ensures var s := After(INIT, events, codec);
            MarkerOrEncoding(s, key, s.backend[key], codec) || Taint(key, s.backend[key]) in events
    ensures var bytes := After(INIT, events, codec).backend[key];
            codec.decode(bytes).None? && bytes != EMPTY_MARKER ==> Taint(key, bytes) in events
  {
    RunInv(INIT, events, codec);
    var s := After(INIT, events, codec);
    var bytes := s.backend[key];
    assert BackedEntry(s, key, bytes, codec);
    if (key, bytes) in s.tainted {
      TaintedByAnEvent(INIT, events, codec, key, bytes);
    }
  }

  /** The layer by itself never stores an error, nor anything else that no loader returned. */
  lemma ErrorsAreNeverStored(events: seq<Event>, codec: Codec, key: string)
    requires Sound(codec) && Run(INIT, events, codec)
    requires forall bytes :: Taint(key, bytes) !in events
    requires key in After(INIT, events, codec).backend
    ensures var s := After(INIT, events, codec); MarkerOrEncoding(s, key, s.backend[key], codec)
  {
    BackendHoldsLoadedData(events, codec, key);
  }

  // ---------------------------------------------------------------------
  // What is cached is served, and loading goes on until everybody is done
  // ---------------------------------------------------------------------

  lemma {:induction false} DoneStays(s: Layer, events: seq<Event>, codec: Codec, c: nat)
    requires Run(s, events, codec) && c in s.callers && s.callers[c].phase.Done?
    ensures c in After(s, events, codec).callers && After(s, events, codec).callers[c] == s.callers[c]
    ensures forall i :: 0 <= i < |events| && Mover(events[i]).Some? ==> events[i].caller != c
    decreases |events|
  {
    if events != [] {
      DoneStays(Apply(s, events[0], codec), events[1..], codec, c);
      forall i | 0 <= i < |events| && Mover(events[i]).Some? ensures events[i].caller != c {
        if i > 0 {
          assert events[i] == events[1..][i - 1];
        }
      }
    }
  }

  /** Bytes that stand for a value: its encoding, or the marker for no data. */
  predicate Holds(bytes: Bytes, value: Bytes, codec: Codec) {
    if bytes == EMPTY_MARKER then value == "" else codec.decode(bytes) == Some(value)
  }

  /** A caller that finds an entry it can read is given that value at once and for good: neither it
      nor anybody on its behalf loads, and nothing else changes. */
  lemma CachedIsServed(s: Layer, c: nat, value: Bytes, events: seq<Event>, codec: Codec)
    requires Enabled(s, Check(c, false), codec) && s.callers[c].key in s.backend
    requires Holds(s.backend[s.callers[c].key], value, codec)
    requires Run(Apply(s, Check(c, false), codec), events, codec)
    ensures var s' := Apply(s, Check(c, false), codec);
            && s' == s.(callers := s.callers[c := Caller(s.callers[c].key, Done(Value(value), None))])
            && c in After(s', events, codec).callers
            && After(s', events, codec).callers[c].phase == Done(Value(value), None)
            && forall i :: 0 <= i < |events| && Mover(events[i]).Some? ==> events[i].caller != c
  {
    DoneStays(Apply(s, Check(c, false), codec), events, codec, c);
  }

  /** Anything else sends the caller to the loader: no entry, an unreadable backend, or an entry that
      does not decode, which is deleted first if the backend can. */
  lemma MissedIsLoaded(s: Layer, c: nat, readError: bool, deleted: bool, codec: Codec)
    requires Enabled(s, Check(c, readError), codec)
    ensures var key, s' := s.callers[c].key, Apply(s, Check(c, readError), codec);
            var bytes := Entry(s, key);
            && (readError || bytes.None? ==> s'.callers[c].phase == Missed)
            && (!readError && bytes.Some? && bytes.value != EMPTY_MARKER && codec.decode(bytes.value).None? ==>
                  && Enabled(s', DropCorrupt(c, deleted), codec)
                  && var s'' := Apply(s', DropCorrupt(c, deleted), codec);
                     s''.callers[c].phase == Missed && Entry(s'', key) == if deleted then None else bytes)
  {
  }

  /** The events that touch the entry of a key. */
  predicate Touches(s: Layer, e: Event, key: string) {
    match e
    case DropCorrupt(caller, _) => caller in s.callers && s.callers[caller].key == key
    case Store(caller, _) => caller in s.callers && s.callers[caller].key == key
    case Evict(k) => k == key
    case Taint(k, _) => k == key
    case _ => false
  }

  predicate Untouched(s: Layer, events: seq<Event>, key: string, codec: Codec)
    requires Run(s, events, codec)
    decreases |events|
  {
    events == [] || (!Touches(s, events[0], key) && Untouched(Apply(s, events[0], codec), events[1..], key, codec))
  }

  lemma {:induction false} EntryStays(s: Layer, events: seq<Event>, key: string, codec: Codec)
    requires Run(s, events, codec) && Untouched(s, events, key, codec)
    ensures Entry(After(s, events, codec), key) == Entry(s, key)
    decreases |events|
  {
    if events != [] {
      EntryStays(Apply(s, events[0], codec), events[1..], key, codec);
    }
  }

  /** What a leader stores is what later callers of the key are served, as long as nobody touches the
      entry: the result of its loader, the absence of data included. */
  lemma StoredIsServed(s: Layer, leader: nat, events: seq<Event>, other: nat, codec: Codec)
    requires Sound(codec) && Enabled(s, Store(leader, true), codec)
    requires Stored(s.callers[leader].phase.result, codec).Some?
    requires var s1 := Apply(s, Store(leader, true), codec);
             && Run(s1, events, codec) && Untouched(s1, events, s.callers[leader].key, codec)
             && Enabled(After(s1, events, codec), Check(other, false), codec)
             && After(s1, events, codec).callers[other].key == s.callers[leader].key
    ensures var s2 := After(Apply(s, Store(leader, true), codec), events, codec);
            Apply(s2, Check(other, false), codec).callers[other].phase
            == Done(Value(s.callers[leader].phase.result), None)
  {
    EntryStays(Apply(s, Store(leader, true), codec), events, s.callers[leader].key, codec);
  }

  /** How far a caller is from its result. */
  function Distance(p: Phase): nat {
    match p
    case Checking => 6
    case SawCorrupt => 5
    case Missed => 4
    case Loading(_) => 3
    case Storing(_, _) => 2
    case Landing(_, _) => 1
    case Waiting(_) => 1
    case Done(_, _) => 0
  }

  /** Every event of a caller brings it closer to its result. */
  lemma StepsLeadToTheEnd(s: Layer, e: Event, codec: Codec)
    requires Enabled(s, e, codec) && Mover(e).Some? && !e.Arrive?
    ensures Distance(Apply(s, e, codec).callers[e.caller].phase) < Distance(s.callers[e.caller].phase)
  {
  }

  /** The next event of a caller, for some outcome of what it depends on. */
  function NextOf(s: Layer, c: nat): Event
    requires c in s.callers
  {
    match s.callers[c].phase
    case Checking => Check(c, false)
    case SawCorrupt => DropCorrupt(c, true)
    case Missed => Enter(c)
    case Loading(_) => LoaderReturns(c, Value(""))
    case Storing(_, _) => Store(c, true)
    case Landing(_, _) => Land(c)
    case Waiting(_) => Wake(c)
    case Done(_, _) => Evict("")
  }

  /** Whoever is not done can go on, or waits for a leader of the same key that can: nobody is stuck. */
  lemma NobodyIsStuck(events: seq<Event>, codec: Codec, c: nat)
    requires Sound(codec) && Run(INIT, events, codec)
    requires c in After(INIT, events, codec).callers && !After(INIT, events, codec).callers[c].phase.Done?
    ensures var s := After(INIT, events, codec);
            || (Enabled(s, NextOf(s, c), codec) && Mover(NextOf(s, c)) == Some(c))
            || (&& s.callers[c].phase.Waiting? && s.callers[c].phase.flight < |s.flights|
                && var leader := s.flights[s.callers[c].phase.flight].leader;
                   leader in s.callers && s.callers[leader].key == s.callers[c].key
                   && Enabled(s, NextOf(s, leader), codec) && Mover(NextOf(s, leader)) == Some(leader))
  {
    RunInv(INIT, events, codec);
    var s := After(INIT, events, codec);
    if s.callers[c].phase.Waiting? {
      WaitersHaveALeader(s, c, codec);
    } else {
      OthersGoOn(s, c, codec);
    }
  }

  lemma OthersGoOn(s: Layer, c: nat, codec: Codec)
    requires Grouped(s) && c in s.callers && !s.callers[c].phase.Done? && !s.callers[c].phase.Waiting?
    ensures Enabled(s, NextOf(s, c), codec) && Mover(NextOf(s, c)) == Some(c)
  {
    if Leads(s.callers[c].phase) {
      assert s.callers[c].phase.flight < |s.flights|;
    }
  }

  lemma WaitersHaveALeader(s: Layer, c: nat, codec: Codec)
    requires Grouped(s) && Joined(s) && c in s.callers && s.callers[c].phase.Waiting?
    ensures s.callers[c].phase.flight < |s.flights|
    ensures var flight := s.flights[s.callers[c].phase.flight];
            if flight.outcome.Some? then Enabled(s, NextOf(s, c), codec)
            else
              && flight.leader in s.callers && s.callers[flight.leader].key == s.callers[c].key
              && Enabled(s, NextOf(s, flight.leader), codec) && Mover(NextOf(s, flight.leader)) == Some(flight.leader)
  {
    assert JoinedCaller(s, s.callers[c]);
    var flight := s.flights[s.callers[c].phase.flight];
    if flight.outcome.None? {
      OthersGoOn(s, flight.leader, codec);
    }
  }

  // ---------------------------------------------------------------------
  // The layer object
  // ---------------------------------------------------------------------

  class CacheLayer {
    var backend: map<string, Bytes>
    var group: map<string, nat>
    var flights: seq<Flight>
    var callers: map<nat, Caller>
    ghost var loaded: set<(string, Bytes)>
    ghost var tainted: set<(string, Bytes)>
    const codec: Codec

    ghost function View(): Layer
      reads this
    {
      Layer(backend, group, flights, callers, loaded, tainted)
    }

    constructor (codec: Codec)
      ensures View() == INIT && this.codec == codec
    {
      this.codec := codec;
      backend, group, flights, callers := map[], map[], [], map[];
      loaded, tainted := {}, {};
    }

    /** Step 1 of GetOrLoad: the cache check. */
    method CheckCache(caller: nat, readError: bool)
      requires Enabled(View(), Check(caller, readError), codec)
      modifies this`callers
      ensures View() == Apply(old(View()), Check(caller, readError), codec)
    {
      var key := callers[caller].key;
      var phase := Missed;
      if readError {
        // falls through to the loader
      } else if key in backend {
        var cached := backend[key];
        if cached == EMPTY_MARKER {
          phase := Done(Value(""), None);
        } else {
          match codec.decode(cached)
          case None => phase := SawCorrupt;
          case Some(decoded) => phase := Done(Value(decoded), None);
        }
      }
      callers := callers[caller := Caller(key, phase)];
    }

    /** The layer goes on to load whether or not the backend could delete the entry. */
    method DeleteCorrupt(caller: nat, deleted: bool)
      requires Enabled(View(), DropCorrupt(caller, deleted), codec)
      modifies this`callers, this`backend
      ensures View() == Apply(old(View()), DropCorrupt(caller, deleted), codec)
    {
      var key := callers[caller].key;
      if deleted {
        backend := backend - {key};
      }
      callers := callers[caller := Caller(key, Missed)];
    }

    /** Entry into singleflight: join the running flight of the key or lead a new one. */
    method EnterGroup(caller: nat)
      requires Enabled(View(), Enter(caller), codec)
      modifies this`callers, this`group, this`flights
      ensures View() == Apply(old(View()), Enter(caller), codec)
    {
      var key := callers[caller].key;
      if key in group {
        callers := callers[caller := Caller(key, Waiting(group[key]))];
        return;
      }
      var f := |flights|;
      group := group[key := f];
      flights := flights + [Flight(key, caller, None, None)];
      callers := callers[caller := Caller(key, Loading(f))];
    }

    /** The leader's work after its loader returned a result. */
    method StoreResult(caller: nat, written: bool)
      requires Enabled(View(), Store(caller, written), codec)
      modifies this`callers, this`backend
      ensures View() == Apply(old(View()), Store(caller, written), codec)
    {
      var key, phase := callers[caller].key, callers[caller].phase;
      var result := phase.result;
      callers := callers[caller := Caller(key, Landing(phase.flight, Value(result)))];
      if |result| == 0 {
        if written {
          backend := backend[key := EMPTY_MARKER];
        }
        return;
      }
      match codec.encode(result)
      case None => return;
      case Some(encoded) =>
        if written {
          backend := backend[key := encoded];
        }
    }

    /** The end of a flight: its waiters are released and the key is free again. */
    method LandFlight(caller: nat)
      requires Enabled(View(), Land(caller), codec)
      modifies this`callers, this`group, this`flights
      ensures View() == Apply(old(View()), Land(caller), codec)
    {
      var key, phase := callers[caller].key, callers[caller].phase;
      flights := flights[phase.flight := flights[phase.flight].(outcome := Some(phase.outcome))];
      group := group - {key};
      callers := callers[caller := Caller(key, Done(phase.outcome, Some(phase.flight)))];
    }
  }
}
