/**
 The gauges and counters of proxied requests, with any number of requests in flight at once
 and sessions being replaced underneath them.

 Every counter update is one atomic step. A request keeps the session record it looked up, so
 after a takeover it goes on counting on the record of the session that was replaced. Counters
 wrap at 64 bits; handlers run to completion.
 */
module Accounting {
  import opened Wrappers
  import opened Counting

  type SessionIndex = nat

  /** Where a request is once it has been counted as active. */
  datatype Stage = Opening | Marking | Handshaking | Building | Sending

  datatype Outcome =
    | Unrouted | RateLimited | NotFound
    | OpenFailed | MarkerFailed | HandshakeFailed | BuildFailed | SendFailed | Served

  datatype Phase =
    | Arrived
    | Counted                              // total_requests incremented
    | Routed(name: string)
    | Limiting                             // refused by the limiter, not yet counted as such
    | Permitted(name: string)
    | Found(e: SessionIndex)
    | Tallied(e: SessionIndex)             // the session's requests incremented
    | Streaming(e: SessionIndex)           // its active_streams incremented
    | Active(e: SessionIndex, stage: Stage) // active_connections incremented
    | Leaving(e: SessionIndex, outcome: Outcome) // active_streams decremented
    | Done(outcome: Outcome, session: Option<SessionIndex>)

  /** Counters of one session record; records outlive their place in the map. */
  datatype Record = Record(requests: u64, streams: u64, supportsHeartbeat: bool)

  datatype State = State(
    requests: seq<Phase>,
    records: seq<Record>,
    current: map<string, SessionIndex>,
    total: u64,
    limited: u64,
    connections: u64)

  const Init: State := State([], [], map[], 0, 0, 0)

  datatype Action =
    | Arrive
    | CountTotal(r: nat)
    | Route(r: nat, found: Option<string>)
    | Check(r: nat, allowed: bool)
    | CountLimited(r: nat)
    | Lookup(r: nat)
    | Tally(r: nat)
    | OpenStream(r: nat)
    | Connect(r: nat)
    | Proceed(r: nat)
    | Fail(r: nat)
    | Respond(r: nat)
    | Leave(r: nat)
    | Register(name: string, supportsHeartbeat: bool)
    | Unregister(name: string)

  /** The stage after a success; the marker is written only for clients that know markers. */
  function After(stage: Stage, marked: bool): Stage {
    match stage
    case Opening => if marked then Marking else Handshaking
    case Marking => Handshaking
    case Handshaking => Building
    case Building => Sending
    case Sending => Sending
  }

  function FailureAt(stage: Stage): Outcome {
    match stage
    case Opening => OpenFailed
    case Marking => MarkerFailed
    case Handshaking => HandshakeFailed
    case Building => BuildFailed
    case Sending => SendFailed
  }

  predicate Enabled(s: State, a: Action) {
    if a.Arrive? || a.Register? then true
    else if a.Unregister? then a.name in s.current
    else
      a.r < |s.requests| &&
      var p := s.requests[a.r];
      match a
      case CountTotal(_) => p.Arrived?
      case Route(_, _) => p.Counted?
      case Check(_, _) => p.Routed?
      case CountLimited(_) => p.Limiting?
      case Lookup(_) => p.Permitted?
      case Tally(_) => p.Found? && p.e < |s.records|
      case OpenStream(_) => p.Tallied? && p.e < |s.records|
      case Connect(_) => p.Streaming?
      case Proceed(_) => p.Active? && p.stage != Sending && p.e < |s.records|
      case Fail(_) => p.Active? && p.e < |s.records|
      case Respond(_) => p.Active? && p.stage == Sending && p.e < |s.records|
      case Leave(_) => p.Leaving?
  }

  function At(s: State, r: nat, p: Phase): State
    requires r < |s.requests|
  {
    s.(requests := s.requests[r := p])
  }

  function Recorded(s: State, e: SessionIndex, m: Record): State
    requires e < |s.records|
  {
    s.(records := s.records[e := m])
  }

  function EndActive(s: State, r: nat, outcome: Outcome): State
    requires r < |s.requests| && s.requests[r].Active? && s.requests[r].e < |s.records|
  {
    var e := s.requests[r].e;
    Recorded(At(s, r, Leaving(e, outcome)), e, s.records[e].(streams := Dec(s.records[e].streams)))
  }

  function Step(s: State, a: Action): State
    requires Enabled(s, a)
  {
    match a
    case Arrive => s.(requests := s.requests + [Arrived])
    case CountTotal(r) => At(s, r, Counted).(total := Inc(s.total))
    case Route(r, found) => At(s, r, if found.Some? then Routed(found.value) else Done(Unrouted, None))
    case Check(r, allowed) => At(s, r, if allowed then Permitted(s.requests[r].name) else Limiting)
    case CountLimited(r) => At(s, r, Done(RateLimited, None)).(limited := Inc(s.limited))
    case Lookup(r) =>
      var name := s.requests[r].name;
      At(s, r, if name in s.current then Found(s.current[name]) else Done(NotFound, None))
    case Tally(r) =>
      var e := s.requests[r].e;
      Recorded(At(s, r, Tallied(e)), e, s.records[e].(requests := Inc(s.records[e].requests)))
    case OpenStream(r) =>
      var e := s.requests[r].e;
      Recorded(At(s, r, Streaming(e)), e, s.records[e].(streams := Inc(s.records[e].streams)))
    case Connect(r) => At(s, r, Active(s.requests[r].e, Opening)).(connections := Inc(s.connections))
    case Proceed(r) =>
      var e := s.requests[r].e;
      At(s, r, Active(e, After(s.requests[r].stage, s.records[e].supportsHeartbeat)))
    case Fail(r) => EndActive(s, r, FailureAt(s.requests[r].stage))
    case Respond(r) => EndActive(s, r, Served)
    case Leave(r) =>
      At(s, r, Done(s.requests[r].outcome, Some(s.requests[r].e))).(connections := Dec(s.connections))
    case Register(name, hb) =>
      s.(records := s.records + [Record(0, 0, hb)], current := s.current[name := |s.records|])
    case Unregister(name) => s.(current := s.current - {name})
  }

  function Run(t: seq<Action>): Option<State> {
    if t == [] then Some(Init)
    else
      var before := Run(t[..|t| - 1]);
      if before.Some? && Enabled(before.value, t[|t| - 1]) then Some(Step(before.value, t[|t| - 1])) else None
  }

  // ----- counting requests -----

  function SessionOf(p: Phase): Option<SessionIndex> {
    match p
    case Found(e) => Some(e)
    case Tallied(e) => Some(e)
    case Streaming(e) => Some(e)
    case Active(e, _) => Some(e)
    case Leaving(e, _) => Some(e)
    case Done(_, e) => e
    case _ => None
  }

  predicate HoldsStream(p: Phase) { p.Streaming? || p.Active? }
  predicate HoldsConnection(p: Phase) { p.Active? || p.Leaving? }
  predicate HoldsTally(p: Phase) { SessionOf(p).Some? && !p.Found? }
  predicate IsCounted(p: Phase) { !p.Arrived? }
  predicate IsLimited(p: Phase) { p.Done? && p.outcome.RateLimited? }

  function StreamOn(e: SessionIndex): Phase -> bool { p => HoldsStream(p) && SessionOf(p) == Some(e) }
  function TallyOn(e: SessionIndex): Phase -> bool { p => HoldsTally(p) && SessionOf(p) == Some(e) }

  // ----- invariant -----

  ghost predicate RecordOk(s: State, e: SessionIndex)
    requires e < |s.records|
  {
    && s.records[e].streams == Count(s.requests, StreamOn(e))
    && s.records[e].requests == Count(s.requests, TallyOn(e))
  }

  ghost predicate Inv(s: State) {
    && (forall e :: 0 <= e < |s.records| ==> RecordOk(s, e))
    && s.connections == Count(s.requests, HoldsConnection)
    && s.total == Count(s.requests, IsCounted)
    && s.limited == Count(s.requests, IsLimited)
    && (forall r :: 0 <= r < |s.requests| ==> ShapeOk(s, s.requests[r]))
    && (forall name :: name in s.current ==> s.current[name] < |s.records|)
  }

  /** Indices are in range, and only requests that reached a session end with one. */
  ghost predicate ShapeOk(s: State, p: Phase) {
    && (SessionOf(p).Some? ==> SessionOf(p).value < |s.records|)
    && (p.Done? ==> (p.session.None? <==> p.outcome.Unrouted? || p.outcome.RateLimited? || p.outcome.NotFound?))
    && (p.Leaving? ==> !p.outcome.Unrouted? && !p.outcome.RateLimited? && !p.outcome.NotFound?)
  }

  /** How a wrapping counter must move when one request starts or stops satisfying its test. */
  function Shift(x: u64, before: bool, after: bool): u64 {
    if before == after then x else if after then Inc(x) else Dec(x)
  }

  lemma ShiftTracks(ps: seq<Phase>, r: nat, p: Phase, f: Phase -> bool, x: u64)
    requires r < |ps| < U64 && x == Count(ps, f)
    ensures Shift(x, f(ps[r]), f(p)) == Count(ps[r := p], f)
  {
    CountUpdate(ps, r, p, f);
    CountBounded(ps[r := p], f);
  }

  /** One request moves from phase `p` to `p'` and every counter follows. */
  ghost predicate Moves(s: State, s': State, r: nat, p': Phase) {
    && r < |s.requests| && s'.requests == s.requests[r := p']
    && |s'.records| == |s.records| && s'.current == s.current
    && s'.connections == Shift(s.connections, HoldsConnection(s.requests[r]), HoldsConnection(p'))
    && s'.total == Shift(s.total, IsCounted(s.requests[r]), IsCounted(p'))
    && s'.limited == Shift(s.limited, IsLimited(s.requests[r]), IsLimited(p'))
    && (forall e :: 0 <= e < |s.records| ==>
          && s'.records[e].streams == Shift(s.records[e].streams, StreamOn(e)(s.requests[r]), StreamOn(e)(p'))
          && s'.records[e].requests == Shift(s.records[e].requests, TallyOn(e)(s.requests[r]), TallyOn(e)(p')))
  }

  lemma MoveKeepsInv(s: State, s': State, r: nat, p': Phase)
    requires Inv(s) && |s.requests| < U64 && Moves(s, s', r, p') && ShapeOk(s, p')
    ensures Inv(s')
  {
    ShiftTracks(s.requests, r, p', HoldsConnection, s.connections);
    ShiftTracks(s.requests, r, p', IsCounted, s.total);
    ShiftTracks(s.requests, r, p', IsLimited, s.limited);
    forall e | 0 <= e < |s'.records| ensures RecordOk(s', e) {
      assert RecordOk(s, e);
      ShiftTracks(s.requests, r, p', StreamOn(e), s.records[e].streams);
      ShiftTracks(s.requests, r, p', TallyOn(e), s.records[e].requests);
    }
  }

  /** Steps that count on a session record. */
  lemma TallyMoves(s: State, a: Action)
    requires Inv(s) && Enabled(s, a) && (a.Tally? || a.OpenStream?)
    ensures var s' := Step(s, a);
      a.r < |s'.requests| && Moves(s, s', a.r, s'.requests[a.r]) && ShapeOk(s, s'.requests[a.r])
  {
    assert ShapeOk(s, s.requests[a.r]);
  }

  lemma EndMoves(s: State, a: Action)
    requires Inv(s) && Enabled(s, a) && (a.Fail? || a.Respond?)
    ensures var s' := Step(s, a);
      a.r < |s'.requests| && Moves(s, s', a.r, s'.requests[a.r]) && ShapeOk(s, s'.requests[a.r])
  {
    assert ShapeOk(s, s.requests[a.r]);
  }

  lemma ConnectionMoves(s: State, a: Action)
    requires Inv(s) && Enabled(s, a) && (a.Connect? || a.Proceed? || a.Leave?)
    ensures var s' := Step(s, a);
      a.r < |s'.requests| && Moves(s, s', a.r, s'.requests[a.r]) && ShapeOk(s, s'.requests[a.r])
  {
    assert ShapeOk(s, s.requests[a.r]);
  }

  /** Steps before a session is involved. */
  lemma ClassifyMoves(s: State, a: Action)
    requires Inv(s) && Enabled(s, a) && (a.CountTotal? || a.Route? || a.Check? || a.CountLimited? || a.Lookup?)
    ensures var s' := Step(s, a);
      a.r < |s'.requests| && Moves(s, s', a.r, s'.requests[a.r]) && ShapeOk(s, s'.requests[a.r])
  {
    assert ShapeOk(s, s.requests[a.r]);
  }

  lemma ArriveKeepsInv(s: State)
    requires Inv(s)
    ensures Inv(Step(s, Arrive))
  {
    var s' := Step(s, Arrive);
    CountAppend(s.requests, Arrived, HoldsConnection);
    CountAppend(s.requests, Arrived, IsCounted);
    CountAppend(s.requests, Arrived, IsLimited);
    forall e | 0 <= e < |s'.records| ensures RecordOk(s', e) {
      assert RecordOk(s, e);
      CountAppend(s.requests, Arrived, StreamOn(e));
      CountAppend(s.requests, Arrived, TallyOn(e));
    }
  }

  lemma RegisterKeepsInv(s: State, name: string, hb: bool)
    requires Inv(s)
    ensures Inv(Step(s, Register(name, hb)))
  {
    var s' := Step(s, Register(name, hb));
    forall e | 0 <= e < |s'.records| ensures RecordOk(s', e) {
      if e < |s.records| {
        assert RecordOk(s, e);
      } else {
        forall r | 0 <= r < |s.requests| ensures !StreamOn(e)(s.requests[r]) && !TallyOn(e)(s.requests[r]) {
          assert ShapeOk(s, s.requests[r]);
        }
        CountNone(s.requests, StreamOn(e));
        CountNone(s.requests, TallyOn(e));
      }
    }
    forall r | 0 <= r < |s'.requests| ensures ShapeOk(s', s'.requests[r]) {
      assert ShapeOk(s, s.requests[r]);
    }
  }

  lemma RequestActionMoves(s: State, a: Action)
    requires Inv(s) && Enabled(s, a) && !a.Arrive? && !a.Register? && !a.Unregister?
    ensures var s' := Step(s, a);
      a.r < |s'.requests| && Moves(s, s', a.r, s'.requests[a.r]) && ShapeOk(s, s'.requests[a.r])
  {
    match a
    case Tally(_) | OpenStream(_) => TallyMoves(s, a);
    case Fail(_) | Respond(_) => EndMoves(s, a);
    case Connect(_) | Proceed(_) | Leave(_) => ConnectionMoves(s, a);
    case _ => ClassifyMoves(s, a);
  }

  lemma UnregisterKeepsInv(s: State, name: string)
    requires Inv(s) && name in s.current
    ensures Inv(Step(s, Unregister(name)))
  {
    forall e | 0 <= e < |s.records| ensures RecordOk(Step(s, Unregister(name)), e) {
      assert RecordOk(s, e);
    }
  }

  lemma StepKeepsInv(s: State, a: Action)
    requires Inv(s) && Enabled(s, a) && |Step(s, a).requests| < U64
    ensures Inv(Step(s, a))
  {
    match a
    case Arrive => ArriveKeepsInv(s);
    case Register(name, hb) => RegisterKeepsInv(s, name, hb);
    case Unregister(name) => UnregisterKeepsInv(s, name);
    case _ =>
      RequestActionMoves(s, a);
      MoveKeepsInv(s, Step(s, a), a.r, Step(s, a).requests[a.r]);
  }

  lemma {:induction false} ReachableInv(t: seq<Action>, s: State)
    requires Run(t) == Some(s) && |s.requests| < U64
    ensures Inv(s)
  {
    if t != [] {
      ReachableInv(t[..|t| - 1], Run(t[..|t| - 1]).value);
      StepKeepsInv(Run(t[..|t| - 1]).value, t[|t| - 1]);
    }
  }

  // ----- what the run alone says about each request -----

  function Registrations(t: seq<Action>): nat { Count(t, (a: Action) => a.Register?) }

  /** The session that registered a name last, unless it was unregistered since. */
  function CurrentSession(t: seq<Action>, name: string): Option<SessionIndex> {
    if t == [] then None
    else
      var rest, a := t[..|t| - 1], t[|t| - 1];
      if a.Register? && a.name == name then Some(Registrations(rest))
      else if a == Unregister(name) then None
      else CurrentSession(rest, name)
  }

  /** How a request was routed, if it was. */
  function RouteOf(t: seq<Action>, r: nat): Option<Option<string>> {
    if t == [] then None
    else
      var a := t[|t| - 1];
      if a.Route? && a.r == r then Some(a.found) else RouteOf(t[..|t| - 1], r)
  }

  /** What the limiter said to a request, if it was asked. */
  function VerdictOn(t: seq<Action>, r: nat): Option<bool> {
    if t == [] then None
    else
      var a := t[|t| - 1];
      if a.Check? && a.r == r then Some(a.allowed) else VerdictOn(t[..|t| - 1], r)
  }

  /** What a request found: the session its name had when it looked. */
  function FoundBy(t: seq<Action>, r: nat): Option<Option<SessionIndex>> {
    if t == [] then None
    else
      var rest, a := t[..|t| - 1], t[|t| - 1];
      if a == Lookup(r) then
        var route := RouteOf(rest, r);
        Some(if route.Some? && route.value.Some? then CurrentSession(rest, route.value.value) else None)
      else FoundBy(rest, r)
  }

  lemma CurrentStep(s: State, a: Action, name: string)
    requires Enabled(s, a)
    ensures var s' := Step(s, a);
      && |s'.records| == |s.records| + (if a.Register? then 1 else 0)
      && (a.Register? && a.name == name ==> name in s'.current && s'.current[name] == |s.records|)
      && (a == Unregister(name) ==> name !in s'.current)
      && (!(a.Register? && a.name == name) && a != Unregister(name) ==>
            (name in s'.current <==> name in s.current)
            && (name in s.current ==> s'.current[name] == s.current[name]))
  {
  }

  lemma {:induction false} CurrentFollowsRun(t: seq<Action>, s: State, name: string)
    requires Run(t) == Some(s)
    ensures |s.records| == Registrations(t)
    ensures CurrentSession(t, name) == if name in s.current then Some(s.current[name]) else None
  {
    if t != [] {
      CurrentFollowsRun(t[..|t| - 1], Run(t[..|t| - 1]).value, name);
      CurrentStep(Run(t[..|t| - 1]).value, t[|t| - 1], name);
    }
  }

  /** A request's phase says what was said to it and what it found. */
  ghost predicate Told(
      p: Phase, route: Option<Option<string>>, verdict: Option<bool>, found: Option<Option<SessionIndex>>)
  {
    && (p.Arrived? || p.Counted? <==> route == None)
    && (EndedAs(p, Unrouted) <==> route == Some(None))
    && (p.Routed? || p.Permitted? ==> route == Some(Some(p.name)))
    && (verdict.Some? ==> route.Some? && route.value.Some?)
    && (p.Limiting? || EndedAs(p, RateLimited) <==> verdict == Some(false))
    && (p.Routed? <==> verdict == None && route.Some? && route.value.Some?)
    && (p.Permitted? <==> verdict == Some(true) && found == None)
    && (EndedAs(p, NotFound) <==> found == Some(None))
    && SessionOf(p) == (if found.Some? then found.value else None)
    && (found.Some? ==> verdict == Some(true))
  }

  lemma ToldStep(s: State, a: Action, r: nat, route: Option<Option<string>>, verdict: Option<bool>,
                 found: Option<Option<SessionIndex>>, current: Option<SessionIndex>)
    requires Enabled(s, a) && r < |s.requests| && ShapeOk(s, s.requests[r])
    requires Told(s.requests[r], route, verdict, found)
    requires s.requests[r].Permitted? ==>
      var name := s.requests[r].name;
      current == if name in s.current then Some(s.current[name]) else None
    ensures r < |Step(s, a).requests|
    ensures Told(Step(s, a).requests[r],
      if a.Route? && a.r == r then Some(a.found) else route,
      if a.Check? && a.r == r then Some(a.allowed) else verdict,
      if a == Lookup(r) then Some(current) else found)
  {
  }

  /**
   Which class a request falls into and which session it counts on, read off the run: it is rate
   limited exactly when the limiter said so, unrouted exactly when its host gave no name, and the
   session it found, counts on and ends with is the last one to have registered its name, at the
   time it looked, that had not unregistered.
   */
  lemma {:induction false} RequestsFollowTheRun(t: seq<Action>, s: State, r: nat)
    requires Run(t) == Some(s) && |s.requests| < U64 && r < |s.requests|
    ensures Told(s.requests[r], RouteOf(t, r), VerdictOn(t, r), FoundBy(t, r))
  {
    var rest, before, a := t[..|t| - 1], Run(t[..|t| - 1]).value, t[|t| - 1];
    if r < |before.requests| {
      RequestsFollowTheRun(rest, before, r);
      ReachableInv(rest, before);
      var route := RouteOf(rest, r);
      var current := if route.Some? && route.value.Some? then CurrentSession(rest, route.value.value) else None;
      if before.requests[r].Permitted? {
        CurrentFollowsRun(rest, before, before.requests[r].name);
      }
      ToldStep(before, a, r, route, VerdictOn(rest, r), FoundBy(rest, r), current);
    } else {
      NothingToldBeforeArrival(rest, before, r);
    }
  }

  lemma {:induction false} NothingToldBeforeArrival(t: seq<Action>, s: State, r: nat)
    requires Run(t) == Some(s) && |s.requests| <= r
    ensures RouteOf(t, r) == None && VerdictOn(t, r) == None && FoundBy(t, r) == None
  {
    if t != [] {
      NothingToldBeforeArrival(t[..|t| - 1], Run(t[..|t| - 1]).value, r);
    }
  }

  /** The stages of a request, in order; the marker is written only for clients that know markers. */
  function Stages(marked: bool): seq<Stage> {
    [Opening] + (if marked then [Marking] else []) + [Handshaking, Building, Sending]
  }

  function StagesPassed(t: seq<Action>, r: nat): nat { Count(t, (a: Action) => a == Proceed(r)) }

  /** A request that failed stopped at the stage it had got to; one that was served had got to the last. */
  predicate StoppedAt(o: Outcome, stages: seq<Stage>, n: nat) {
    && n < |stages|
    && (o == Served ==> n == |stages| - 1)
    && (o != Served ==> o == FailureAt(stages[n]))
  }

  ghost predicate Passed(s: State, p: Phase, n: nat) {
    if SessionOf(p).None? then n == 0
    else
      SessionOf(p).value < |s.records| &&
      var stages := Stages(s.records[SessionOf(p).value].supportsHeartbeat);
      match p
      case Active(_, stage) => n < |stages| && stage == stages[n]
      case Leaving(_, o) => StoppedAt(o, stages, n)
      case Done(o, _) => StoppedAt(o, stages, n)
      case _ => n == 0
  }

  lemma ProceedPasses(s: State, a: Action, n: nat)
    requires Enabled(s, a) && (a.Proceed? || a.Fail? || a.Respond?) && Passed(s, s.requests[a.r], n)
    ensures Passed(Step(s, a), Step(s, a).requests[a.r], n + if a.Proceed? then 1 else 0)
  {
  }

  /** No step changes what a session record was registered with. */
  lemma SupportStays(s: State, a: Action, e: SessionIndex)
    requires Enabled(s, a) && e < |s.records|
    ensures e < |Step(s, a).records| && Step(s, a).records[e].supportsHeartbeat == s.records[e].supportsHeartbeat
  {
  }

  /** The step is request r's own. */
  predicate IsStepOf(a: Action, r: nat) { !a.Arrive? && !a.Register? && !a.Unregister? && a.r == r }

  lemma OthersStay(s: State, a: Action, r: nat)
    requires Enabled(s, a) && r < |s.requests| && !IsStepOf(a, r)
    ensures r < |Step(s, a).requests| && Step(s, a).requests[r] == s.requests[r]
  {
  }

  lemma ClassifyPasses(s: State, a: Action, n: nat)
    requires Enabled(s, a) && (a.CountTotal? || a.Route? || a.Check? || a.CountLimited? || a.Lookup?)
    requires Passed(s, s.requests[a.r], n) && forall name :: name in s.current ==> s.current[name] < |s.records|
    ensures Passed(Step(s, a), Step(s, a).requests[a.r], n)
  {
  }

  lemma TallyPasses(s: State, a: Action, n: nat)
    requires Enabled(s, a) && (a.Tally? || a.OpenStream? || a.Connect? || a.Leave?) && Passed(s, s.requests[a.r], n)
    ensures Passed(Step(s, a), Step(s, a).requests[a.r], n)
  {
  }

  lemma PassedStep(s: State, a: Action, r: nat, n: nat)
    requires Enabled(s, a) && r < |s.requests| && Passed(s, s.requests[r], n)
    requires forall name :: name in s.current ==> s.current[name] < |s.records|
    ensures r < |Step(s, a).requests|
    ensures Passed(Step(s, a), Step(s, a).requests[r], n + if a == Proceed(r) then 1 else 0)
  {
    if !IsStepOf(a, r) {
      OthersStay(s, a, r);
      if SessionOf(s.requests[r]).Some? {
        SupportStays(s, a, SessionOf(s.requests[r]).value);
      }
    } else if a.Proceed? || a.Fail? || a.Respond? {
      ProceedPasses(s, a, n);
    } else if a.Tally? || a.OpenStream? || a.Connect? || a.Leave? {
      TallyPasses(s, a, n);
    } else {
      ClassifyPasses(s, a, n);
    }
  }

  /**
   No stage is skipped or repeated: a request with a session stands at, or stopped at, the stage
   its steps so far lead to, and it was served only after all of them.
   */
  lemma {:induction false} StagesFollowTheRun(t: seq<Action>, s: State, r: nat)
    requires Run(t) == Some(s) && |s.requests| < U64 && r < |s.requests|
    ensures Passed(s, s.requests[r], StagesPassed(t, r))
  {
    var rest, before, a := t[..|t| - 1], Run(t[..|t| - 1]).value, t[|t| - 1];
    if r < |before.requests| {
      StagesFollowTheRun(rest, before, r);
      ReachableInv(rest, before);
      PassedStep(before, a, r, StagesPassed(rest, r));
    } else {
      NoStagesBeforeArrival(rest, before, r);
    }
  }

  lemma {:induction false} NoStagesBeforeArrival(t: seq<Action>, s: State, r: nat)
    requires Run(t) == Some(s) && |s.requests| <= r
    ensures StagesPassed(t, r) == 0
  {
    if t != [] {
      NoStagesBeforeArrival(t[..|t| - 1], Run(t[..|t| - 1]).value, r);
    }
  }

  // ----- every outcome can happen -----

  lemma RunExtends(t: seq<Action>, a: Action)
    requires Run(t).Some? && Enabled(Run(t).value, a)
    ensures Run(t + [a]) == Some(Step(Run(t).value, a))
  {
    assert (t + [a])[..|t|] == t;
  }

  /** Only one more request, standing at `p`, tells s' from s; sessions and names are as they were. */
  ghost predicate Joined(s: State, s': State, p: Phase) {
    && s'.requests == s.requests + [p] && s'.current == s.current && |s'.records| == |s.records|
    && forall e :: 0 <= e < |s.records| ==> s'.records[e].supportsHeartbeat == s.records[e].supportsHeartbeat
  }

  /** The steps of a request up to the limiter's answer. */
  function Asking(r: nat, name: string, allowed: bool): seq<Action> {
    [Arrive, CountTotal(r), Route(r, Some(name)), Check(r, allowed)]
  }

  lemma AskingRun(t: seq<Action>, s: State, name: string, allowed: bool)
    requires Run(t) == Some(s)
    ensures var s' := Run(t + Asking(|s.requests|, name, allowed));
      s'.Some? && Joined(s, s'.value, if allowed then Permitted(name) else Limiting)
  {
    var u := Asking(|s.requests|, name, allowed);
    RunExtends(t, u[0]);
    RunExtends(t + [u[0]], u[1]);
    RunExtends(t + [u[0]] + [u[1]], u[2]);
    RunExtends(t + [u[0]] + [u[1]] + [u[2]], u[3]);
    assert t + [u[0]] + [u[1]] + [u[2]] + [u[3]] == t + u;
  }

  /** From the limiter's yes to being active, for a name that has a session. */
  function Joining(r: nat): seq<Action> { [Lookup(r), Tally(r), OpenStream(r), Connect(r)] }

  lemma JoiningRun(t: seq<Action>, s: State, s1: State, name: string)
    requires Run(t) == Some(s1) && Joined(s, s1, Permitted(name))
    requires name in s.current && s.current[name] < |s.records|
    ensures var s' := Run(t + Joining(|s.requests|));
      s'.Some? && Joined(s, s'.value, Active(s.current[name], Opening))
  {
    var u := Joining(|s.requests|);
    RunExtends(t, u[0]);
    RunExtends(t + [u[0]], u[1]);
    RunExtends(t + [u[0]] + [u[1]], u[2]);
    RunExtends(t + [u[0]] + [u[1]] + [u[2]], u[3]);
    assert t + [u[0]] + [u[1]] + [u[2]] + [u[3]] == t + u;
  }

  lemma BecomesActive(t: seq<Action>, s: State, name: string) returns (u: seq<Action>, s': State)
    requires Run(t) == Some(s) && name in s.current && s.current[name] < |s.records|
    ensures Run(t + u) == Some(s') && Joined(s, s', Active(s.current[name], Opening))
  {
    var r := |s.requests|;
    AskingRun(t, s, name, true);
    var t1 := t + Asking(r, name, true);
    JoiningRun(t1, s, Run(t1).value, name);
    u, s' := Asking(r, name, true) + Joining(r), Run(t1 + Joining(r)).value;
    assert t1 + Joining(r) == t + u;
  }

  lemma NextStage(s: State, s1: State, e: SessionIndex, n: nat)
    requires e < |s.records| && n + 1 < |Stages(s.records[e].supportsHeartbeat)|
    requires Joined(s, s1, Active(e, Stages(s.records[e].supportsHeartbeat)[n]))
    ensures var a := Proceed(|s.requests|);
      Enabled(s1, a) && Joined(s, Step(s1, a), Active(e, Stages(s.records[e].supportsHeartbeat)[n + 1]))
  {
  }

  /** The stages of a newcomer to a name that has a session. */
  function StagesOf(s: State, name: string): seq<Stage>
    requires name in s.current && s.current[name] < |s.records|
  {
    Stages(s.records[s.current[name]].supportsHeartbeat)
  }

  lemma {:induction false} ReachesStage(t: seq<Action>, s: State, name: string, n: nat)
    returns (u: seq<Action>, s': State)
    requires Run(t) == Some(s) && name in s.current && s.current[name] < |s.records| && n < |StagesOf(s, name)|
    ensures Run(t + u) == Some(s') && Joined(s, s', Active(s.current[name], StagesOf(s, name)[n]))
  {
    if n == 0 {
      u, s' := BecomesActive(t, s, name);
    } else {
      var u1, s1 := ReachesStage(t, s, name, n - 1);
      var a := Proceed(|s.requests|);
      NextStage(s, s1, s.current[name], n - 1);
      RunExtends(t + u1, a);
      u, s' := u1 + [a], Step(s1, a);
      assert t + u1 + [a] == t + u;
    }
  }

  function EndAt(stage: Stage, served: bool): Outcome { if served then Served else FailureAt(stage) }

  lemma Ends(t: seq<Action>, u1: seq<Action>, s: State, s1: State, e: SessionIndex, stage: Stage, served: bool)
    returns (u: seq<Action>, s': State)
    requires Run(t + u1) == Some(s1) && e < |s.records| && Joined(s, s1, Active(e, stage))
    requires served ==> stage == Sending
    ensures Run(t + u) == Some(s') && Joined(s, s', Done(EndAt(stage, served), Some(e)))
  {
    var r := |s.requests|;
    var a := if served then Respond(r) else Fail(r);
    RunExtends(t + u1, a);
    RunExtends(t + u1 + [a], Leave(r));
    u, s' := u1 + [a] + [Leave(r)], Run(t + u1 + [a] + [Leave(r)]).value;
    assert t + u1 + [a] + [Leave(r)] == t + u;
  }

  /**
   From every reachable state, whatever other requests are doing: a newcomer to a name that has a
   session can be served by it, and can fail at each of the stages.
   */
  lemma AnyStageCanEnd(t: seq<Action>, s: State, name: string, n: nat, served: bool)
    returns (u: seq<Action>, s': State)
    requires Run(t) == Some(s) && name in s.current && s.current[name] < |s.records|
    requires n < |StagesOf(s, name)| && (served ==> n == |StagesOf(s, name)| - 1)
    ensures Run(t + u) == Some(s')
    ensures Joined(s, s', Done(EndAt(StagesOf(s, name)[n], served), Some(s.current[name])))
  {
    var u1, s1 := ReachesStage(t, s, name, n);
    u, s' := Ends(t, u1, s, s1, s.current[name], StagesOf(s, name)[n], served);
  }

  /** The first visitor of the first session can already be served. */
  lemma FirstVisitorCanBeServed(name: string, heartbeat: bool)
    ensures exists t, s :: Run(t) == Some(s) && s.requests == [Done(Served, Some(0))]
  {
    RunExtends([], Register(name, heartbeat));
    var t := [] + [Register(name, heartbeat)];
    var s := Run(t).value;
    var u, s' := AnyStageCanEnd(t, s, name, |Stages(heartbeat)| - 1, true);
    assert Run(t + u) == Some(s') && s'.requests == [] + [Done(Served, Some(0))];
  }

  /** The other exits can happen too: refused by the limiter, no such name, and no name at all. */
  lemma EarlyExitsCanHappen(t: seq<Action>, s: State, name: string)
    requires Run(t) == Some(s)
    ensures var r := |s.requests|;
      && (var s' := Run(t + Asking(r, name, false) + [CountLimited(r)]);
          s'.Some? && Joined(s, s'.value, Done(RateLimited, None)))
      && (name !in s.current ==>
          var s' := Run(t + Asking(r, name, true) + [Lookup(r)]);
          s'.Some? && Joined(s, s'.value, Done(NotFound, None)))
      && (var s' := Run(t + [Arrive] + [CountTotal(r)] + [Route(r, None)]);
          s'.Some? && Joined(s, s'.value, Done(Unrouted, None)))
  {
    var r := |s.requests|;
    AskingRun(t, s, name, false);
    RunExtends(t + Asking(r, name, false), CountLimited(r));
    if name !in s.current {
      AskingRun(t, s, name, true);
      RunExtends(t + Asking(r, name, true), Lookup(r));
    }
    RunExtends(t, Arrive);
    RunExtends(t + [Arrive], CountTotal(r));
    RunExtends(t + [Arrive] + [CountTotal(r)], Route(r, None));
  }

  // ----- summing over records, replaced ones included -----

  function StreamsOver(records: seq<Record>): nat {
    if records == [] then 0 else StreamsOver(records[..|records| - 1]) + records[|records| - 1].streams
  }

  function RequestsOver(records: seq<Record>): nat {
    if records == [] then 0 else RequestsOver(records[..|records| - 1]) + records[|records| - 1].requests
  }

  function Below(g: SessionIndex -> Phase -> bool, n: nat): Phase -> bool {
    p => SessionOf(p).Some? && SessionOf(p).value < n && g(SessionOf(p).value)(p)
  }

  lemma {:induction false} SumsAreCount(ps: seq<Phase>, records: seq<Record>)
    requires forall e :: 0 <= e < |records| ==>
      records[e].streams == Count(ps, StreamOn(e)) && records[e].requests == Count(ps, TallyOn(e))
    ensures StreamsOver(records) == Count(ps, Below(StreamOn, |records|))
    ensures RequestsOver(records) == Count(ps, Below(TallyOn, |records|))
  {
    var n := |records| - 1;
    if records == [] {
      forall r | 0 <= r < |ps| ensures !Below(StreamOn, 0)(ps[r]) && !Below(TallyOn, 0)(ps[r]) {
        assert SessionOf(ps[r]).Some? ==> SessionOf(ps[r]).value >= 0;
      }
      CountNone(ps, Below(StreamOn, 0));
      CountNone(ps, Below(TallyOn, 0));
    } else {
      SumsAreCount(ps, records[..n]);
      CountSplit(ps, Below(StreamOn, n), StreamOn(n), Below(StreamOn, n + 1));
      CountSplit(ps, Below(TallyOn, n), TallyOn(n), Below(TallyOn, n + 1));
    }
  }

  // ----- main results -----

  function Requests(s: State, f: Phase -> bool): nat { Count(s.requests, f) }

  /**
   active_connections and the sum of active_streams over every session record ever created
   differ only by the requests that are between their two updates.
   */
  lemma GaugesAgree(t: seq<Action>, s: State)
    requires Run(t) == Some(s) && |s.requests| < U64
    ensures StreamsOver(s.records) == Requests(s, (p: Phase) => p.Streaming?) + Requests(s, (p: Phase) => p.Active?)
    ensures s.connections == Requests(s, (p: Phase) => p.Active?) + Requests(s, (p: Phase) => p.Leaving?)
  {
    ReachableInv(t, s);
    forall e | 0 <= e < |s.records|
      ensures s.records[e].streams == Count(s.requests, StreamOn(e))
      ensures s.records[e].requests == Count(s.requests, TallyOn(e))
    {
      assert RecordOk(s, e);
    }
    SumsAreCount(s.requests, s.records);
    CountAgree(s.requests, Below(StreamOn, |s.records|), HoldsStream);
    CountSplit(s.requests, (p: Phase) => p.Streaming?, (p: Phase) => p.Active?, HoldsStream);
    CountSplit(s.requests, (p: Phase) => p.Active?, (p: Phase) => p.Leaving?, HoldsConnection);
  }

  /** Between counter updates both gauges equal the requests in flight; when all have finished both are zero. */
  lemma GaugesCountRequestsInFlight(t: seq<Action>, s: State)
    requires Run(t) == Some(s) && |s.requests| < U64
    requires forall r :: 0 <= r < |s.requests| ==> !s.requests[r].Streaming? && !s.requests[r].Leaving?
    ensures s.connections == StreamsOver(s.records) == Requests(s, (p: Phase) => p.Active?)
    ensures (forall r :: 0 <= r < |s.requests| ==> s.requests[r].Done?) ==>
      s.connections == 0 && forall e :: 0 <= e < |s.records| ==> s.records[e].streams == 0
  {
    GaugesAgree(t, s);
    CountNone(s.requests, (p: Phase) => p.Streaming?);
    CountNone(s.requests, (p: Phase) => p.Leaving?);
    if forall r :: 0 <= r < |s.requests| ==> s.requests[r].Done? {
      CountNone(s.requests, (p: Phase) => p.Active?);
      ReachableInv(t, s);
      forall e | 0 <= e < |s.records| ensures s.records[e].streams == 0 {
        assert RecordOk(s, e);
        CountNone(s.requests, StreamOn(e));
      }
    }
  }

  /** No decrement ever takes a gauge below zero: the wrapping subtraction is a plain one. */
  lemma NoUnderflow(t: seq<Action>, s: State, a: Action)
    requires Run(t) == Some(s) && |s.requests| < U64 && Enabled(s, a)
    ensures a.Fail? || a.Respond? ==> s.records[s.requests[a.r].e].streams >= 1
    ensures a.Leave? ==> s.connections >= 1
  {
    ReachableInv(t, s);
    if a.Fail? || a.Respond? {
      var e := s.requests[a.r].e;
      assert RecordOk(s, e);
      CountUpdate(s.requests, a.r, Arrived, StreamOn(e));
    } else if a.Leave? {
      CountUpdate(s.requests, a.r, Arrived, HoldsConnection);
    }
  }

  /** Not yet refused, found missing or tallied. */
  predicate Unclassified(p: Phase) { p.Counted? || p.Routed? || p.Permitted? || p.Found? }
  predicate EndedAs(p: Phase, o: Outcome) { p.Done? && p.outcome == o }

  /** Every counted request is in exactly one class, and the per-session tallies are one of the classes. */
  lemma RequestsAreConserved(t: seq<Action>, s: State)
    requires Run(t) == Some(s) && |s.requests| < U64
    ensures s.total
         == Requests(s, (p: Phase) => EndedAs(p, Unrouted))
          + (s.limited + Requests(s, (p: Phase) => p.Limiting?))
          + Requests(s, (p: Phase) => EndedAs(p, NotFound))
          + RequestsOver(s.records)
          + Requests(s, Unclassified)
  {
    ReachableInv(t, s);
    forall e | 0 <= e < |s.records|
      ensures s.records[e].streams == Count(s.requests, StreamOn(e))
      ensures s.records[e].requests == Count(s.requests, TallyOn(e))
    {
      assert RecordOk(s, e);
    }
    SumsAreCount(s.requests, s.records);
    CountAgree(s.requests, Below(TallyOn, |s.records|), HoldsTally);
    Classes(s);
  }

  lemma {:induction false} Classes(s: State)
    requires forall r :: 0 <= r < |s.requests| ==> ShapeOk(s, s.requests[r])
    ensures Count(s.requests, IsCounted)
         == Count(s.requests, (p: Phase) => EndedAs(p, Unrouted))
          + (Count(s.requests, IsLimited) + Count(s.requests, (p: Phase) => p.Limiting?))
          + Count(s.requests, (p: Phase) => EndedAs(p, NotFound))
          + Count(s.requests, HoldsTally)
          + Count(s.requests, Unclassified)
    decreases |s.requests|
  {
    if s.requests != [] {
      var n := |s.requests| - 1;
      Classes(s.(requests := s.requests[..n]));
      assert ShapeOk(s, s.requests[n]);
    }
  }
}
