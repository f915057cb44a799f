/**
 Any number of connection handlers running concurrently over one registry.

 A run is a sequence of actions, each one atomic step of one handler or of one driver task,
 in any order the guards allow. Drawing a session id and inserting into the map are separate
 steps, so another handler may run between them; an abort is a request that takes effect
 later. The insert and the abort of the session it replaces are one step: the code holds the
 map's lock on that name across both, so no reader of the map can tell them apart. Labels carry
 what the step reports: whether an insert replaced a session and whether an unregister removed
 one.
 */
module Sessions {
  import opened Wrappers
  import opened SessionMap
  import opened Counting

  type HandlerId = nat

  datatype Driver = Unspawned | Running | AbortRequested | Ended

  datatype Phase =
    | Accepted   // connection taken, first message not yet read
    | Rejected   // timed out, failed or sent a bad token
    | Greeted    // a successful AuthRes went out
    | Spawned    // the driver task exists
    | Refused    // reserved name: driver aborted, handler returned
    | Drawn      // has a session id, is not in the map
    | Entered    // entry is in the map, route file not yet written
    | Waiting    // awaits the end of its driver
    | Finished(removed: bool)

  datatype Handler = Handler(phase: Phase, driver: Driver, name: string, sessionId: nat)

  datatype State = State(handlers: seq<Handler>, clients: Clients, nextSession: u64)

  const Init: State := State([], map[], 1)

  datatype Action =
    | Accept
    | Reject(h: HandlerId)
    | Greet(h: HandlerId, name: string)
    | Spawn(h: HandlerId)
    | Refuse(h: HandlerId)
    | Draw(h: HandlerId)
    | Insert(h: HandlerId, name: string, replaced: bool)
    | WriteRoute(h: HandlerId, name: string, ok: bool)
    | DriverEnds(h: HandlerId)
    | Unregister(h: HandlerId, name: string, removed: bool)

  /** The session id is set and the handler has not returned. */
  predicate Registered(p: Phase) { p.Entered? || p.Waiting? }

  predicate HasSession(p: Phase) { p.Drawn? || Registered(p) || p.Finished? }

  predicate Done(p: Phase) { p.Rejected? || p.Refused? || p.Finished? }

  function EntryOf(s: State, h: HandlerId): Entry
    requires h < |s.handlers|
  {
    Entry(s.handlers[h].sessionId, h)
  }

  predicate Enabled(s: State, a: Action) {
    a.Accept? ||
    (a.h < |s.handlers| &&
     var me := s.handlers[a.h];
     match a
     case Reject(_) => me.phase.Accepted?
     case Greet(_, _) => me.phase.Accepted?
     case Spawn(_) => me.phase.Greeted?
     case Refuse(_) => me.phase.Spawned? && me.name in RESERVED
     case Draw(_) => me.phase.Spawned? && me.name !in RESERVED
     case Insert(_, name, replaced) => me.phase.Drawn? && name == me.name && replaced == (name in s.clients)
     case WriteRoute(_, name, _) => me.phase.Entered? && name == me.name
     case DriverEnds(_) => me.driver.Running? || me.driver.AbortRequested?
     case Unregister(_, name, removed) =>
       && me.phase.Waiting? && me.driver.Ended? && name == me.name
       && removed == Holds(s.clients, name, me.sessionId))
  }

  function Aborted(d: Driver): Driver {
    if d.Running? then AbortRequested else d
  }

  /** Abort the driver behind an entry's handle. */
  function AbortDriver(handlers: seq<Handler>, h: HandlerId): seq<Handler> {
    if h < |handlers| then handlers[h := handlers[h].(driver := Aborted(handlers[h].driver))] else handlers
  }

  function Step(s: State, a: Action): State
    requires Enabled(s, a)
  {
    if a.Accept? then s.(handlers := s.handlers + [Handler(Accepted, Unspawned, "", 0)])
    else
      var me := s.handlers[a.h];
      match a
      case Reject(h) => s.(handlers := s.handlers[h := me.(phase := Rejected)])
      case Greet(h, name) => s.(handlers := s.handlers[h := me.(phase := Greeted, name := name)])
      case Spawn(h) => s.(handlers := s.handlers[h := me.(phase := Spawned, driver := Running)])
      case Refuse(h) => s.(handlers := s.handlers[h := me.(phase := Refused, driver := Aborted(me.driver))])
      case Draw(h) =>
        s.(handlers := s.handlers[h := me.(phase := Drawn, sessionId := s.nextSession)],
           nextSession := Inc(s.nextSession))
      case Insert(h, name, replaced) =>
        var handlers := s.handlers[h := me.(phase := Entered)];
        s.(handlers := if replaced then AbortDriver(handlers, s.clients[name].driver) else handlers,
           clients := Inserted(s.clients, name, Entry(me.sessionId, h)))
      case WriteRoute(h, name, ok) =>
        s.(handlers := s.handlers[h := me.(phase := Waiting)])
      case DriverEnds(h) => s.(handlers := s.handlers[h := me.(driver := Ended)])
      case Unregister(h, name, removed) =>
        s.(handlers := s.handlers[h := me.(phase := Finished(removed))],
           clients := Removed(s.clients, name, me.sessionId))
  }

  /** The state a run reaches, or None if some step was not enabled. */
  function Run(t: seq<Action>): Option<State> {
    if t == [] then Some(Init)
    else
      var before := Run(t[..|t| - 1]);
      if before.Some? && Enabled(before.value, t[|t| - 1]) then Some(Step(before.value, t[|t| - 1])) else None
  }

  // ----- what can be read off a run alone -----

  function Draws(t: seq<Action>): nat { Count(t, (a: Action) => a.Draw?) }
  function Registrations(t: seq<Action>): nat { Count(t, (a: Action) => a.Insert?) }
  function Takeovers(t: seq<Action>): nat { Count(t, (a: Action) => a.Insert? && a.replaced) }
  function Removals(t: seq<Action>): nat { Count(t, (a: Action) => a.Unregister? && a.removed) }

  /** The most recent inserter of a name that has not unregistered itself. */
  function LastInserter(t: seq<Action>, name: string): Option<HandlerId> {
    if t == [] then None
    else
      var before, a := LastInserter(t[..|t| - 1], name), t[|t| - 1];
      if a.Insert? && a.name == name then Some(a.h)
      else if a.Unregister? && a.name == name && before == Some(a.h) then None
      else before
  }

  /** How often handler h was pushed out of the map by another insert. */
  function Evictions(t: seq<Action>, h: HandlerId): nat {
    if t == [] then 0
    else
      var a := t[|t| - 1];
      Evictions(t[..|t| - 1], h)
      + if a.Insert? && LastInserter(t[..|t| - 1], a.name) == Some(h) then 1 else 0
  }

  function SelfRemovals(t: seq<Action>, h: HandlerId): nat {
    Count(t, (a: Action) => a.Unregister? && a.h == h && a.removed)
  }

  // ----- invariant -----

  ghost predicate HandlerOk(s: State, n: nat, h: HandlerId)
    requires h < |s.handlers|
  {
    var me := s.handlers[h];
    && (me.driver.Unspawned? <==> me.phase.Accepted? || me.phase.Rejected? || me.phase.Greeted?)
    && (HasSession(me.phase) ==> 1 <= me.sessionId <= n && me.name !in RESERVED)
    && (me.phase.Refused? ==> me.name in RESERVED && !me.driver.Running?)
    && (me.phase.Spawned? || me.phase.Drawn? ==> !me.driver.AbortRequested?)
    && (me.phase.Finished? ==> me.driver.Ended?)
    && (Registered(me.phase) && me.driver.Running? ==>
          me.name in s.clients && s.clients[me.name] == Entry(me.sessionId, h))
  }

  ghost predicate EntryOk(s: State, name: string)
    requires name in s.clients
  {
    var e := s.clients[name];
    && e.driver < |s.handlers|
    && e == EntryOf(s, e.driver)
    && s.handlers[e.driver].name == name
    && Registered(s.handlers[e.driver].phase)
    && !s.handlers[e.driver].driver.AbortRequested?
  }

  /** n is the number of session ids drawn so far. */
  ghost predicate Inv(s: State, n: nat) {
    && s.nextSession == (n + 1) % U64
    && (forall h :: 0 <= h < |s.handlers| ==> HandlerOk(s, n, h))
    && (forall h, g :: 0 <= h < g < |s.handlers| && HasSession(s.handlers[h].phase) && HasSession(s.handlers[g].phase)
          ==> s.handlers[h].sessionId != s.handlers[g].sessionId)
    && (forall name :: name in s.clients ==> EntryOk(s, name))
  }

  function Bump(a: Action): nat { if a.Draw? then 1 else 0 }

  lemma InsertKeepsHandler(s: State, a: Action, n: nat, h: HandlerId)
    requires Inv(s, n) && Enabled(s, a) && a.Insert? && h < |s.handlers|
    ensures HandlerOk(Step(s, a), n, h)
  {
    assert HandlerOk(s, n, h);
    assert a.replaced ==> EntryOk(s, a.name);
  }

  lemma HandlerKept(s: State, a: Action, n: nat, h: HandlerId)
    requires Inv(s, n) && Enabled(s, a) && n + Bump(a) < U64
    requires h < |Step(s, a).handlers|
    ensures HandlerOk(Step(s, a), n + Bump(a), h)
  {
    if a.Insert? {
      InsertKeepsHandler(s, a, n, h);
    } else {
      assert h < |s.handlers| ==> HandlerOk(s, n, h);
    }
  }

  lemma SessionIdsKept(s: State, a: Action, n: nat, h: HandlerId, g: HandlerId)
    requires Inv(s, n) && Enabled(s, a) && n + Bump(a) < U64
    requires h < g < |Step(s, a).handlers|
    requires HasSession(Step(s, a).handlers[h].phase) && HasSession(Step(s, a).handlers[g].phase)
    ensures Step(s, a).handlers[h].sessionId != Step(s, a).handlers[g].sessionId
  {
    assert g < |s.handlers| ==> HandlerOk(s, n, h) && HandlerOk(s, n, g);
  }

  lemma EntryKept(s: State, a: Action, n: nat, name: string)
    requires Inv(s, n) && Enabled(s, a) && n + Bump(a) < U64
    requires name in Step(s, a).clients
    ensures EntryOk(Step(s, a), name)
  {
    assert name in s.clients ==> EntryOk(s, name);
    assert a.Insert? && a.replaced ==> EntryOk(s, a.name);
    if !a.Accept? {
      assert HandlerOk(s, n, a.h);
    }
  }

  lemma StepKeepsInv(s: State, a: Action, n: nat)
    requires Inv(s, n) && Enabled(s, a) && n + Bump(a) < U64
    ensures Inv(Step(s, a), n + Bump(a))
  {
    var s', n' := Step(s, a), n + Bump(a);
    forall h | 0 <= h < |s'.handlers| ensures HandlerOk(s', n', h) {
      HandlerKept(s, a, n, h);
    }
    forall h, g | 0 <= h < g < |s'.handlers| && HasSession(s'.handlers[h].phase) && HasSession(s'.handlers[g].phase)
      ensures s'.handlers[h].sessionId != s'.handlers[g].sessionId
    {
      SessionIdsKept(s, a, n, h, g);
    }
    forall name | name in s'.clients ensures EntryOk(s', name) {
      EntryKept(s, a, n, name);
    }
  }

  lemma {:induction false} ReachableInv(t: seq<Action>, s: State)
    requires Run(t) == Some(s) && Draws(t) < U64
    ensures Inv(s, Draws(t))
  {
    if t != [] {
      var before := Run(t[..|t| - 1]).value;
      ReachableInv(t[..|t| - 1], before);
      StepKeepsInv(before, t[|t| - 1], Draws(t[..|t| - 1]));
    }
  }

  // ----- main results -----

  predicate Live(s: State, h: HandlerId) {
    h < |s.handlers| && Registered(s.handlers[h].phase) && s.handlers[h].driver.Running?
  }

  predicate InMap(s: State, h: HandlerId) {
    h < |s.handlers| && s.handlers[h].name in s.clients && s.clients[s.handlers[h].name] == EntryOf(s, h)
  }

  /** In every interleaving the live registered sessions are exactly the map entries with a running driver. */
  lemma LiveSessionsAreTheMap(t: seq<Action>, s: State)
    requires Run(t) == Some(s) && Draws(t) < U64
    ensures forall h: HandlerId :: Live(s, h) <==> InMap(s, h) && s.handlers[h].driver.Running?
    ensures forall h: HandlerId, g: HandlerId ::
      Live(s, h) && Live(s, g) && s.handlers[h].name == s.handlers[g].name ==> h == g
    ensures forall name :: name in s.clients ==>
      && name !in RESERVED
      && InMap(s, s.clients[name].driver)
      && Registered(s.handlers[s.clients[name].driver].phase)
      && !s.handlers[s.clients[name].driver].driver.AbortRequested?
    ensures (forall h :: 0 <= h < |s.handlers| ==> Done(s.handlers[h].phase)) ==> s.clients == map[]
  {
    ReachableInv(t, s);
    var n := Draws(t);
    forall name | name in s.clients
      ensures EntryOk(s, name) && HandlerOk(s, n, s.clients[name].driver)
    {
    }
    forall h: HandlerId | InMap(s, h) ensures Registered(s.handlers[h].phase) {
      assert EntryOk(s, s.handlers[h].name);
    }
    forall h: HandlerId | Live(s, h) ensures InMap(s, h) {
      assert HandlerOk(s, n, h);
    }
    if forall h :: 0 <= h < |s.handlers| ==> Done(s.handlers[h].phase) {
      forall name ensures name !in s.clients {
      }
    }
  }

  lemma SessionIdsAreUnique(t: seq<Action>, s: State, h: HandlerId, g: HandlerId)
    requires Run(t) == Some(s) && Draws(t) < U64
    requires h < |s.handlers| && g < |s.handlers| && h != g
    requires HasSession(s.handlers[h].phase) && HasSession(s.handlers[g].phase)
    ensures s.handlers[h].sessionId != s.handlers[g].sessionId
  {
    ReachableInv(t, s);
  }

  /** The map is the function from each name to its last inserter that has not unregistered. */
  lemma {:induction false} LastInserterWins(t: seq<Action>, s: State, name: string)
    requires Run(t) == Some(s) && Draws(t) < U64
    ensures LastInserter(t, name) == if name in s.clients then Some(s.clients[name].driver) else None
  {
    if t != [] {
      var before, a := Run(t[..|t| - 1]).value, t[|t| - 1];
      LastInserterWins(t[..|t| - 1], before, name);
      ReachableInv(t[..|t| - 1], before);
      if a.Unregister? {
        assert HandlerOk(before, Draws(t[..|t| - 1]), a.h);
        assert name in before.clients ==> EntryOk(before, name);
      }
    }
  }

  lemma MapSizeStep(s: State, a: Action)
    requires Enabled(s, a)
    ensures |Step(s, a).clients| + (if a.Unregister? && a.removed then 1 else 0)
         == |s.clients| + if a.Insert? && !a.replaced then 1 else 0
  {
    var s' := Step(s, a);
    if a.Insert? {
      assert s'.clients.Keys == s.clients.Keys + {a.name};
    } else if a.Unregister? {
      assert s'.clients.Keys == if a.removed then s.clients.Keys - {a.name} else s.clients.Keys;
    }
  }

  /** Every successful registration is still in the map, was taken over, or unregistered itself. */
  lemma {:induction false} RegistrationsAreConserved(t: seq<Action>, s: State)
    requires Run(t) == Some(s)
    ensures Registrations(t) == |s.clients| + Takeovers(t) + Removals(t)
  {
    if t != [] {
      RegistrationsAreConserved(t[..|t| - 1], Run(t[..|t| - 1]).value);
      MapSizeStep(Run(t[..|t| - 1]).value, t[|t| - 1]);
    }
  }

  lemma {:induction false} UnknownHandlersLeaveNoTrace(t: seq<Action>, s: State, h: HandlerId)
    requires Run(t) == Some(s) && |s.handlers| <= h
    ensures Evictions(t, h) == 0 && SelfRemovals(t, h) == 0
    ensures forall name :: LastInserter(t, name) != Some(h)
  {
    if t != [] {
      UnknownHandlersLeaveNoTrace(t[..|t| - 1], Run(t[..|t| - 1]).value, h);
    }
  }

  lemma InsertOwnership(s: State, a: Action, n: nat, h: HandlerId)
    requires Inv(s, n) && Enabled(s, a) && a.Insert? && h < |s.handlers|
    ensures a.h == h ==> !InMap(s, h) && InMap(Step(s, a), h)
    ensures a.h != h ==> (InMap(Step(s, a), h) <==> InMap(s, h) && s.handlers[h].name != a.name)
  {
    assert s.handlers[h].name in s.clients ==> EntryOk(s, s.handlers[h].name);
    assert a.name in s.clients ==> EntryOk(s, a.name);
  }

  lemma OwnershipStep(s: State, a: Action, n: nat, h: HandlerId)
    requires Inv(s, n) && Enabled(s, a) && n + Bump(a) < U64 && h < |s.handlers| && !a.Insert?
    ensures a.Unregister? && a.h == h ==> a.removed == InMap(s, h) && !InMap(Step(s, a), h)
    ensures !(a.Unregister? && a.h == h) ==> (InMap(Step(s, a), h) <==> InMap(s, h))
  {
    assert HandlerOk(s, n, h);
    assert s.handlers[h].name in s.clients ==> EntryOk(s, s.handlers[h].name);
    if !a.Accept? {
      assert HandlerOk(s, n, a.h);
    }
  }

  lemma EvictedIffOwned(t: seq<Action>, s: State, name: string, h: HandlerId)
    requires Run(t) == Some(s) && Draws(t) < U64 && h < |s.handlers|
    ensures LastInserter(t, name) == Some(h) <==> InMap(s, h) && s.handlers[h].name == name
  {
    LastInserterWins(t, s, name);
    ReachableInv(t, s);
    assert name in s.clients ==> EntryOk(s, name);
  }

  /** Where a session stands: not yet entered, in the map, evicted or removed by itself. */
  ghost predicate Balanced(s: State, h: HandlerId, evictions: nat, removals: nat)
    requires h < |s.handlers|
  {
    var p := s.handlers[h].phase;
    && (if InMap(s, h) then 1 else 0) + evictions + removals == (if Registered(p) || p.Finished? then 1 else 0)
    && removals == (if p == Finished(true) then 1 else 0)
  }

  lemma BalanceStep(s: State, a: Action, n: nat, h: HandlerId, evictions: nat, removals: nat)
    requires Inv(s, n) && Enabled(s, a) && n + Bump(a) < U64 && h < |s.handlers|
    requires Balanced(s, h, evictions, removals)
    ensures Balanced(Step(s, a), h,
      evictions + (if a.Insert? && InMap(s, h) && s.handlers[h].name == a.name then 1 else 0),
      removals + if a.Unregister? && a.h == h && a.removed then 1 else 0)
  {
    if a.Insert? {
      InsertOwnership(s, a, n, h);
    } else {
      OwnershipStep(s, a, n, h);
    }
  }

  /** A session that entered the map leaves it exactly once, by eviction or by its own unregister. */
  lemma SessionsLeaveOnce(t: seq<Action>, s: State, h: HandlerId)
    requires Run(t) == Some(s) && Draws(t) < U64 && h < |s.handlers|
    ensures (if InMap(s, h) then 1 else 0) + Evictions(t, h) + SelfRemovals(t, h)
         == if Registered(s.handlers[h].phase) || s.handlers[h].phase.Finished? then 1 else 0
    ensures SelfRemovals(t, h) == if s.handlers[h].phase == Finished(true) then 1 else 0
    ensures s.handlers[h].phase.Finished? ==> (s.handlers[h].phase.removed <==> Evictions(t, h) == 0)
  {
    SessionsBalance(t, s, h);
    ReachableInv(t, s);
    assert s.handlers[h].name in s.clients ==> EntryOk(s, s.handlers[h].name);
  }

  lemma {:induction false} SessionsBalance(t: seq<Action>, s: State, h: HandlerId)
    requires Run(t) == Some(s) && Draws(t) < U64 && h < |s.handlers|
    ensures Balanced(s, h, Evictions(t, h), SelfRemovals(t, h))
  {
    var t0, a := t[..|t| - 1], t[|t| - 1];
    var before := Run(t0).value;
    if h < |before.handlers| {
      SessionsBalance(t0, before, h);
      ReachableInv(t0, before);
      BalanceStep(before, a, Draws(t0), h, Evictions(t0, h), SelfRemovals(t0, h));
      if a.Insert? {
        EvictedIffOwned(t0, before, a.name, h);
      }
    } else {
      UnknownHandlersLeaveNoTrace(t0, before, h);
      ReachableInv(t, s);
      assert s.handlers[h].name in s.clients ==> EntryOk(s, s.handlers[h].name);
    }
  }

  /**
   Only a takeover stops a registered session's driver from outside: while the handler is
   registered it has been evicted exactly when it is no longer the map's entry, a driver asked to
   stop belongs to an evicted session, and an evicted session's driver no longer runs freely.
   */
  lemma AbortedExactlyByTakeover(t: seq<Action>, s: State, h: HandlerId)
    requires Run(t) == Some(s) && Draws(t) < U64 && h < |s.handlers| && Registered(s.handlers[h].phase)
    ensures Evictions(t, h) == if InMap(s, h) then 0 else 1
    ensures s.handlers[h].driver.AbortRequested? ==> Evictions(t, h) == 1
    ensures Evictions(t, h) == 1 ==> s.handlers[h].driver.AbortRequested? || s.handlers[h].driver.Ended?
  {
    SessionsLeaveOnce(t, s, h);
    ReachableInv(t, s);
    assert HandlerOk(s, Draws(t), h);
    assert s.handlers[h].name in s.clients ==> EntryOk(s, s.handlers[h].name);
  }

  lemma RunExtends(t: seq<Action>, a: Action)
    requires Run(t).Some? && Enabled(Run(t).value, a)
    ensures Run(t + [a]) == Some(Step(Run(t).value, a))
  {
    assert (t + [a])[..|t|] == t;
  }

  function Newcomer(s: State, name: string): seq<Action> {
    var h := |s.handlers|;
    [Accept, Greet(h, name), Spawn(h), Draw(h), Insert(h, name, name in s.clients)]
  }

  /**
   No session can wedge a name: from every reachable state a newcomer with an unreserved name
   gets the map entry in five of its own steps, whatever the previous owner is doing, and the
   previous owner's running driver is asked to stop.
   */
  lemma NewcomerAlwaysTakesOver(t: seq<Action>, s: State, name: string)
    requires Run(t) == Some(s) && Draws(t) < U64 && name !in RESERVED
    ensures var s' := Run(t + Newcomer(s, name));
      && s'.Some?
      && s'.value.clients == s.clients[name := Entry(s.nextSession, |s.handlers|)]
      && Live(s'.value, |s.handlers|)
      && (name in s.clients ==> s.clients[name].driver < |s.handlers|)
      && s'.value.handlers ==
           (if name in s.clients then AbortDriver(s.handlers, s.clients[name].driver) else s.handlers)
           + [Handler(Entered, Running, name, s.nextSession)]
  {
    ReachableInv(t, s);
    assert name in s.clients ==> EntryOk(s, name);
    var u := Newcomer(s, name);
    NewcomerDraws(t, s, name);
    RunExtends(t + u[..4], u[4]);
    assert t + u[..4] + [u[4]] == t + u;
  }

  lemma NewcomerDraws(t: seq<Action>, s: State, name: string)
    requires Run(t) == Some(s) && name !in RESERVED
    ensures var s' := Run(t + Newcomer(s, name)[..4]);
      && s'.Some? && s'.value.clients == s.clients
      && s'.value.handlers == s.handlers + [Handler(Drawn, Running, name, s.nextSession)]
  {
    var u := Newcomer(s, name);
    NewcomerSpawns(t, s, name);
    RunExtends(t + u[..3], u[3]);
    assert t + u[..3] + [u[3]] == t + u[..4];
  }

  lemma NewcomerSpawns(t: seq<Action>, s: State, name: string)
    requires Run(t) == Some(s)
    ensures var s' := Run(t + Newcomer(s, name)[..3]);
      && s'.Some? && s'.value.(handlers := []) == s.(handlers := [])
      && s'.value.handlers == s.handlers + [Handler(Spawned, Running, name, 0)]
  {
    var u := Newcomer(s, name);
    RunExtends(t, u[0]);
    assert t + u[..1] == t + [u[0]];
    RunExtends(t + u[..1], u[1]);
    assert t + u[..1] + [u[1]] == t + u[..2];
    RunExtends(t + u[..2], u[2]);
    assert t + u[..2] + [u[2]] == t + u[..3];
  }

  /**
   No handler is stuck behind its driver: once that has ended a waiting handler can unregister, and
   what it then reports is whether its entry was still there. Its name is free afterwards only if so.
   */
  lemma WaitingHandlersCanLeave(t: seq<Action>, s: State, h: HandlerId)
    requires Run(t) == Some(s) && Draws(t) < U64
    requires h < |s.handlers| && s.handlers[h].phase.Waiting? && s.handlers[h].driver.Ended?
    ensures var name := s.handlers[h].name;
      var s' := Run(t + [Unregister(h, name, InMap(s, h))]);
      && s'.Some? && s'.value.handlers == s.handlers[h := s.handlers[h].(phase := Finished(InMap(s, h)))]
      && s'.value.clients == (if InMap(s, h) then s.clients - {name} else s.clients)
      && (InMap(s, h) <==> Evictions(t, h) == 0)
  {
    var name := s.handlers[h].name;
    ReachableInv(t, s);
    assert HandlerOk(s, Draws(t), h);
    assert name in s.clients ==> EntryOk(s, name);
    AbortedExactlyByTakeover(t, s, h);
    RunExtends(t, Unregister(h, name, InMap(s, h)));
  }

  /** From its insert on, a handler whose driver may end at any time. */
  function Leaves(h: HandlerId, name: string, removed: bool): seq<Action> {
    [WriteRoute(h, name, true), DriverEnds(h), Unregister(h, name, removed)]
  }

  lemma LeavingRun(t: seq<Action>, s: State, h: HandlerId)
    requires Run(t) == Some(s) && Draws(t) < U64 && h < |s.handlers| && s.handlers[h].phase.Entered?
    requires s.handlers[h].driver.Running? || s.handlers[h].driver.AbortRequested?
    ensures var name := s.handlers[h].name;
      var s' := Run(t + Leaves(h, name, InMap(s, h)));
      && s'.Some?
      && s'.value.handlers == s.handlers[h := s.handlers[h].(phase := Finished(InMap(s, h)), driver := Ended)]
      && s'.value.clients == (if InMap(s, h) then s.clients - {name} else s.clients)
  {
    var name := s.handlers[h].name;
    var u := Leaves(h, name, InMap(s, h));
    RunExtends(t, u[0]);
    RunExtends(t + [u[0]], u[1]);
    var s2 := Run(t + [u[0]] + [u[1]]).value;
    DrawsAppend(t, u[0]);
    DrawsAppend(t + [u[0]], u[1]);
    WaitingHandlersCanLeave(t + [u[0]] + [u[1]], s2, h);
    assert InMap(s2, h) == InMap(s, h);
    assert t + [u[0]] + [u[1]] + [u[2]] == t + u;
  }

  lemma DrawsAppend(t: seq<Action>, a: Action)
    ensures Draws(t + [a]) == Draws(t) + Bump(a)
  {
    CountAppend(t, a, (a: Action) => a.Draw?);
  }

  lemma DrawsOfNewcomer(t: seq<Action>, s: State, name: string)
    ensures Draws(t + Newcomer(s, name)) == Draws(t) + 1
  {
    var u := Newcomer(s, name);
    DrawsAppend(t, u[0]);
    DrawsAppend(t + [u[0]], u[1]);
    DrawsAppend(t + [u[0]] + [u[1]], u[2]);
    DrawsAppend(t + [u[0]] + [u[1]] + [u[2]], u[3]);
    DrawsAppend(t + [u[0]] + [u[1]] + [u[2]] + [u[3]], u[4]);
    assert t + [u[0]] + [u[1]] + [u[2]] + [u[3]] + [u[4]] == t + u;
  }

  /** Both results happen. From any reachable state, a newcomer left alone removes its own entry. */
  lemma NewcomerCanLeave(t: seq<Action>, s: State, name: string)
    requires Run(t) == Some(s) && Draws(t) + 1 < U64 && name !in RESERVED
    ensures var s' := Run(t + Newcomer(s, name) + Leaves(|s.handlers|, name, true));
      && s'.Some? && s'.value.clients == s.clients - {name}
      && |s'.value.handlers| == |s.handlers| + 1 && s'.value.handlers[|s.handlers|].phase == Finished(true)
  {
    NewcomerAlwaysTakesOver(t, s, name);
    DrawsOfNewcomer(t, s, name);
    LeavingRun(t + Newcomer(s, name), Run(t + Newcomer(s, name)).value, |s.handlers|);
  }

  /** And one whose name a newcomer took finds itself replaced, and leaves the newcomer alone. */
  lemma ReplacedHandlerCanLeave(t: seq<Action>, s: State, h: HandlerId)
    requires Run(t) == Some(s) && Draws(t) + 1 < U64
    requires InMap(s, h) && s.handlers[h].phase.Entered? && s.handlers[h].driver.Running?
    ensures var name := s.handlers[h].name;
      var s' := Run(t + Newcomer(s, name) + Leaves(h, name, false));
      && s'.Some? && s'.value.clients == s.clients[name := Entry(s.nextSession, |s.handlers|)]
      && h < |s'.value.handlers| && s'.value.handlers[h].phase == Finished(false)
  {
    var name := s.handlers[h].name;
    ReachableInv(t, s);
    assert HandlerOk(s, Draws(t), h);
    NewcomerAlwaysTakesOver(t, s, name);
    DrawsOfNewcomer(t, s, name);
    LeavingRun(t + Newcomer(s, name), Run(t + Newcomer(s, name)).value, h);
  }

  /** Two handlers race for one name: the one with the smaller session id inserts last and keeps it. */
  const RACE: seq<Action> :=
    [Accept, Accept, Greet(0, "app"), Greet(1, "app"), Spawn(0), Spawn(1),
     Draw(0), Draw(1), Insert(1, "app", false), Insert(0, "app", true)]

  lemma RaceStart()
    ensures Run(RACE[..4]).Some? && Run(RACE[..4]).value.(handlers := []) == Init
    ensures Run(RACE[..4]).value.handlers ==
      [Handler(Greeted, Unspawned, "app", 0), Handler(Greeted, Unspawned, "app", 0)]
  {
    RunExtends([], RACE[0]);
    assert [] + [RACE[0]] == RACE[..1];
    RunExtends(RACE[..1], RACE[1]);
    assert RACE[..1] + [RACE[1]] == RACE[..2];
    RunExtends(RACE[..2], RACE[2]);
    assert RACE[..2] + [RACE[2]] == RACE[..3];
    RunExtends(RACE[..3], RACE[3]);
    assert RACE[..3] + [RACE[3]] == RACE[..4];
  }

  lemma RaceDraws()
    ensures Run(RACE[..8]).Some? && Run(RACE[..8]).value.(handlers := []) == Init.(nextSession := 3)
    ensures Run(RACE[..8]).value.handlers == [Handler(Drawn, Running, "app", 1), Handler(Drawn, Running, "app", 2)]
  {
    RaceStart();
    RunExtends(RACE[..4], RACE[4]);
    assert RACE[..4] + [RACE[4]] == RACE[..5];
    RunExtends(RACE[..5], RACE[5]);
    assert RACE[..5] + [RACE[5]] == RACE[..6];
    RunExtends(RACE[..6], RACE[6]);
    assert RACE[..6] + [RACE[6]] == RACE[..7];
    RunExtends(RACE[..7], RACE[7]);
    assert RACE[..7] + [RACE[7]] == RACE[..8];
  }

  lemma SmallerSessionIdCanReplaceLarger()
    ensures Run(RACE[..9]).Some? && Run(RACE[..9]).value.clients == map["app" := Entry(2, 1)]
    ensures Run(RACE).Some? && Run(RACE).value.clients == map["app" := Entry(1, 0)]
  {
    RaceDraws();
    RunExtends(RACE[..8], RACE[8]);
    assert RACE[..8] + [RACE[8]] == RACE[..9];
    RunExtends(RACE[..9], RACE[9]);
    assert RACE[..9] + [RACE[9]] == RACE[..10];
    assert RACE[..10] == RACE;
  }

  /** A successful AuthRes does not imply registration: reserved names are told OK and then refused. */
  lemma ToldOkThenRefused(name: string)
    requires name in RESERVED
    ensures var s := Run([Accept, Greet(0, name), Spawn(0), Refuse(0)]);
      s.Some? && s.value.handlers == [Handler(Refused, AbortRequested, name, 0)] && s.value.clients == map[]
  {
    var t: seq<Action> := [Accept, Greet(0, name), Spawn(0), Refuse(0)];
    RunExtends([], t[0]);
    RunExtends(t[..1], t[1]);
    assert t[..1] + [t[1]] == t[..2];
    RunExtends(t[..2], t[2]);
    assert t[..2] + [t[2]] == t[..3];
    RunExtends(t[..3], t[3]);
    assert t[..3] + [t[3]] == t;
  }

  /** Past the spawn, exactly the reserved names are refused: no other handler ends so, no reserved one registers. */
  lemma RefusedIffReserved(t: seq<Action>, s: State, h: HandlerId)
    requires Run(t) == Some(s) && Draws(t) < U64 && h < |s.handlers|
    requires s.handlers[h].phase.Refused? || HasSession(s.handlers[h].phase)
    ensures s.handlers[h].phase.Refused? <==> s.handlers[h].name in RESERVED
    ensures s.handlers[h].phase.Refused? ==> !InMap(s, h) && !s.handlers[h].driver.Running?
  {
    ReachableInv(t, s);
    assert HandlerOk(s, Draws(t), h);
    assert s.handlers[h].name in s.clients ==> EntryOk(s, s.handlers[h].name);
  }
}
