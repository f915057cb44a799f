/**
 The handlers and the drivers they own, run together.

 In `Sessions` a driver is a flag and in `DriverModel` aborts and dropped handles come out of
 nowhere. Here every spawned handler owns a whole driver loop: an abort is requested only by a
 registration that replaces the entry or by a refusal, the handler's handle is dropped only when
 the handler returns, and a driver ends, for its handler, when its loop does.
 */
module Lifecycles {
  import opened Wrappers
  import opened SessionMap
  import Sessions
  import DriverModel

  type HandlerId = Sessions.HandlerId

  datatype World = World(server: Sessions.State, drivers: map<HandlerId, DriverModel.State>)

  const Init: World := World(Sessions.Init, map[])

  datatype Action =
    | Handle(step: Sessions.Action)                  // a handler's own step
    | Spawn(h: HandlerId, heartbeat: bool)           // a handler starts its driver
    | Drive(h: HandlerId, event: DriverModel.Event)  // the driver's loop, or the tasks around it

  /** Something happens to a driver, if it can. */
  function Delivered(drivers: map<HandlerId, DriverModel.State>, h: HandlerId, e: DriverModel.Event)
    : map<HandlerId, DriverModel.State>
  {
    if h in drivers && DriverModel.Enabled(drivers[h], e)
    then drivers[h := DriverModel.Step(drivers[h], e)] else drivers
  }

  /** What a handler's step does to drivers. */
  function DriversAfter(w: World, step: Sessions.Action): map<HandlerId, DriverModel.State> {
    match step
    case Insert(_, name, _) =>
      if name in w.server.clients
      then Delivered(w.drivers, w.server.clients[name].driver, DriverModel.RequestAbort) else w.drivers
    case Refuse(h) => Delivered(Delivered(w.drivers, h, DriverModel.RequestAbort), h, DriverModel.OwnerDrops)
    case Unregister(h, _, _) => Delivered(w.drivers, h, DriverModel.OwnerDrops)
    case _ => w.drivers
  }

  /** The event takes the driver out of its loop. */
  predicate Ends(d: DriverModel.State, e: DriverModel.Event)
    requires DriverModel.Enabled(d, e)
  {
    d.loop.ending.None? && DriverModel.Step(d, e).loop.ending.Some?
  }

  predicate Enabled(w: World, a: Action) {
    match a
    case Handle(step) => !step.Spawn? && !step.DriverEnds? && Sessions.Enabled(w.server, step)
    case Spawn(h, _) => Sessions.Enabled(w.server, Sessions.Spawn(h))
    case Drive(h, e) =>
      && h in w.drivers && !e.RequestAbort? && !e.OwnerDrops?
      && DriverModel.Enabled(w.drivers[h], e)
      && (Ends(w.drivers[h], e) ==> Sessions.Enabled(w.server, Sessions.DriverEnds(h)))
  }

  /** What the step is to the handlers; most driver events are nothing. */
  function ServerSteps(w: World, a: Action): seq<Sessions.Action>
    requires Enabled(w, a)
  {
    match a
    case Handle(step) => [step]
    case Spawn(h, _) => [Sessions.Spawn(h)]
    case Drive(h, e) => if Ends(w.drivers[h], e) then [Sessions.DriverEnds(h)] else []
  }

  function Step(w: World, a: Action): World
    requires Enabled(w, a)
  {
    World(
      if ServerSteps(w, a) == [] then w.server else Sessions.Step(w.server, ServerSteps(w, a)[0]),
      match a
      case Handle(step) => DriversAfter(w, step)
      case Spawn(h, heartbeat) => w.drivers[h := DriverModel.Start(DriverModel.Mode(heartbeat))]
      case Drive(h, e) => w.drivers[h := DriverModel.Step(w.drivers[h], e)])
  }

  function Run(t: seq<Action>): Option<World> {
    if t == [] then Some(Init)
    else
      var before := Run(t[..|t| - 1]);
      if before.Some? && Enabled(before.value, t[|t| - 1]) then Some(Step(before.value, t[|t| - 1])) else None
  }

  /** The handlers' side of a run. */
  function ServerTrace(t: seq<Action>): seq<Sessions.Action>
    requires Run(t).Some?
  {
    if t == [] then []
    else ServerTrace(t[..|t| - 1]) + ServerSteps(Run(t[..|t| - 1]).value, t[|t| - 1])
  }

  // ----- both sides are the runs proved about elsewhere -----

  lemma StepOfServer(w: World, a: Action)
    requires Enabled(w, a)
    ensures var steps := ServerSteps(w, a);
      if steps == [] then Step(w, a).server == w.server
      else
        && steps == [steps[0]] && Sessions.Enabled(w.server, steps[0])
        && Step(w, a).server == Sessions.Step(w.server, steps[0])
  {
  }

  lemma {:induction false} ServerFollows(t: seq<Action>, w: World)
    requires Run(t) == Some(w)
    ensures Sessions.Run(ServerTrace(t)) == Some(w.server)
  {
    if t != [] {
      var rest, before := t[..|t| - 1], Run(t[..|t| - 1]).value;
      ServerFollows(rest, before);
      var steps := ServerSteps(before, t[|t| - 1]);
      StepOfServer(before, t[|t| - 1]);
      if steps == [] {
        assert ServerTrace(rest) + steps == ServerTrace(rest);
      } else {
        Sessions.RunExtends(ServerTrace(rest), steps[0]);
      }
    }
  }

  ghost predicate Follows(d: DriverModel.State, u: seq<DriverModel.Event>) {
    DriverModel.Run(d.mode, u) == Some(d)
  }

  ghost predicate RunsLoop(d: DriverModel.State) {
    exists u :: Follows(d, u)
  }

  lemma LoopKeepsInv(d: DriverModel.State)
    requires RunsLoop(d)
    ensures DriverModel.Inv(d)
  {
    var u :| Follows(d, u);
    DriverModel.ReachableInv(d.mode, u, d);
  }

  lemma DeliveredRunsLoop(drivers: map<HandlerId, DriverModel.State>, g: HandlerId, e: DriverModel.Event, h: HandlerId)
    requires h in drivers && RunsLoop(drivers[h])
    ensures h in Delivered(drivers, g, e) && RunsLoop(Delivered(drivers, g, e)[h])
  {
    if g == h && DriverModel.Enabled(drivers[h], e) {
      var u :| Follows(drivers[h], u);
      DriverModel.RunExtends(drivers[h].mode, u, e);
      assert Follows(DriverModel.Step(drivers[h], e), u + [e]);
    }
  }

  /** Every driver in a world is somewhere in a run of the select loop, so all results about those runs hold of it. */
  lemma {:induction false} DriversRunTheLoop(t: seq<Action>, w: World, h: HandlerId)
    requires Run(t) == Some(w) && h in w.drivers
    ensures RunsLoop(w.drivers[h]) && DriverModel.Inv(w.drivers[h])
  {
    var before, a := Run(t[..|t| - 1]).value, t[|t| - 1];
    if a.Spawn? && a.h == h {
      assert Follows(w.drivers[h], []);
    } else {
      DriversRunTheLoop(t[..|t| - 1], before, h);
      match a
      case Drive(g, e) => DeliveredRunsLoop(before.drivers, g, e, h);
      case Handle(step) =>
        match step {
          case Insert(_, name, _) =>
            if name in before.server.clients {
              DeliveredRunsLoop(before.drivers, before.server.clients[name].driver, DriverModel.RequestAbort, h);
            }
          case Refuse(g) =>
            DeliveredRunsLoop(before.drivers, g, DriverModel.RequestAbort, h);
            DeliveredRunsLoop(Delivered(before.drivers, g, DriverModel.RequestAbort), g, DriverModel.OwnerDrops, h);
          case Unregister(g, _, _) => DeliveredRunsLoop(before.drivers, g, DriverModel.OwnerDrops, h);
          case _ =>
        }
      case Spawn(_, _) =>
    }
    LoopKeepsInv(w.drivers[h]);
  }

  // ----- invariant -----

  /** A handler and its driver agree; `evictions` counts how often the session was pushed out of the map. */
  ghost predicate Fits(me: Sessions.Handler, driver: Option<DriverModel.State>, evictions: nat) {
    && (driver.None? <==> me.driver.Unspawned?)
    && (driver.Some? ==>
          var d := driver.value;
          && (me.driver.Ended? <==> d.loop.ending.Some?)
          && (me.driver.AbortRequested? ==> d.env.abortRequested)
          && (me.driver.Running? ==> !d.env.abortRequested)
          && (d.env.abortRequested <==> me.phase.Refused? || evictions > 0)
          && (d.env.ownerHandle <==> !Sessions.Done(me.phase))
          && (d.loop.ending == Some(DriverModel.HandlesGone) ==> me.phase.Refused?))
  }

  function DriverOf(w: World, h: HandlerId): Option<DriverModel.State> {
    if h in w.drivers then Some(w.drivers[h]) else None
  }

  ghost predicate Coupled(w: World, h: HandlerId, evictions: nat)
    requires h < |w.server.handlers|
  {
    Fits(w.server.handlers[h], DriverOf(w, h), evictions)
  }

  /** Drivers belong to handlers, and each is in a state the select loop can be in. */
  ghost predicate Owned(w: World) {
    forall h :: h in w.drivers ==> h < |w.server.handlers| && DriverModel.Inv(w.drivers[h])
  }

  /** The step pushes h out of the map. */
  predicate Evicts(s: Sessions.State, step: Sessions.Action, h: HandlerId) {
    step.Insert? && step.name in s.clients && s.clients[step.name].driver == h
  }

  function EvictionsBy(w: World, a: Action, h: HandlerId): nat {
    if a.Handle? && Evicts(w.server, a.step, h) then 1 else 0
  }

  // ----- what a step is to one handler -----

  predicate Own(step: Sessions.Action, h: HandlerId) { !step.Accept? && step.h == h }

  lemma HandlerAfter(s: Sessions.State, step: Sessions.Action, n: nat, h: HandlerId)
    requires Sessions.Inv(s, n) && Sessions.Enabled(s, step) && h < |s.handlers|
    ensures h < |Sessions.Step(s, step).handlers|
    ensures var me, me' := s.handlers[h], Sessions.Step(s, step).handlers[h];
      && me'.driver == (
           if step.Spawn? && Own(step, h) then Sessions.Running
           else if step.DriverEnds? && Own(step, h) then Sessions.Ended
           else if Evicts(s, step, h) || (step.Refuse? && Own(step, h)) then Sessions.Aborted(me.driver)
           else me.driver)
      && me'.phase.Refused? == (me.phase.Refused? || (step.Refuse? && Own(step, h)))
      && Sessions.Done(me'.phase)
           == (Sessions.Done(me.phase) || (Own(step, h) && (step.Reject? || step.Refuse? || step.Unregister?)))
  {
    assert Sessions.HandlerOk(s, n, h);
    assert step.Insert? && step.name in s.clients ==> Sessions.EntryOk(s, step.name);
  }

  // ----- what a step is to one driver -----

  function Asked(d: DriverModel.State): DriverModel.State { d.(env := d.env.(abortRequested := true)) }

  function Dropped(d: DriverModel.State): DriverModel.State { d.(env := d.env.(ownerHandle := false)) }

  function AfterHandle(d: DriverModel.State, step: Sessions.Action, h: HandlerId, evicts: bool): DriverModel.State {
    if evicts then Asked(d)
    else if step.Refuse? && step.h == h then Dropped(Asked(d))
    else if step.Unregister? && step.h == h then Dropped(d)
    else d
  }

  lemma DeliveredTo(drivers: map<HandlerId, DriverModel.State>, g: HandlerId, h: HandlerId)
    requires h in drivers
    ensures h in Delivered(drivers, g, DriverModel.RequestAbort) && h in Delivered(drivers, g, DriverModel.OwnerDrops)
    ensures Delivered(drivers, g, DriverModel.RequestAbort)[h] == if g == h then Asked(drivers[h]) else drivers[h]
    ensures Delivered(drivers, g, DriverModel.OwnerDrops)[h] == if g == h then Dropped(drivers[h]) else drivers[h]
  {
  }

  lemma DriverAfterHandle(w: World, step: Sessions.Action, h: HandlerId)
    requires h in w.drivers
    ensures h in DriversAfter(w, step)
    ensures DriversAfter(w, step)[h] == AfterHandle(w.drivers[h], step, h, Evicts(w.server, step, h))
  {
    match step
    case Insert(_, name, _) =>
      if name in w.server.clients {
        DeliveredTo(w.drivers, w.server.clients[name].driver, h);
      }
    case Refuse(g) =>
      DeliveredTo(w.drivers, g, h);
      DeliveredTo(Delivered(w.drivers, g, DriverModel.RequestAbort), g, h);
    case Unregister(g, _, _) => DeliveredTo(w.drivers, g, h);
    case _ =>
  }

  lemma HandleMakesNoDrivers(w: World, step: Sessions.Action, h: HandlerId)
    requires h !in w.drivers
    ensures h !in DriversAfter(w, step)
  {
  }

  /** The loop's own events neither request aborts nor drop the handler's handle. */
  lemma DriverStays(d: DriverModel.State, e: DriverModel.Event)
    requires DriverModel.Inv(d) && DriverModel.Enabled(d, e) && !e.RequestAbort? && !e.OwnerDrops?
    ensures var d' := DriverModel.Step(d, e);
      && d'.env.abortRequested == d.env.abortRequested && d'.env.ownerHandle == d.env.ownerHandle
      && (d.loop.ending.Some? ==> d'.loop.ending == d.loop.ending)
      && (d'.loop.ending == Some(DriverModel.HandlesGone) && d.loop.ending.None? ==> !d.env.ownerHandle)
  {
  }

  lemma StepOfHandle(w: World, step: Sessions.Action)
    requires Enabled(w, Handle(step))
    ensures Step(w, Handle(step)) == World(Sessions.Step(w.server, step), DriversAfter(w, step))
  {
  }

  lemma HandlersAfter(s: Sessions.State, step: Sessions.Action)
    requires Sessions.Enabled(s, step)
    ensures |Sessions.Step(s, step).handlers| == |s.handlers| + if step.Accept? then 1 else 0
    ensures step.Accept? ==> Sessions.Step(s, step).handlers[|s.handlers|].driver.Unspawned?
  {
  }

  /** Handlers appear by being accepted, drivers by being spawned. */
  lemma WhoAppears(w: World, a: Action, h: HandlerId)
    requires Enabled(w, a)
    ensures |Step(w, a).server.handlers| == |w.server.handlers| + if a == Handle(Sessions.Accept) then 1 else 0
    ensures h in Step(w, a).drivers && h !in w.drivers ==> h < |w.server.handlers|
  {
    match a
    case Handle(step) =>
      StepOfHandle(w, step);
      HandlersAfter(w.server, step);
      if h !in w.drivers {
        HandleMakesNoDrivers(w, step, h);
      }
    case Spawn(g, _) => HandlersAfter(w.server, Sessions.Spawn(g));
    case Drive(g, e) =>
      if Ends(w.drivers[g], e) {
        HandlersAfter(w.server, Sessions.DriverEnds(g));
      }
  }

  // ----- every step keeps them together -----

  lemma HandleKeepsFit(w: World, step: Sessions.Action, n: nat, h: HandlerId, evictions: nat)
    requires Sessions.Inv(w.server, n) && Sessions.Enabled(w.server, step) && !step.Spawn? && !step.DriverEnds?
    requires h < |w.server.handlers| && Coupled(w, h, evictions)
    ensures h < |Sessions.Step(w.server, step).handlers|
    ensures var w' := World(Sessions.Step(w.server, step), DriversAfter(w, step));
      Coupled(w', h, evictions + if Evicts(w.server, step, h) then 1 else 0)
  {
    assert Sessions.HandlerOk(w.server, n, h);
    HandlerAfter(w.server, step, n, h);
    if h in w.drivers {
      DriverAfterHandle(w, step, h);
    } else {
      HandleMakesNoDrivers(w, step, h);
    }
  }

  ghost predicate CoupledAfter(w: World, a: Action, h: HandlerId, evictions: nat)
    requires Enabled(w, a)
  {
    h < |Step(w, a).server.handlers| && Coupled(Step(w, a), h, evictions + EvictionsBy(w, a, h))
  }

  lemma HandleKeepsCoupled(w: World, a: Action, n: nat, h: HandlerId, evictions: nat)
    requires Sessions.Inv(w.server, n) && Enabled(w, a) && a.Handle?
    requires h < |w.server.handlers| && Coupled(w, h, evictions)
    ensures CoupledAfter(w, a, h, evictions)
  {
    StepOfHandle(w, a.step);
    HandleKeepsFit(w, a.step, n, h, evictions);
  }

  /** The handler hears of its driver only when the loop ends. */
  function Hears(me: Sessions.Handler, ended: bool): Sessions.Handler {
    if ended then me.(driver := Sessions.Ended) else me
  }

  lemma DriveFits(me: Sessions.Handler, d: DriverModel.State, e: DriverModel.Event, evictions: nat)
    requires DriverModel.Inv(d) && DriverModel.Enabled(d, e) && !e.RequestAbort? && !e.OwnerDrops?
    requires Fits(me, Some(d), evictions)
    requires Sessions.Done(me.phase) && !me.driver.Ended? ==> me.phase.Refused?
    ensures Fits(Hears(me, Ends(d, e)), Some(DriverModel.Step(d, e)), evictions)
  {
    DriverStays(d, e);
  }

  lemma StepOfDrive(w: World, a: Action, h: HandlerId)
    requires Enabled(w, a) && a.Drive? && h < |w.server.handlers|
    ensures h < |Step(w, a).server.handlers|
    ensures var ended := a.h == h && Ends(w.drivers[a.h], a.event);
      Step(w, a).server.handlers[h] == Hears(w.server.handlers[h], ended)
    ensures Step(w, a).drivers == w.drivers[a.h := DriverModel.Step(w.drivers[a.h], a.event)]
  {
  }

  lemma DriveKeepsCoupled(w: World, a: Action, n: nat, h: HandlerId, evictions: nat)
    requires Sessions.Inv(w.server, n) && Owned(w) && Enabled(w, a) && a.Drive?
    requires h < |w.server.handlers| && Coupled(w, h, evictions)
    ensures CoupledAfter(w, a, h, evictions)
  {
    assert Sessions.HandlerOk(w.server, n, h);
    StepOfDrive(w, a, h);
    if a.h == h {
      DriveFits(w.server.handlers[h], w.drivers[h], a.event, evictions);
    }
  }

  lemma SpawnKeepsCoupled(w: World, a: Action, n: nat, h: HandlerId, evictions: nat)
    requires Sessions.Inv(w.server, n) && Enabled(w, a) && a.Spawn?
    requires h < |w.server.handlers| && Coupled(w, h, evictions)
    requires w.server.handlers[h].driver.Unspawned? ==> evictions == 0
    ensures CoupledAfter(w, a, h, evictions)
  {
    assert Sessions.HandlerOk(w.server, n, h);
  }

  lemma StepKeepsCoupled(w: World, a: Action, n: nat, h: HandlerId, evictions: nat)
    requires Sessions.Inv(w.server, n) && Owned(w) && Enabled(w, a)
    requires h < |w.server.handlers| && Coupled(w, h, evictions)
    requires w.server.handlers[h].driver.Unspawned? ==> evictions == 0
    ensures CoupledAfter(w, a, h, evictions)
  {
    match a
    case Drive(_, _) => DriveKeepsCoupled(w, a, n, h, evictions);
    case Spawn(_, _) => SpawnKeepsCoupled(w, a, n, h, evictions);
    case Handle(_) => HandleKeepsCoupled(w, a, n, h, evictions);
  }

  /** What a step of the world adds to the handlers' trace. */
  lemma EvictionsOfStep(t: seq<Action>, w: World, h: HandlerId)
    requires t != [] && Run(t) == Some(w) && Sessions.Draws(ServerTrace(t)) < U64
    ensures var rest := t[..|t| - 1];
      && Sessions.Draws(ServerTrace(rest)) <= Sessions.Draws(ServerTrace(t))
      && Sessions.Evictions(ServerTrace(t), h)
           == Sessions.Evictions(ServerTrace(rest), h) + EvictionsBy(Run(rest).value, t[|t| - 1], h)
  {
    var rest, before, a := t[..|t| - 1], Run(t[..|t| - 1]).value, t[|t| - 1];
    var trace, steps := ServerTrace(rest), ServerSteps(before, a);
    ServerFollows(rest, before);
    if steps == [] {
      assert trace + steps == trace;
    } else {
      assert (trace + steps)[..|trace + steps| - 1] == trace;
      if steps[0].Insert? {
        Sessions.LastInserterWins(trace, before.server, steps[0].name);
      }
    }
  }

  /** A handler that has just been accepted has no driver. */
  lemma AcceptedFits(w: World)
    requires Owned(w)
    ensures var h, w' := |w.server.handlers|, Step(w, Handle(Sessions.Accept));
      |w'.server.handlers| == h + 1 && Coupled(w', h, 0)
  {
    StepOfHandle(w, Sessions.Accept);
  }

  lemma NewHandlerCoupled(t: seq<Action>, w: World, h: HandlerId)
    requires t != [] && Run(t) == Some(w) && Sessions.Draws(ServerTrace(t[..|t| - 1])) < U64
    requires |Run(t[..|t| - 1]).value.server.handlers| <= h < |w.server.handlers|
    ensures Coupled(w, h, 0) && Sessions.Evictions(ServerTrace(t[..|t| - 1]), h) == 0
    ensures EvictionsBy(Run(t[..|t| - 1]).value, t[|t| - 1], h) == 0
  {
    var rest, before := t[..|t| - 1], Run(t[..|t| - 1]).value;
    ReachableInv(rest, before);
    WhoAppears(before, t[|t| - 1], h);
    AcceptedFits(before);
    ServerFollows(rest, before);
    Sessions.UnknownHandlersLeaveNoTrace(ServerTrace(rest), before.server, h);
  }

  lemma {:induction false} ReachableCoupled(t: seq<Action>, w: World, h: HandlerId)
    requires Run(t) == Some(w) && Sessions.Draws(ServerTrace(t)) < U64 && h < |w.server.handlers|
    ensures Coupled(w, h, Sessions.Evictions(ServerTrace(t), h))
  {
    var rest, before, a := t[..|t| - 1], Run(t[..|t| - 1]).value, t[|t| - 1];
    EvictionsOfStep(t, w, h);
    if h < |before.server.handlers| {
      ReachableCoupled(rest, before, h);
      ReachableInv(rest, before);
      UnspawnedNotEvicted(rest, before, h);
      StepKeepsCoupled(before, a, Sessions.Draws(ServerTrace(rest)), h, Sessions.Evictions(ServerTrace(rest), h));
    } else {
      NewHandlerCoupled(t, w, h);
    }
  }

  lemma UnspawnedNotEvicted(t: seq<Action>, w: World, h: HandlerId)
    requires Run(t) == Some(w) && Sessions.Draws(ServerTrace(t)) < U64 && h < |w.server.handlers|
    ensures w.server.handlers[h].driver.Unspawned? ==> Sessions.Evictions(ServerTrace(t), h) == 0
  {
    ServerFollows(t, w);
    ReachableInv(t, w);
    Sessions.SessionsLeaveOnce(ServerTrace(t), w.server, h);
    assert Sessions.HandlerOk(w.server, Sessions.Draws(ServerTrace(t)), h);
  }

  lemma ReachableInv(t: seq<Action>, w: World)
    requires Run(t) == Some(w) && Sessions.Draws(ServerTrace(t)) < U64
    ensures Sessions.Inv(w.server, Sessions.Draws(ServerTrace(t))) && Owned(w)
  {
    ServerFollows(t, w);
    Sessions.ReachableInv(ServerTrace(t), w.server);
    forall h | h in w.drivers ensures h < |w.server.handlers| && DriverModel.Inv(w.drivers[h]) {
      DriversRunTheLoop(t, w, h);
      DriversHaveHandlers(t, w, h);
    }
  }

  lemma {:induction false} DriversHaveHandlers(t: seq<Action>, w: World, h: HandlerId)
    requires Run(t) == Some(w) && h in w.drivers
    ensures h < |w.server.handlers|
  {
    var before := Run(t[..|t| - 1]).value;
    WhoAppears(before, t[|t| - 1], h);
    if h in before.drivers {
      DriversHaveHandlers(t[..|t| - 1], before, h);
    }
  }

  // ----- main results -----

  /**
   Why a session's driver ends. For every handler past the refusal, in every reachable world: its
   driver was asked to stop exactly when another registration took its name, which happens at
   most once; the loop ends by that abort, by yamux, or at the fifth miss in a row, and never
   because its handles are gone; and the handler unregisters only once the loop has ended.
   */
  lemma EndingsOfSessions(t: seq<Action>, w: World, h: HandlerId)
    requires Run(t) == Some(w) && Sessions.Draws(ServerTrace(t)) < U64
    requires h < |w.server.handlers| && Sessions.HasSession(w.server.handlers[h].phase)
    ensures h in w.drivers
    ensures var d, evictions := w.drivers[h], Sessions.Evictions(ServerTrace(t), h);
      && evictions <= 1
      && (d.env.abortRequested <==> evictions == 1)
      && (d.loop.ending.Some? ==>
            match d.loop.ending.value
            case Aborted => evictions == 1
            case YamuxFailed | YamuxClosed => true
            case PeerDead => d.loop.missed == DriverModel.MAX_MISSED
            case HandlesGone | ResultsGone => false)
      && (w.server.handlers[h].phase.Finished? ==> d.loop.ending.Some?)
      && (d.loop.ending.None? ==> d.env.ownerHandle)
  {
    ReachableInv(t, w);
    ReachableCoupled(t, w, h);
    ServerFollows(t, w);
    Sessions.SessionsLeaveOnce(ServerTrace(t), w.server, h);
    assert Sessions.HandlerOk(w.server, Sessions.Draws(ServerTrace(t)), h);
  }

  /** No session is dropped for nothing: one that ended by abort finds its name taken when it unregisters. */
  lemma AbortedSessionsWereReplaced(t: seq<Action>, w: World, h: HandlerId)
    requires Run(t) == Some(w) && Sessions.Draws(ServerTrace(t)) < U64
    requires h < |w.server.handlers| && w.server.handlers[h].phase.Finished?
    ensures h in w.drivers && w.drivers[h].loop.ending.Some?
    ensures w.drivers[h].loop.ending == Some(DriverModel.Aborted) ==>
      w.server.handlers[h].phase == Sessions.Finished(false)
  {
    EndingsOfSessions(t, w, h);
    ServerFollows(t, w);
    Sessions.SessionsLeaveOnce(ServerTrace(t), w.server, h);
  }

  /** The map and the loops: a registered session whose loop runs unaborted is exactly its name's entry. */
  lemma RunningLoopsAreTheMap(t: seq<Action>, w: World, h: HandlerId)
    requires Run(t) == Some(w) && Sessions.Draws(ServerTrace(t)) < U64
    requires h in w.drivers && w.drivers[h].loop.ending.None?
    ensures h < |w.server.handlers|
    ensures Sessions.Registered(w.server.handlers[h].phase) && !w.drivers[h].env.abortRequested
       <==> Sessions.InMap(w.server, h)
  {
    ReachableInv(t, w);
    ReachableCoupled(t, w, h);
    ServerFollows(t, w);
    Sessions.LiveSessionsAreTheMap(ServerTrace(t), w.server);
    assert Sessions.HandlerOk(w.server, Sessions.Draws(ServerTrace(t)), h);
    if Sessions.InMap(w.server, h) {
      assert Sessions.EntryOk(w.server, w.server.handlers[h].name);
    }
  }

  /** The handlers never hold a driver's loop back: whatever it could do alone it can do here. */
  lemma LoopsAreNotHeldBack(t: seq<Action>, w: World, h: HandlerId, e: DriverModel.Event)
    requires Run(t) == Some(w) && Sessions.Draws(ServerTrace(t)) < U64
    requires h in w.drivers && !e.RequestAbort? && !e.OwnerDrops? && DriverModel.Enabled(w.drivers[h], e)
    ensures Enabled(w, Drive(h, e))
  {
    ReachableInv(t, w);
    ReachableCoupled(t, w, h);
    if Ends(w.drivers[h], e) {
      MayEnd(w.server, h);
    }
  }

  lemma MayEnd(s: Sessions.State, h: HandlerId)
    requires h < |s.handlers| && !s.handlers[h].driver.Unspawned? && !s.handlers[h].driver.Ended?
    ensures Sessions.Enabled(s, Sessions.DriverEnds(h))
  {
  }

  lemma RunExtends(t: seq<Action>, a: Action)
    requires Run(t).Some? && Enabled(Run(t).value, a)
    ensures Run(t + [a]) == Some(Step(Run(t).value, a))
  {
    assert (t + [a])[..|t|] == t;
  }

  function RefusalRun(name: string, heartbeat: bool): seq<Action> {
    [Handle(Sessions.Accept), Handle(Sessions.Greet(0, name)), Spawn(0, heartbeat), Handle(Sessions.Refuse(0)),
     Drive(0, DriverModel.CommandsGone)]
  }

  lemma RefusalSpawns(name: string, heartbeat: bool)
    ensures var w := Run(RefusalRun(name, heartbeat)[..3]);
      && w.Some?
      && w.value.server.handlers == [Sessions.Handler(Sessions.Spawned, Sessions.Running, name, 0)]
      && w.value.drivers == map[0 := DriverModel.Start(DriverModel.Mode(heartbeat))]
  {
    var t := RefusalRun(name, heartbeat);
    RunExtends([], t[0]);
    assert [] + [t[0]] == t[..1];
    RunExtends(t[..1], t[1]);
    assert t[..1] + [t[1]] == t[..2];
    RunExtends(t[..2], t[2]);
    assert t[..2] + [t[2]] == t[..3];
  }

  /** The closed-command arm is not dead code: a refused session's driver can leave by it before the abort lands. */
  lemma RefusedDriverCanSeeHandlesGone(name: string, heartbeat: bool)
    requires name in RESERVED
    ensures var w := Run(RefusalRun(name, heartbeat));
      && w.Some? && 0 in w.value.drivers
      && w.value.drivers[0].loop.ending == Some(DriverModel.HandlesGone)
      && w.value.server.handlers == [Sessions.Handler(Sessions.Refused, Sessions.Ended, name, 0)]
  {
    var t := RefusalRun(name, heartbeat);
    RefusalSpawns(name, heartbeat);
    RunExtends(t[..3], t[3]);
    assert t[..3] + [t[3]] == t[..4];
    RefusalLeavesDriver(Run(t[..3]).value, name, heartbeat);
    CommandsAreGone(heartbeat);
    MayEnd(Run(t[..4]).value.server, 0);
    RunExtends(t[..4], t[4]);
    assert t[..4] + [t[4]] == t;
    StepOfDrive(Run(t[..4]).value, t[4], 0);
  }

  lemma CommandsAreGone(heartbeat: bool)
    ensures var d := Dropped(Asked(DriverModel.Start(DriverModel.Mode(heartbeat))));
      && DriverModel.Enabled(d, DriverModel.CommandsGone) && Ends(d, DriverModel.CommandsGone)
      && DriverModel.Step(d, DriverModel.CommandsGone).loop.ending == Some(DriverModel.HandlesGone)
  {
  }

  lemma RefusalLeavesDriver(w: World, name: string, heartbeat: bool)
    requires name in RESERVED
    requires w.server.handlers == [Sessions.Handler(Sessions.Spawned, Sessions.Running, name, 0)]
    requires w.drivers == map[0 := DriverModel.Start(DriverModel.Mode(heartbeat))]
    ensures Enabled(w, Handle(Sessions.Refuse(0)))
    ensures var w' := Step(w, Handle(Sessions.Refuse(0)));
      && w'.server.handlers == [Sessions.Handler(Sessions.Refused, Sessions.AbortRequested, name, 0)]
      && 0 in w'.drivers
      && w'.drivers[0] == Dropped(Asked(DriverModel.Start(DriverModel.Mode(heartbeat))))
  {
    StepOfHandle(w, Sessions.Refuse(0));
    DriverAfterHandle(w, Sessions.Refuse(0), 0);
  }
}
