/** One control connection run start to finish with nothing else in between. */
module ConnectionHandler {
  import opened Wrappers
  import opened SessionMap
  import DriverModel
  import Frames
  import Registry
  import Sessions
  import Traefik
  import YamuxDriver

  /** The registry's view of a name that was taken and given back. */
  lemma TakenAndReturned(clients: Clients, name: string, entry: Entry)
    ensures Removed(Inserted(clients, name, entry), name, entry.sessionId) == clients - {name}
  {
  }

  /** The driver's loop comes to an end under this schedule, as it must for the handler to go on. */
  predicate Returns(mode: DriverModel.Mode, schedule: seq<DriverModel.Event>) {
    var d := DriverModel.Run(mode, schedule);
    d.Some? && d.value.loop.ending.Some?
  }

  /** The task that was spawned is awaited: the handler resumes when, and as, the loop ended. */
  method Await(driver: YamuxDriver.Driver, schedule: seq<DriverModel.Event>) returns (ending: DriverModel.Ending)
    requires driver.View() == DriverModel.Start(driver.mode) && Returns(driver.mode, schedule)
    modifies driver
    ensures DriverModel.Run(driver.mode, schedule).value.loop.ending == Some(ending)
  {
    var served := driver.Drive(schedule);
    assert schedule == schedule[..served] + schedule[served..];
    DriverModel.HistoryIsFinal(driver.mode, schedule[..served], schedule[served..], driver.View(),
      DriverModel.Run(driver.mode, schedule).value);
    assert served == |schedule| ==> schedule[..served] == schedule;
    ending := driver.ending.value;
  }

  /** A registered session, from its route to its end. */
  method ServeRegistered(
      id: string, sessionId: nat, driver: YamuxDriver.Driver, registry: Registry.Registry,
      routes: Traefik.TraefikManager, schedule: seq<DriverModel.Event>)
      returns (removed: bool, ending: DriverModel.Ending)
    requires driver.View() == DriverModel.Start(driver.mode) && Returns(driver.mode, schedule)
    modifies registry`clients, routes, driver
    ensures DriverModel.Run(driver.mode, schedule).value.loop.ending == Some(ending)
    ensures removed == Holds(old(registry.View()), id, sessionId)
    ensures registry.View() == Removed(old(registry.View()), id, sessionId)
    ensures routes.dir == Traefik.Applied(routes.cfg, old(routes.dir), Traefik.AddClient(id))
  {
    routes.AddClientRoute(id);
    ending := Await(driver, schedule);
    removed := registry.Unregister(id, sessionId);
  }

  /**
   Authenticate, spawn the driver, register, write the route, wait for the driver's loop to end,
   unregister. An undisturbed session always removes its own entry, and the previous owner of the
   name does not get it back: its driver was asked to stop. The route file stays.
   */
  method HandleClient(
      message: Option<Frames.Message>, tokenOk: bool, handle: Registry.YamuxHandle, registry: Registry.Registry,
      routes: Traefik.TraefikManager, now: nat, schedule: seq<DriverModel.Event>)
      returns (end: Sessions.Phase, ending: Option<DriverModel.Ending>)
    requires message.Some? && message.value.MAuthReq? && tokenOk && message.value.authReq.clientId !in RESERVED ==>
      Returns(DriverModel.Mode(message.value.authReq.SupportsHeartbeat()), schedule)
    modifies registry, routes, handle, set e <- registry.clients.Values :: e.handle
    ensures end.Rejected? <==> message.None? || !message.value.MAuthReq? || !tokenOk
    ensures end.Rejected? ==> unchanged(registry) && unchanged(routes) && unchanged(handle) && ending == None
    ensures end.Rejected? ==> forall e <- registry.clients.Values :: unchanged(e.handle)
    ensures !end.Rejected? ==>
      var auth := message.value.authReq;
      var id, mode := auth.clientId, DriverModel.Mode(auth.SupportsHeartbeat());
      if id in RESERVED
      then end == Sessions.Refused && ending == None
        && unchanged(registry) && unchanged(routes) && handle.abortRequested
      else
        && end == Sessions.Finished(true)
        && ending.Some? && ending == DriverModel.Run(mode, schedule).value.loop.ending
        && registry.View() == old(registry.View()) - {id}
        && registry.nextSession == Inc(old(registry.nextSession))
        && routes.dir == Traefik.Applied(routes.cfg, old(routes.dir), Traefik.AddClient(id))
        && (id in old(registry.clients) ==> old(registry.clients)[id].handle.abortRequested)
    // apart from that request to stop, no session's handle is touched
    ensures !end.Rejected? ==> forall e <- old(registry.clients).Values :: e.handle != handle ==>
      var id := message.value.authReq.clientId;
      && e.handle.closed == old(e.handle.closed)
      && (!(id in old(registry.clients) && e.handle == old(registry.clients)[id].handle) ==> unchanged(e.handle))
  {
    if message.None? || !message.value.MAuthReq? || !tokenOk {
      return Sessions.Rejected, None;
    }
    var auth := message.value.authReq;
    var driver := new YamuxDriver.Driver(DriverModel.Mode(auth.SupportsHeartbeat()));
    ghost var before := registry.View();
    var registered := registry.Register(auth.clientId, handle, auth.SupportsHeartbeat(), now);
    if registered.Failure? {
      handle.Abort();
      return Sessions.Refused, None;
    }
    var (entry, replaced) := registered.value;
    assert registry.View() == Inserted(before, auth.clientId, Entry(entry.sessionId, handle.driver));
    TakenAndReturned(before, auth.clientId, Entry(entry.sessionId, handle.driver));
    var removed, why := ServeRegistered(auth.clientId, entry.sessionId, driver, registry, routes, schedule);
    end, ending := Sessions.Finished(removed), Some(why);
  }
}
