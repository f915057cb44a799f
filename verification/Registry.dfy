/**
 The client registry: a name-to-session map and a session counter.

 `SessionMap` holds the two atomic updates of the shared map as functions on values; the
 classes update real objects and are proved against those functions. Interleavings of
 many connection handlers over the same functions are in `Sessions`.
 */
module SessionMap {
  const RESERVED: set<string> :=
    {"dashboard", "connect", "api", "www", "admin", "install", "download"}

  /** What the map keeps for a name: the session id and the driver the entry's handle aborts. */
  datatype Entry = Entry(sessionId: nat, driver: nat)

  type Clients = map<string, Entry>

  function Inserted(clients: Clients, name: string, entry: Entry): Clients {
    clients[name := entry]
  }

  predicate Holds(clients: Clients, name: string, sessionId: nat) {
    name in clients && clients[name].sessionId == sessionId
  }

  /** Conditional removal: only the session that still owns the name may delete it. */
  function Removed(clients: Clients, name: string, sessionId: nat): Clients {
    if Holds(clients, name, sessionId) then clients - {name} else clients
  }
}

module Registry {
  import opened Wrappers
  import opened SessionMap

  const TAKEOVER_AFTER_MISSED_HEARTBEATS: nat := 2
  const HEARTBEAT_TIMEOUT_SECS: nat := 90
  const SESSION_STALE_SECS: nat := HEARTBEAT_TIMEOUT_SECS

  /** Sender half of a driver's command channel together with its abort handle. */
  class YamuxHandle {
    const driver: nat
    var abortRequested: bool
    var closed: bool

    constructor (driver: nat)
      ensures this.driver == driver && !abortRequested && !closed
    {
      this.driver := driver;
      abortRequested, closed := false, false;
    }

    method Abort()
      modifies this`abortRequested
      ensures abortRequested
    {
      abortRequested := true;
    }
  }

  /** Liveness as the dashboard shows it. Times are nanoseconds on one monotonic clock. */
  predicate Alive(closed: bool, supportsHeartbeat: bool, missed: nat, lastActivity: nat, now: nat) {
    && !closed
    && !(supportsHeartbeat && missed >= TAKEOVER_AFTER_MISSED_HEARTBEATS)
    && (if now >= lastActivity then now - lastActivity else 0) < SESSION_STALE_SECS * SECOND
  }

  /** Per-session record; counters belong to the session, not to its name. */
  class ClientEntry {
    const clientId: string
    const sessionId: nat
    const handle: YamuxHandle
    const supportsHeartbeat: bool
    var lastActivity: nat
    var missedHeartbeats: nat
    var requests: u64
    var activeStreams: u64

    constructor (clientId: string, sessionId: nat, handle: YamuxHandle, supportsHeartbeat: bool, now: nat)
      ensures this.clientId == clientId && this.sessionId == sessionId && this.handle == handle
      ensures this.supportsHeartbeat == supportsHeartbeat && lastActivity == now
      ensures missedHeartbeats == 0 && requests == 0 && activeStreams == 0
    {
      this.clientId, this.sessionId := clientId, sessionId;
      this.handle, this.supportsHeartbeat := handle, supportsHeartbeat;
      lastActivity, missedHeartbeats, requests, activeStreams := now, 0, 0, 0;
    }

    method Touch(now: nat)
      modifies this`lastActivity
      ensures lastActivity == now
    {
      lastActivity := now;
    }

    method IsAlive(now: nat) returns (alive: bool)
      ensures alive == Alive(handle.closed, supportsHeartbeat, missedHeartbeats, lastActivity, now)
      ensures handle.closed ==> !alive
      ensures !handle.closed && !supportsHeartbeat ==> (alive <==> now < lastActivity + 90 * SECOND)
      ensures !handle.closed && supportsHeartbeat ==>
        (alive <==> missedHeartbeats < 2 && now < lastActivity + 90 * SECOND)
    {
      if handle.closed {
        return false;
      }
      if supportsHeartbeat && missedHeartbeats >= TAKEOVER_AFTER_MISSED_HEARTBEATS {
        return false;
      }
      var elapsed := if now >= lastActivity then now - lastActivity else 0;
      return elapsed < SESSION_STALE_SECS * SECOND;
    }
  }

  class Registry {
    var clients: map<string, ClientEntry>
    var nextSession: u64

    ghost function View(): Clients
      reads this
    {
      map name | name in clients :: Entry(clients[name].sessionId, clients[name].handle.driver)
    }

    constructor ()
      ensures clients == map[] && nextSession == 1
    {
      clients, nextSession := map[], 1;
    }

    /** First atomic step of a registration. */
    method DrawSession() returns (sessionId: u64)
      modifies this`nextSession
      ensures sessionId == old(nextSession) && nextSession == Inc(old(nextSession))
    {
      sessionId := nextSession;
      nextSession := Inc(nextSession);
    }

    /** Second atomic step: take the name, asking the previous owner's driver to stop. */
    method Insert(entry: ClientEntry) returns (replaced: bool)
      modifies this`clients, set e <- clients.Values :: e.handle
      ensures clients == old(clients)[entry.clientId := entry]
      ensures View() == Inserted(old(View()), entry.clientId, Entry(entry.sessionId, entry.handle.driver))
      ensures replaced == (entry.clientId in old(clients))
      ensures replaced ==> old(clients)[entry.clientId].handle.abortRequested
      ensures forall e <- old(clients).Values ::
        !(replaced && e.handle == old(clients)[entry.clientId].handle) ==> unchanged(e.handle)
      ensures forall e <- old(clients).Values :: e.handle.closed == old(e.handle.closed)
    {
      replaced := entry.clientId in clients;
      if replaced {
        var previous := clients[entry.clientId];
        assert previous in clients.Values;
        clients := clients[entry.clientId := entry];
        previous.handle.Abort();
      } else {
        clients := clients[entry.clientId := entry];
      }
    }

    method Register(clientId: string, handle: YamuxHandle, supportsHeartbeat: bool, now: nat)
      returns (r: Result<(ClientEntry, bool), string>)
      modifies this, set e <- clients.Values :: e.handle
      ensures r.Failure? <==>
        clientId in {"dashboard", "connect", "api", "www", "admin", "install", "download"}
      ensures r.Failure? ==> unchanged(this) && forall e <- clients.Values :: unchanged(e.handle)
      ensures r.Success? ==>
        && fresh(r.value.0)
        && r.value.0.clientId == clientId && r.value.0.handle == handle
        && r.value.0.sessionId == old(nextSession)
        && nextSession == Inc(old(nextSession))
        && clients == old(clients)[clientId := r.value.0]
        && r.value.1 == (clientId in old(clients))
        && (r.value.1 ==> old(clients)[clientId].handle.abortRequested)
        && (forall e <- old(clients).Values ::
              !(r.value.1 && e.handle == old(clients)[clientId].handle) ==> unchanged(e.handle))
        && forall e <- old(clients).Values :: e.handle.closed == old(e.handle.closed)
    {
      if clientId in RESERVED {
        return Failure("reserved");
      }
      var sessionId := DrawSession();
      var entry := new ClientEntry(clientId, sessionId, handle, supportsHeartbeat, now);
      var replaced := Insert(entry);
      return Success((entry, replaced));
    }

    method Unregister(clientId: string, sessionId: nat) returns (removed: bool)
      modifies this`clients
      ensures removed == Holds(old(View()), clientId, sessionId)
      ensures View() == Removed(old(View()), clientId, sessionId)
      ensures forall name <- clients :: name in old(clients) && clients[name] == old(clients)[name]
    {
      removed := clientId in clients && clients[clientId].sessionId == sessionId;
      if removed {
        clients := clients - {clientId};
      }
    }

    function Get(clientId: string): (entry: Option<ClientEntry>)
      reads this
      ensures entry.Some? <==> clientId in clients
      ensures entry.Some? ==> entry.value in clients.Values
    {
      if clientId in clients then Some(clients[clientId]) else None
    }
  }
}
