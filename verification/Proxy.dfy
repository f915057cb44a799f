/** One proxied request from Host header to response, with its counter updates on every exit. */
module Proxy {
  import opened Wrappers
  import opened Accounting
  import Routing
  import Registry
  import RateLimiter

  class Metrics {
    var totalRequests: u64
    var rateLimited: u64
    var activeConnections: u64

    constructor ()
      ensures totalRequests == rateLimited == activeConnections == 0
    {
      totalRequests, rateLimited, activeConnections := 0, 0, 0;
    }
  }

  /** What the tunnel does with the request, stage by stage, and when the response arrives. */
  datatype Wire = Wire(streamOpen: bool, marked: bool, handshaken: bool, built: bool, answered: bool, answeredAt: nat)

  predicate Passes(stage: Stage, wire: Wire) {
    match stage
    case Opening => wire.streamOpen
    case Marking => wire.marked
    case Handshaking => wire.handshaken
    case Building => wire.built
    case Sending => wire.answered
  }

  function Rank(stage: Stage): nat {
    match stage case Opening => 4 case Marking => 3 case Handshaking => 2 case Building => 1 case Sending => 0
  }

  /** The first stage that fails decides how an admitted request ends. */
  function TunnelOutcome(stage: Stage, wire: Wire, marked: bool): Outcome
    decreases Rank(stage)
  {
    if !Passes(stage, wire) then FailureAt(stage)
    else if stage == Sending then Served
    else TunnelOutcome(After(stage, marked), wire, marked)
  }

  /** How each wire ends a request: the first thing that goes wrong, or nothing. */
  lemma WhatEndsARequest(wire: Wire, marked: bool)
    ensures var o, sent := TunnelOutcome(Opening, wire, marked), wire.streamOpen && (marked ==> wire.marked);
      && (o == OpenFailed <==> !wire.streamOpen)
      && (o == MarkerFailed <==> wire.streamOpen && marked && !wire.marked)
      && (o == HandshakeFailed <==> sent && !wire.handshaken)
      && (o == BuildFailed <==> sent && wire.handshaken && !wire.built)
      && (o == SendFailed <==> sent && wire.handshaken && wire.built && !wire.answered)
      && (o == Served <==> sent && wire.handshaken && wire.built && wire.answered)
  {
    assert wire.streamOpen && marked ==> TunnelOutcome(Opening, wire, marked) == TunnelOutcome(Marking, wire, marked);
    assert wire.handshaken ==> TunnelOutcome(Handshaking, wire, marked) == TunnelOutcome(Building, wire, marked);
  }

  method Release(client: Registry.ClientEntry, metrics: Metrics)
    modifies client`activeStreams, metrics`activeConnections
    ensures client.activeStreams == Dec(old(client.activeStreams))
    ensures metrics.activeConnections == Dec(old(metrics.activeConnections))
  {
    client.activeStreams := Dec(client.activeStreams);
    metrics.activeConnections := Dec(metrics.activeConnections);
  }

  lemma DecUndoesInc(x: u64)
    ensures Dec(Inc(x)) == x
  {
  }

  /** From the looked-up session on: count, try the stages, uncount on whichever exit is taken. */
  method Forward(client: Registry.ClientEntry, metrics: Metrics, wire: Wire) returns (outcome: Outcome)
    modifies client, metrics`activeConnections
    ensures outcome == TunnelOutcome(Opening, wire, client.supportsHeartbeat)
    ensures outcome.Served? <==>
      wire.streamOpen && (client.supportsHeartbeat ==> wire.marked) && wire.handshaken && wire.built && wire.answered
    ensures client.requests == Inc(old(client.requests))
    ensures client.activeStreams == old(client.activeStreams) && client.missedHeartbeats == old(client.missedHeartbeats)
    ensures metrics.activeConnections == old(metrics.activeConnections)
    ensures client.lastActivity == if outcome.Served? then wire.answeredAt else old(client.lastActivity)
  {
    WhatEndsARequest(wire, client.supportsHeartbeat);
    DecUndoesInc(client.activeStreams);
    DecUndoesInc(metrics.activeConnections);
    client.requests := Inc(client.requests);
    client.activeStreams := Inc(client.activeStreams);
    metrics.activeConnections := Inc(metrics.activeConnections);

    ghost var marked := client.supportsHeartbeat;
    if !wire.streamOpen {
      Release(client, metrics);
      return OpenFailed;
    }
    if client.supportsHeartbeat && !wire.marked {
      Release(client, metrics);
      return MarkerFailed;
    }
    assert marked ==> TunnelOutcome(Marking, wire, marked) == TunnelOutcome(Handshaking, wire, marked);
    assert TunnelOutcome(Opening, wire, marked) == TunnelOutcome(Handshaking, wire, marked);
    if !wire.handshaken {
      Release(client, metrics);
      return HandshakeFailed;
    }
    if !wire.built {
      Release(client, metrics);
      return BuildFailed;
    }
    if !wire.answered {
      Release(client, metrics);
      return SendFailed;
    }
    Release(client, metrics);
    client.Touch(wire.answeredAt);
    return Served;
  }

  /** The limiter's window and answer for this request. */
  ghost function Limited(limiter: RateLimiter.Limiter, name: string, now: nat): (Option<RateLimiter.Window>, bool)
    reads limiter
  {
    RateLimiter.Checked(limiter.maxPerSecond, limiter.Lookup(name), now)
  }

  method HandleProxyRequest(
      host: Option<seq<byte>>, domain: string, registry: Registry.Registry, metrics: Metrics,
      limiter: RateLimiter.Limiter, now: nat, wire: Wire) returns (outcome: Outcome)
    modifies metrics, limiter`counters, registry.clients.Values
    ensures metrics.totalRequests == Inc(old(metrics.totalRequests))
    ensures metrics.activeConnections == old(metrics.activeConnections)
    ensures metrics.rateLimited ==
      if outcome.RateLimited? then Inc(old(metrics.rateLimited)) else old(metrics.rateLimited)
    ensures var name := Routing.ExtractName(host, domain);
      if name.None? then outcome == Unrouted && unchanged(limiter)
      else if !old(Limited(limiter, name.value, now)).1 then outcome == RateLimited
      else if name.value !in registry.clients then outcome == NotFound
      else outcome == TunnelOutcome(Opening, wire, registry.clients[name.value].supportsHeartbeat)
    // a routed request uses up a place in its name's window and in no other
    ensures var name := Routing.ExtractName(host, domain);
      name.Some? ==>
        && limiter.Lookup(name.value) == old(Limited(limiter, name.value, now)).0
        && forall k :: k != name.value ==> limiter.Lookup(k) == old(limiter.Lookup(k))
    ensures forall e <- registry.clients.Values ::
      e.activeStreams == old(e.activeStreams) && e.missedHeartbeats == old(e.missedHeartbeats)
    ensures forall e <- registry.clients.Values ::
      if !outcome.Unrouted? && !outcome.RateLimited? && registry.Get(Routing.ExtractName(host, domain).value) == Some(e)
      then e.requests == Inc(old(e.requests))
        && e.lastActivity == (if outcome.Served? then wire.answeredAt else old(e.lastActivity))
      else unchanged(e)
  {
    metrics.totalRequests := Inc(metrics.totalRequests);
    var name := Routing.ExtractName(host, domain);
    if name.None? {
      return Unrouted;
    }
    var allowed := limiter.Check(name.value, now);
    if !allowed {
      metrics.rateLimited := Inc(metrics.rateLimited);
      return RateLimited;
    }
    var found := registry.Get(name.value);
    if found.None? {
      return NotFound;
    }
    assert found.value in registry.clients.Values;
    outcome := Forward(found.value, metrics, wire);
  }
}
