/** From a request's Host header to a tunnel name, and through the registry to a session. */
module Routing {
  import opened Wrappers
  import opened Text
  import opened Headers
  import opened SessionMap
  import Sessions

  /** Everything before the first colon. */
  function WithoutPort(host: string): string {
    if host == "" || host[0] == ':' then "" else [host[0]] + WithoutPort(host[1..])
  }

  datatype Target = Dashboard | Proxy

  /** First decision for a request: install site and dashboard, or a tunnel. An unreadable header counts as empty. */
  function Dispatch(header: Option<seq<byte>>, domain: string): Target {
    var text := TextOf(header);
    var h := WithoutPort(if text.Some? then text.value else "");
    if h == "dashboard." + domain || h == domain then Dashboard else Proxy
  }

  /** The tunnel name in a Host header, if any. */
  function ExtractName(header: Option<seq<byte>>, domain: string): Option<string> {
    var text := TextOf(header);
    if text.None? then None
    else
      var h, suffix := WithoutPort(text.value), "." + domain;
      if EndsWith(h, suffix) then
        var name := h[..|h| - |suffix|];
        if name == "" then None else Some(name)
      else None
  }

  /** The header a visitor of `name` sends, with or without a port. */
  function HostOf(name: string, domain: string, port: Option<string>): string {
    name + "." + domain + if port.Some? then ":" + port.value else ""
  }

  lemma {:induction false} WithoutPortOfPlain(h: string, tail: string)
    requires ':' !in h && (tail == "" || tail[0] == ':')
    ensures WithoutPort(h + tail) == h
  {
    if h != "" {
      WithoutPortOfPlain(h[1..], tail);
      assert (h + tail)[1..] == h[1..] + tail;
    } else {
      assert h + tail == tail;
    }
  }

  lemma {:induction false} WithoutPortIsPrefix(host: string)
    ensures ':' !in WithoutPort(host) && WithoutPort(host) <= host
  {
    if host != "" && host[0] != ':' {
      WithoutPortIsPrefix(host[1..]);
    }
  }

  lemma EndsWithIff(h: string, name: string, suffix: string)
    ensures h == name + suffix <==> EndsWith(h, suffix) && h[..|h| - |suffix|] == name
  {
    if EndsWith(h, suffix) {
      assert h == h[..|h| - |suffix|] + suffix;
    }
  }

  /** A header routes to a name exactly when its port-stripped text is that name under the domain. */
  lemma RoutesOnlyToOwnHost(header: Option<seq<byte>>, domain: string, name: string)
    ensures ExtractName(header, domain) == Some(name) <==>
      name != "" && TextOf(header).Some? && WithoutPort(TextOf(header).value) == name + "." + domain
  {
    assert name + "." + domain == name + ("." + domain);
    if TextOf(header).Some? {
      EndsWithIff(WithoutPort(TextOf(header).value), name, "." + domain);
    }
  }

  /** Text that is this host, with or without a port. */
  ghost predicate Names(text: string, host: string) {
    exists tail :: text == host + tail && (tail == "" || tail[0] == ':')
  }

  lemma {:induction false} WithoutPortCuts(text: string)
    ensures WithoutPort(text) <= text
    ensures var tail := text[|WithoutPort(text)|..]; tail == "" || tail[0] == ':'
  {
    if text != "" && text[0] != ':' {
      WithoutPortCuts(text[1..]);
      assert text[|WithoutPort(text)|..] == text[1..][|WithoutPort(text[1..])|..];
    }
  }

  lemma NamesIff(text: string, host: string)
    requires ':' !in host
    ensures Names(text, host) <==> WithoutPort(text) == host
  {
    if tail :| text == host + tail && (tail == "" || tail[0] == ':') {
      WithoutPortOfPlain(host, tail);
    }
    WithoutPortCuts(text);
    var h := WithoutPort(text);
    assert text == h + text[|h|..];
  }

  /**
   Which requests the server answers itself: those for its own domain and for its dashboard host,
   with or without a port. All others go to the proxy; a header that is not text counts as empty.
   */
  lemma OwnHostsAreTheDashboards(header: Option<seq<byte>>, domain: string)
    requires ':' !in domain
    ensures Dispatch(header, domain) == Dashboard <==>
      if TextOf(header).Some?
      then Names(TextOf(header).value, domain) || Names(TextOf(header).value, "dashboard." + domain)
      else domain == ""
  {
    if TextOf(header).Some? {
      NamesIff(TextOf(header).value, domain);
      NamesIff(TextOf(header).value, "dashboard." + domain);
    }
  }

  /** The bytes a visitor sends for the server's own hosts get there. */
  lemma OwnHostsAreServed(domain: string, dashboard: bool, port: Option<string>)
    requires ':' !in domain && IsText(domain) && (port.Some? ==> IsText(port.value))
    ensures var host := (if dashboard then "dashboard." else "") + domain + if port.Some? then ":" + port.value else "";
      IsWire(host) && Dispatch(Some(Bytes(host)), domain) == Dashboard
  {
    var own, tail := (if dashboard then "dashboard." else "") + domain, if port.Some? then ":" + port.value else "";
    TextIsWire(own + tail);
    SentIsReadIffText(own + tail);
    assert Names(own + tail, own);
    assert "" + domain == domain;
    OwnHostsAreTheDashboards(Some(Bytes(own + tail)), domain);
  }

  lemma DashboardHosts(name: string, domain: string)
    requires name != ""
    ensures name + "." + domain == "dashboard." + domain <==> name == "dashboard"
    ensures name + "." + domain != domain
  {
    if name + "." + domain == "dashboard." + domain {
      assert |name| == |"dashboard"|;
      assert (name + "." + domain)[..|name|] == name;
      assert ("dashboard." + domain)[..|name|] == "dashboard";
    }
  }

  /** Some header that a server can receive is proxied to the name. */
  ghost predicate Reachable(name: string, domain: string) {
    exists header :: Delivered(header) && Dispatch(header, domain) == Proxy && ExtractName(header, domain) == Some(name)
  }

  /** Names and domains that can be part of a Host header's text. */
  predicate Addressable(name: string, domain: string) {
    && name != "" && name != "dashboard"
    && ':' !in name && ':' !in domain
    && IsText(name) && IsText(domain)
  }

  /** A header value never begins with white space, so a name that does cannot be asked for. */
  predicate Visitable(name: string, domain: string) {
    Addressable(name, domain) && name[0] != ' ' && name[0] != '\t'
  }

  lemma HostIsProxied(name: string, domain: string, port: Option<string>)
    requires Addressable(name, domain) && (port.Some? ==> IsText(port.value))
    ensures IsWire(HostOf(name, domain, port))
    ensures var header := Some(Bytes(HostOf(name, domain, port)));
      Dispatch(header, domain) == Proxy && ExtractName(header, domain) == Some(name)
  {
    var host, tail := HostOf(name, domain, port), if port.Some? then ":" + port.value else "";
    TextIsWire(host);
    SentIsReadIffText(host);
    WithoutPortOfPlain(name + "." + domain, tail);
    RoutesOnlyToOwnHost(Some(Bytes(host)), domain, name);
    DashboardHosts(name, domain);
  }

  /**
   Which names can be visited at all: the registry accepts more. A name has a header that is
   proxied to it exactly when it is non-empty, not the dashboard's, free of colons, does not start
   with white space and, like the domain, reads as text.
   */
  lemma ReachableNames(name: string, domain: string)
    ensures Reachable(name, domain) <==> Visitable(name, domain)
  {
    if Visitable(name, domain) {
      HostIsProxied(name, domain, Some("80"));
      var host := HostOf(name, domain, Some("80"));
      assert host[0] == name[0] && host[|host| - 1] == '0';
      assert Delivered(Some(Bytes(host)));
    }
    forall header | Delivered(header) && Dispatch(header, domain) == Proxy && ExtractName(header, domain) == Some(name)
      ensures Visitable(name, domain)
    {
      RoutesOnlyToOwnHost(header, domain, name);
      var text := TextOf(header).value;
      WithoutPortIsPrefix(text);
      var h := WithoutPort(text);
      assert h == name + "." + domain && h[0] == name[0];
      assert forall c :: c in name || c in domain ==> c in h;
      DashboardHosts(name, domain);
    }
  }

  /**
   A name no header reaches is registered all the same: from every reachable state of the server
   a newcomer gets it, and no visitor ever gets to that session. The smallest such name is one
   accented letter.
   */
  lemma RegisteredYetUnreachable(t: seq<Sessions.Action>, s: Sessions.State, name: string, domain: string)
    requires Sessions.Run(t) == Some(s) && Sessions.Draws(t) < U64
    requires name !in RESERVED && !Visitable(name, domain)
    ensures var s' := Sessions.Run(t + Sessions.Newcomer(s, name));
      && s'.Some? && name in s'.value.clients && Sessions.Live(s'.value, s'.value.clients[name].driver)
    ensures !Reachable(name, domain)
  {
    Sessions.NewcomerAlwaysTakesOver(t, s, name);
    ReachableNames(name, domain);
  }

  lemma AccentedNameIsUnreachable(domain: string)
    ensures "\U{E9}" !in RESERVED && !Visitable("\U{E9}", domain)
  {
    assert !Readable('\U{E9}') && '\U{E9}' in "\U{E9}";
  }

  /**
   In every reachable state of the server, the host of a registered addressable name reaches the
   session that registered it last, with or without a port.
   */
  lemma HostReachesCurrentSession(
      t: seq<Sessions.Action>, s: Sessions.State, name: string, domain: string, port: Option<string>)
    requires Sessions.Run(t) == Some(s) && Sessions.Draws(t) < U64
    requires name in s.clients && name != "" && ':' !in name && ':' !in domain
    requires IsText(name) && IsText(domain) && (port.Some? ==> IsText(port.value))
    ensures IsWire(HostOf(name, domain, port))
    ensures var header := Some(Bytes(HostOf(name, domain, port)));
      var routed := ExtractName(header, domain);
      && Dispatch(header, domain) == Proxy
      && routed.Some? && routed.value in s.clients
      && Sessions.LastInserter(t, name) == Some(s.clients[routed.value].driver)
      && Sessions.InMap(s, s.clients[routed.value].driver)
  {
    Sessions.LiveSessionsAreTheMap(t, s);
    Sessions.LastInserterWins(t, s, name);
    HostIsProxied(name, domain, port);
  }
}
