/** The session cookie: how it is built, how the browser sends it back, how it is found again. */
module Cookies {
  import opened Wrappers
  import opened Text
  import opened Headers

  const COOKIE_NAME := "zo-session"

  /** A header value that reads as text holds no white space but these two. */
  predicate IsSpace(c: char) { c == ' ' || c == '\t' }

  function TrimStart(s: string): string {
    if s != "" && IsSpace(s[0]) then TrimStart(s[1..]) else s
  }

  function TrimEnd(s: string): string {
    if s != "" && IsSpace(s[|s| - 1]) then TrimEnd(s[..|s| - 1]) else s
  }

  function Trim(s: string): string { TrimEnd(TrimStart(s)) }

  predicate Blank(s: string) { forall c <- s :: c == ' ' || c == '\t' }

  lemma {:induction false} TrimStartBlank(a: string, s: string)
    requires Blank(a) && (s != "" ==> s[0] != ' ' && s[0] != '\t')
    ensures TrimStart(a + s) == s
  {
    if a == "" {
      assert a + s == s;
    } else {
      assert a[0] in a && (a + s)[1..] == a[1..] + s;
      assert forall c <- a[1..] :: c in a;
      TrimStartBlank(a[1..], s);
    }
  }

  lemma {:induction false} TrimEndBlank(s: string, b: string)
    requires Blank(b) && (s != "" ==> s[|s| - 1] != ' ' && s[|s| - 1] != '\t')
    ensures TrimEnd(s + b) == s
  {
    if b == "" {
      assert s + b == s;
    } else {
      var n := |b| - 1;
      assert b[n] in b && (s + b)[|s + b| - 1] == b[n] && (s + b)[..|s + b| - 1] == s + b[..n];
      assert forall c <- b[..n] :: c in b;
      TrimEndBlank(s, b[..n]);
    }
  }

  /** Trimming takes off spaces and tabs at both ends, and only those. */
  lemma TrimTakesOffBlanks(a: string, s: string, b: string)
    requires Blank(a) && Blank(b)
    requires s != "" ==> s[0] != ' ' && s[0] != '\t' && s[|s| - 1] != ' ' && s[|s| - 1] != '\t'
    ensures Trim(a + s + b) == s
  {
    if s == "" {
      assert a + s + b == (a + b) + "";
      TrimStartBlank(a + b, "");
    } else {
      assert a + s + b == a + (s + b) && (s + b)[0] == s[0];
      TrimStartBlank(a, s + b);
      TrimEndBlank(s, b);
    }
  }

  function StripPrefix(s: string, p: string): Option<string> {
    if p <= s then Some(s[|p|..]) else None
  }

  /** The first non-empty session value; a name that merely starts alike stops the search. */
  function FindSession(parts: seq<string>): Option<string> {
    if parts == [] then None
    else
      var named := StripPrefix(Trim(parts[0]), COOKIE_NAME);
      if named.None? then FindSession(parts[1..])
      else
        var value := StripPrefix(named.value, "=");
        if value.None? then None
        else if value.value == "" then FindSession(parts[1..])
        else value
  }

  /** The session id a request carries; a header that does not read as text carries none. */
  function SessionIdIn(header: Option<seq<byte>>): Option<string> {
    var text := TextOf(header);
    if text.None? then None else FindSession(Split(text.value, ';'))
  }

  method ExtractSessionId(header: Option<seq<byte>>) returns (id: Option<string>)
    ensures id == SessionIdIn(header)
  {
    var text := TextOf(header);
    if text.None? {
      return None;
    }
    var parts := Split(text.value, ';');
    for i := 0 to |parts|
      invariant FindSession(parts) == FindSession(parts[i..])
    {
      var part := Trim(parts[i]);
      var named := StripPrefix(part, COOKIE_NAME);
      if named.Some? {
        var value := StripPrefix(named.value, "=");
        if value.None? {
          return None;
        }
        if value.value != "" {
          return value;
        }
      }
    }
    return None;
  }

  /** Everything after the pair and its semicolon. */
  function Attributes(maxAge: string, secure: bool): string {
    " Path=/" + ";" + (" HttpOnly" + ";" + (" SameSite=Strict" + ";"
      + (" Max-Age=" + maxAge + if secure then ";" + " Secure" else "")))
  }

  function BuildSessionCookie(id: string, maxAge: nat, tls: bool): string {
    COOKIE_NAME + "=" + id + ";" + Attributes(Decimal(maxAge), tls)
  }

  function BuildClearCookie(): string {
    COOKIE_NAME + "=" + ";" + Attributes("0", false)
  }

  // ----- what the search finds -----

  /** Passed over by the search: another name, or the session name with an empty value. */
  predicate Skipped(part: string) {
    !(COOKIE_NAME <= Trim(part)) || Trim(part) == COOKIE_NAME + "="
  }

  /** The i-th part carries the id and the search passes over all before it. */
  ghost predicate FirstAt(parts: seq<string>, id: string, i: nat) {
    && i < |parts| && Trim(parts[i]) == COOKIE_NAME + "=" + id
    && forall j :: 0 <= j < i ==> Skipped(parts[j])
  }

  lemma {:induction false} FoundIffFirst(parts: seq<string>, id: string)
    ensures FindSession(parts) == Some(id) <==> id != "" && exists i :: FirstAt(parts, id, i)
  {
    if parts != [] {
      var p := Trim(parts[0]);
      FoundIffFirst(parts[1..], id);
      if Skipped(parts[0]) {
        assert COOKIE_NAME <= p ==> StripPrefix(p, COOKIE_NAME) == Some("=");
        if i: nat :| FirstAt(parts, id, i) && i > 0 {
          assert FirstAt(parts[1..], id, i - 1);
        }
        if i: nat :| FirstAt(parts[1..], id, i) {
          assert forall j :: 0 < j < i + 1 ==> parts[j] == parts[1..][j - 1];
          assert FirstAt(parts, id, i + 1);
        }
      } else if p == COOKIE_NAME + "=" + id && id != "" {
        assert FirstAt(parts, id, 0);
      }
    }
  }

  // ----- what the browser sends -----

  /** One pair: whatever bytes, but no separator and no white space. */
  predicate Plain(s: string) {
    IsWire(s) && forall c <- s :: c != ';' && !IsSpace(c)
  }

  predicate AllText(pairs: seq<string>) {
    forall p <- pairs :: IsText(p)
  }

  /** The cookie-string of section 4.2.1 of RFC 6265: pairs joined by a semicolon and a space. */
  function CookieHeader(pairs: seq<string>): string
    requires pairs != []
  {
    if |pairs| == 1 then pairs[0] else pairs[0] + ";" + (" " + CookieHeader(pairs[1..]))
  }

  lemma TrimPlain(s: string)
    requires Plain(s)
    ensures Trim(s) == s && Trim(" " + s) == s
  {
    assert (" " + s)[1..] == s;
    assert s != "" ==> s[0] in s && s[|s| - 1] in s;
  }

  lemma {:induction false} HeaderSplits(pairs: seq<string>)
    requires pairs != [] && forall p <- pairs :: Plain(p)
    ensures var parts := Split(CookieHeader(pairs), ';');
      && |parts| == |pairs|
      && parts[0] == pairs[0]
      && forall i :: 0 <= i < |pairs| ==> Trim(parts[i]) == pairs[i]
  {
    var p := pairs[0];
    TrimPlain(p);
    assert ';' !in p;
    if |pairs| == 1 {
      SplitPlain(p, ';');
    } else {
      var tail := CookieHeader(pairs[1..]);
      SplitFirst(p, ';', " " + tail);
      HeaderSplits(pairs[1..]);
      assert (" " + tail)[1..] == tail;
      TrimPlain(pairs[1]);
    }
  }

  lemma TextOfJoin(p: string, tail: string)
    ensures IsWire(p + ";" + (" " + tail)) <==> IsWire(p) && IsWire(tail)
    ensures IsText(p + ";" + (" " + tail)) <==> IsText(p) && IsText(tail)
  {
    var joined := p + ";" + (" " + tail);
    assert forall c :: c in joined <==> c in p || c == ';' || c == ' ' || c in tail;
  }

  /** One byte outside visible ASCII, in any cookie, makes the whole header unreadable. */
  lemma {:induction false} HeaderIsTextIff(pairs: seq<string>)
    requires pairs != [] && forall p <- pairs :: Plain(p)
    ensures IsWire(CookieHeader(pairs))
    ensures IsText(CookieHeader(pairs)) <==> AllText(pairs)
  {
    var p := pairs[0];
    assert p in pairs && Plain(p);
    if |pairs| == 1 {
      assert forall q <- pairs :: q == p;
    } else {
      var tail := CookieHeader(pairs[1..]);
      HeaderIsTextIff(pairs[1..]);
      TextOfJoin(p, tail);
      assert forall q :: q in pairs <==> q == p || q in pairs[1..];
    }
  }

  /**
   Wherever the session cookie stands among the browser's cookies, and unless an earlier name
   starts alike, its value is found exactly when every one of them reads as text.
   */
  lemma SessionCookieIsFound(pairs: seq<string>, i: nat, id: string)
    requires i < |pairs| && forall p <- pairs :: Plain(p)
    requires pairs[i] == COOKIE_NAME + "=" + id && id != ""
    requires forall j :: 0 <= j < i ==> !(COOKIE_NAME <= pairs[j]) || pairs[j] == COOKIE_NAME + "="
    ensures IsWire(CookieHeader(pairs))
    ensures SessionIdIn(Some(Bytes(CookieHeader(pairs)))) == if AllText(pairs) then Some(id) else None
  {
    HeaderIsTextIff(pairs);
    SentIsReadIffText(CookieHeader(pairs));
    HeaderSplits(pairs);
    var parts := Split(CookieHeader(pairs), ';');
    assert Trim(parts[i]) == COOKIE_NAME + "=" + id;
    assert forall j :: 0 <= j < i ==> Trim(parts[j]) == pairs[j];
    assert FirstAt(parts, id, i);
    FoundIffFirst(parts, id);
  }

  lemma AttributesSplit(maxAge: string, secure: bool)
    requires ';' !in maxAge
    ensures Split(Attributes(maxAge, secure), ';') ==
      [" Path=/", " HttpOnly", " SameSite=Strict", " Max-Age=" + maxAge] + if secure then [" Secure"] else []
  {
    var age := " Max-Age=" + maxAge;
    assert ';' !in " Max-Age=" && ';' !in age;
    var a4 := age + if secure then ";" + " Secure" else "";
    AgeSplits(age, secure);
    var a3 := " SameSite=Strict" + ";" + a4;
    SplitFirst(" SameSite=Strict", ';', a4);
    SplitFirst(" HttpOnly", ';', a3);
    SplitFirst(" Path=/", ';', " HttpOnly" + ";" + a3);
  }

  lemma AgeSplits(age: string, secure: bool)
    requires ';' !in age
    ensures Split(age + if secure then ";" + " Secure" else "", ';') == [age] + if secure then [" Secure"] else []
  {
    if secure {
      assert age + (";" + " Secure") == age + ";" + " Secure";
      SplitFirst(age, ';', " Secure");
      SplitPlain(" Secure", ';');
    } else {
      assert age + "" == age;
      SplitPlain(age, ';');
    }
  }

  /**
   All a browser reads in the login's Set-Cookie header: for the whole site, out of scripts' reach,
   not sent across sites, kept for the session's time to live, and after a login over TLS sent
   over TLS only.
   */
  lemma SessionCookieAttributes(id: string, maxAge: nat, tls: bool)
    requires ';' !in id
    ensures Split(BuildSessionCookie(id, maxAge, tls), ';') ==
      ["zo-session" + "=" + id, " Path=/", " HttpOnly", " SameSite=Strict", " Max-Age=" + Decimal(maxAge)]
      + if tls then [" Secure"] else []
    ensures Numeral(Decimal(maxAge)) == maxAge
  {
    NumeralOfDecimal(maxAge);
    assert forall c <- Decimal(maxAge) :: IsDigit(c) && c != ';';
    AttributesSplit(Decimal(maxAge), tls);
    StoredPair(id, Attributes(Decimal(maxAge), tls));
  }

  /** The logout's header overwrites that cookie with an empty one that expires at once. */
  lemma ClearCookieAttributes()
    ensures Split(BuildClearCookie(), ';') ==
      ["zo-session" + "=", " Path=/", " HttpOnly", " SameSite=Strict", " Max-Age=" + "0"]
  {
    AttributesSplit("0", false);
    assert COOKIE_NAME + "=" + "" == COOKIE_NAME + "=";
    StoredPair("", Attributes("0", false));
  }

  /** The pair a browser stores is the one before the first semicolon. */
  lemma StoredPair(id: string, rest: string)
    requires ';' !in id
    ensures Split(COOKIE_NAME + "=" + id + ";" + rest, ';') == [COOKIE_NAME + "=" + id] + Split(rest, ';')
  {
    assert ';' !in COOKIE_NAME + "=";
    SplitFirst(COOKIE_NAME + "=" + id, ';', rest);
  }
}

/** Logins kept in memory, expired ones dropped only when they are next asked for. */
module Logins {
  import opened Wrappers
  import opened Headers
  import Cookies

  datatype Op = Create(id: string) | Validate(id: string) | Invalidate(id: string)

  datatype Event = Event(op: Op, now: nat)

  type Sessions = map<string, nat>

  predicate Accepts(ttl: nat, sessions: Sessions, id: string, now: nat) {
    id in sessions && WholeSeconds(sessions[id], now) < ttl
  }

  /** Whether a request with this Cookie header is let in. */
  predicate Authenticated(ttl: nat, sessions: Sessions, cookies: Option<seq<byte>>, now: nat) {
    var id := Cookies.SessionIdIn(cookies);
    id.Some? && Accepts(ttl, sessions, id.value, now)
  }

  function Applied(ttl: nat, sessions: Sessions, e: Event): Sessions {
    match e.op
    case Create(id) => sessions[id := e.now]
    case Invalidate(id) => sessions - {id}
    case Validate(id) => if Accepts(ttl, sessions, id, e.now) then sessions else sessions - {id}
  }

  /** A request looks up the session it carries, and nothing else. */
  function Visited(ttl: nat, sessions: Sessions, cookies: Option<seq<byte>>, now: nat): Sessions {
    var id := Cookies.SessionIdIn(cookies);
    if id.Some? then Applied(ttl, sessions, Event(Validate(id.value), now)) else sessions
  }

  /** What reaches the dashboard; a login brings a token and, if one is needed, a new session id. */
  datatype Request =
    | Visit(cookies: Option<seq<byte>>)
    | Login(cookies: Option<seq<byte>>, tokenOk: bool, newId: string)
    | Logout(cookies: Option<seq<byte>>)

  /** The store after a request, with authentication on. */
  function Handled(ttl: nat, sessions: Sessions, r: Request, now: nat): Sessions {
    match r
    case Visit(cookies) => Visited(ttl, sessions, cookies, now)
    case Login(cookies, tokenOk, newId) =>
      var visited := Visited(ttl, sessions, cookies, now);
      if tokenOk && !Authenticated(ttl, sessions, cookies, now) then visited[newId := now] else visited
    case Logout(cookies) =>
      var id := Cookies.SessionIdIn(cookies);
      if id.Some? then sessions - {id.value} else sessions
  }

  class SessionStore {
    var sessions: Sessions
    const ttlSecs: nat

    constructor (ttlSecs: nat)
      ensures this.ttlSecs == ttlSecs && sessions == map[]
    {
      this.ttlSecs, sessions := ttlSecs, map[];
    }

    method Create(id: string, now: nat)
      modifies this
      ensures sessions == Applied(ttlSecs, old(sessions), Event(Op.Create(id), now))
    {
      sessions := sessions[id := now];
    }

    method Validate(id: string, now: nat) returns (ok: bool)
      modifies this
      ensures ok == Accepts(ttlSecs, old(sessions), id, now)
      ensures sessions == Applied(ttlSecs, old(sessions), Event(Op.Validate(id), now))
    {
      if id in sessions {
        if WholeSeconds(sessions[id], now) < ttlSecs {
          return true;
        }
        sessions := sessions - {id};
      }
      assert id !in sessions ==> sessions - {id} == sessions;
      return false;
    }

    method Invalidate(id: string)
      modifies this
      ensures sessions == old(sessions) - {id}
      ensures forall now :: sessions == Applied(ttlSecs, old(sessions), Event(Op.Invalidate(id), now))
    {
      sessions := sessions - {id};
    }

    method IsAuthenticated(authEnabled: bool, cookies: Option<seq<byte>>, now: nat) returns (ok: bool)
      modifies this
      ensures !authEnabled ==> ok && unchanged(this)
      ensures authEnabled ==>
        && ok == Authenticated(ttlSecs, old(sessions), cookies, now)
        && sessions == Visited(ttlSecs, old(sessions), cookies, now)
    {
      if !authEnabled {
        return true;
      }
      var id := Cookies.ExtractSessionId(cookies);
      if id.Some? {
        ok := Validate(id.value, now);
        return;
      }
      return false;
    }

    /** A visitor who is already logged in gets no second session. */
    method ApiLogin(authEnabled: bool, cookies: Option<seq<byte>>, tokenOk: bool, newId: string, now: nat, tls: bool)
      returns (ok: bool, cookie: Option<string>)
      modifies this
      ensures !authEnabled ==> ok && cookie == None && unchanged(this)
      ensures authEnabled ==>
        var already := Authenticated(ttlSecs, old(sessions), cookies, now);
        && sessions == Handled(ttlSecs, old(sessions), Login(cookies, tokenOk, newId), now)
        && ok == (already || tokenOk)
        && cookie == if !already && tokenOk then Some(Cookies.BuildSessionCookie(newId, ttlSecs, tls)) else None
    {
      if !authEnabled {
        return true, None;
      }
      var already := IsAuthenticated(authEnabled, cookies, now);
      if already {
        return true, None;
      }
      if tokenOk {
        Create(newId, now);
        return true, Some(Cookies.BuildSessionCookie(newId, ttlSecs, tls));
      }
      return false, None;
    }

    method ApiLogout(cookies: Option<seq<byte>>) returns (cookie: string)
      modifies this
      ensures forall now :: sessions == Handled(ttlSecs, old(sessions), Logout(cookies), now)
      ensures cookie == Cookies.BuildClearCookie()
    {
      var id := Cookies.ExtractSessionId(cookies);
      if id.Some? {
        Invalidate(id.value);
      }
      cookie := Cookies.BuildClearCookie();
    }
  }

  // ----- histories -----

  function After(ttl: nat, t: seq<Event>): Sessions {
    if t == [] then map[] else Applied(ttl, After(ttl, t[..|t| - 1]), t[|t| - 1])
  }

  /** When a session was created, if it has not been invalidated since. Expiry plays no part. */
  function CreatedAt(t: seq<Event>, id: string): Option<nat> {
    if t == [] then None
    else
      var e := t[|t| - 1];
      if e.op == Create(id) then Some(e.now)
      else if e.op == Invalidate(id) then None
      else CreatedAt(t[..|t| - 1], id)
  }

  predicate Ordered(t: seq<Event>, now: nat) {
    && (forall i, j :: 0 <= i <= j < |t| ==> t[i].now <= t[j].now)
    && (forall i :: 0 <= i < |t| ==> t[i].now <= now)
  }

  lemma AgeGrows(created: nat, now: nat, later: nat)
    requires now <= later
    ensures WholeSeconds(created, now) <= WholeSeconds(created, later)
  {
    if now >= created {
      assert (later - created) / SECOND >= (now - created) / SECOND;
    }
  }

  /** Counting whole seconds, a session lives for exactly its time to live. */
  lemma YoungMeansBeforeExpiry(created: nat, now: nat, ttl: nat)
    requires created <= now
    ensures WholeSeconds(created, now) < ttl <==> now < created + ttl * SECOND
  {
  }

  /** Only expired sessions are ever missing from the store. */
  lemma {:induction false} StoreKeepsTheLiving(ttl: nat, t: seq<Event>, now: nat, id: string)
    requires Ordered(t, now)
    ensures var store := After(ttl, t);
      if id in store then CreatedAt(t, id) == Some(store[id])
      else CreatedAt(t, id).None? || WholeSeconds(CreatedAt(t, id).value, now) >= ttl
  {
    if t != [] {
      var e := t[|t| - 1];
      StoreKeepsTheLiving(ttl, t[..|t| - 1], e.now, id);
      var created := CreatedAt(t[..|t| - 1], id);
      if created.Some? {
        AgeGrows(created.value, e.now, now);
      }
    }
  }

  lemma {:induction false} CreatedInThePast(t: seq<Event>, now: nat, id: string)
    requires Ordered(t, now) && CreatedAt(t, id).Some?
    ensures CreatedAt(t, id).value <= now
  {
    if t[|t| - 1].op != Create(id) {
      CreatedInThePast(t[..|t| - 1], now, id);
    }
  }

  /**
   The lazily evicting store answers as the history does: created, not logged out since, and not
   yet past its time to live.
   */
  lemma ValidateAnswersTheHistory(ttl: nat, t: seq<Event>, now: nat, id: string)
    requires Ordered(t, now)
    ensures Accepts(ttl, After(ttl, t), id, now) <==>
      CreatedAt(t, id).Some? && now < CreatedAt(t, id).value + ttl * SECOND
  {
    StoreKeepsTheLiving(ttl, t, now, id);
    if CreatedAt(t, id).Some? {
      CreatedInThePast(t, now, id);
      YoungMeansBeforeExpiry(CreatedAt(t, id).value, now, ttl);
    }
  }

  lemma {:induction false} CreationStands(t: seq<Event>, u: seq<Event>, id: string, created: nat)
    requires forall e <- u :: e.op != Create(id) && e.op != Invalidate(id)
    ensures CreatedAt(t + [Event(Create(id), created)] + u, id) == Some(created)
  {
    var all := t + [Event(Create(id), created)] + u;
    if u != [] {
      assert all[|all| - 1] == u[|u| - 1] && u[|u| - 1] in u;
      assert all[..|all| - 1] == t + [Event(Create(id), created)] + u[..|u| - 1];
      CreationStands(t, u[..|u| - 1], id, created);
    }
  }

  /**
   From the login response to a later request: with the stored cookie among the browser's, and
   until logout, a request is authenticated exactly while the session is younger than its time to
   live and all the browser's cookies read as text.
   */
  lemma LoginLastsUntilExpiry(
      ttl: nat, t: seq<Event>, u: seq<Event>, id: string, created: nat, now: nat, pairs: seq<string>, i: nat)
    requires id != "" && i < |pairs| && (forall p <- pairs :: Cookies.Plain(p))
    requires pairs[i] == Cookies.COOKIE_NAME + "=" + id
    requires forall j :: 0 <= j < i ==>
      !(Cookies.COOKIE_NAME <= pairs[j]) || pairs[j] == Cookies.COOKIE_NAME + "="
    requires forall e <- u :: e.op != Create(id) && e.op != Invalidate(id)
    requires Ordered(t + [Event(Create(id), created)] + u, now)
    ensures IsWire(Cookies.CookieHeader(pairs))
    ensures var store := After(ttl, t + [Event(Create(id), created)] + u);
      Authenticated(ttl, store, Some(Bytes(Cookies.CookieHeader(pairs))), now)
      <==> Cookies.AllText(pairs) && now < created + ttl * SECOND
  {
    Cookies.SessionCookieIsFound(pairs, i, id);
    CreationStands(t, u, id, created);
    ValidateAnswersTheHistory(ttl, t + [Event(Create(id), created)] + u, now, id);
  }

  /** A login that the code forgets: one accented sibling cookie, and the fresh session is not seen. */
  lemma AccentedSiblingHidesLogin(ttl: nat, id: string, created: nat)
    requires ttl > 0 && id != "" && Cookies.Plain(id)
    ensures var store := After(ttl, [Event(Create(id), created)]);
      && Accepts(ttl, store, id, created)
      && var pairs := ["who=\U{E9}", Cookies.COOKIE_NAME + "=" + id];
      IsWire(Cookies.CookieHeader(pairs))
      && !Authenticated(ttl, store, Some(Bytes(Cookies.CookieHeader(pairs))), created)
  {
    var pairs := ["who=\U{E9}", Cookies.COOKIE_NAME + "=" + id];
    assert pairs[0][4] == '\U{E9}' && pairs[0][4] in pairs[0] && !IsText(pairs[0]) && pairs[0] in pairs;
    assert forall p <- pairs :: Cookies.Plain(p);
    var t: seq<Event> := [Event(Create(id), created)];
    assert [] + t + [] == t;
    LoginLastsUntilExpiry(ttl, [], [], id, created, created, pairs, 1);
  }

  // ----- requests, one after the other -----

  datatype Timed = Timed(request: Request, now: nat)

  function StoreAfter(ttl: nat, rs: seq<Timed>): Sessions {
    if rs == [] then map[]
    else Handled(ttl, StoreAfter(ttl, rs[..|rs| - 1]), rs[|rs| - 1].request, rs[|rs| - 1].now)
  }

  predicate InOrder(rs: seq<Timed>, now: nat) {
    && (forall i, j :: 0 <= i <= j < |rs| ==> rs[i].now <= rs[j].now)
    && (forall i :: 0 <= i < |rs| ==> rs[i].now <= now)
  }

  /** When a login gave out this session id, if nobody has logged out with it since. No store, no eviction. */
  function LoggedInAt(ttl: nat, rs: seq<Timed>, id: string): Option<nat>
    decreases |rs|, 0
  {
    if rs == [] then None
    else
      var rest, last := rs[..|rs| - 1], rs[|rs| - 1];
      match last.request
      case Login(cookies, tokenOk, newId) =>
        if newId == id && tokenOk && !LetIn(ttl, rest, cookies, last.now) then Some(last.now)
        else LoggedInAt(ttl, rest, id)
      case Logout(cookies) => if Cookies.SessionIdIn(cookies) == Some(id) then None else LoggedInAt(ttl, rest, id)
      case Visit(_) => LoggedInAt(ttl, rest, id)
  }

  /** The request carries a session that was logged in and is not yet past its time to live. */
  predicate LetIn(ttl: nat, rs: seq<Timed>, cookies: Option<seq<byte>>, now: nat)
    decreases |rs|, 1
  {
    var id := Cookies.SessionIdIn(cookies);
    id.Some? &&
    var since := LoggedInAt(ttl, rs, id.value);
    since.Some? && now < since.value + ttl * SECOND
  }

  /** The store agrees with the logins on one id. */
  ghost predicate Agrees(ttl: nat, store: Sessions, since: Option<nat>, id: string, now: nat) {
    && (since.Some? ==> since.value <= now)
    && (if id in store then since == Some(store[id]) else since.None? || since.value + ttl * SECOND <= now)
  }

  lemma AgreementAnswers(ttl: nat, store: Sessions, since: Option<nat>, id: string, now: nat)
    requires Agrees(ttl, store, since, id, now)
    ensures Accepts(ttl, store, id, now) <==> since.Some? && now < since.value + ttl * SECOND
  {
    if since.Some? {
      YoungMeansBeforeExpiry(since.value, now, ttl);
    }
  }

  lemma HandledAgrees(ttl: nat, store: Sessions, r: Timed, letIn: bool, since: Option<nat>, id: string)
    requires Agrees(ttl, store, since, id, r.now)
    requires r.request.Login? ==> letIn == Authenticated(ttl, store, r.request.cookies, r.now)
    ensures var since' :=
        match r.request
        case Login(_, tokenOk, newId) => if newId == id && tokenOk && !letIn then Some(r.now) else since
        case Logout(cookies) => if Cookies.SessionIdIn(cookies) == Some(id) then None else since
        case Visit(_) => since;
      Agrees(ttl, Handled(ttl, store, r.request, r.now), since', id, r.now)
  {
    AgreementAnswers(ttl, store, since, id, r.now);
  }

  lemma {:induction false} StoreFollowsLogins(ttl: nat, rs: seq<Timed>, now: nat, id: string)
    requires InOrder(rs, now)
    ensures Agrees(ttl, StoreAfter(ttl, rs), LoggedInAt(ttl, rs, id), id, now)
    decreases |rs|, 0
  {
    if rs != [] {
      var rest, last := rs[..|rs| - 1], rs[|rs| - 1];
      StoreFollowsLogins(ttl, rest, last.now, id);
      if last.request.Login? {
        RequestsAnsweredByLogins(ttl, rest, last.request.cookies, last.now);
        HandledAgrees(ttl, StoreAfter(ttl, rest), last, LetIn(ttl, rest, last.request.cookies, last.now),
          LoggedInAt(ttl, rest, id), id);
      } else {
        HandledAgrees(ttl, StoreAfter(ttl, rest), last, false, LoggedInAt(ttl, rest, id), id);
      }
    }
  }

  /**
   After any sequence of visits, logins and logouts, by any number of browsers, a request is let in
   exactly when the session it carries was logged in, not logged out since, and is not yet past its
   time to live. What other requests evicted in between makes no difference.
   */
  lemma {:induction false} RequestsAnsweredByLogins(ttl: nat, rs: seq<Timed>, cookies: Option<seq<byte>>, now: nat)
    requires InOrder(rs, now)
    ensures Authenticated(ttl, StoreAfter(ttl, rs), cookies, now) <==> LetIn(ttl, rs, cookies, now)
    decreases |rs|, 1
  {
    var id := Cookies.SessionIdIn(cookies);
    if id.Some? {
      StoreFollowsLogins(ttl, rs, now, id.value);
      AgreementAnswers(ttl, StoreAfter(ttl, rs), LoggedInAt(ttl, rs, id.value), id.value, now);
    }
  }
}
