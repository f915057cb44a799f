/**
 Route files for the front proxy: one shared base file and one file per tunnel name, in a
 directory modelled as a map from file names to contents. File operations succeed.
 */
module Traefik {
  import opened Wrappers
  import opened Text

  const SHARED_SERVICE := "zo-tunnel-server"
  const BASE_FILE := "_zo-tunnel-base.yml"

  datatype Config = Config(domain: string, entrypoint: string, certResolver: string, serviceUrl: string)

  type Directory = map<string, string>

  predicate IsSafe(c: char) {
    'a' <= c <= 'z' || 'A' <= c <= 'Z' || '0' <= c <= '9' || c == '-' || c == '_'
  }

  function Clean(c: char): char { if IsSafe(c) then c else '_' }

  function SanitizeId(id: string): (safe: string)
    ensures |safe| == |id|
    ensures forall i :: 0 <= i < |id| ==> safe[i] == Clean(id[i])
  {
    if id == "" then "" else [Clean(id[0])] + SanitizeId(id[1..])
  }

  function ClientFile(safe: string): string {
    "zo-tunnel-" + safe + ".yml"
  }

  const RULE := "      rule: \"Host(`"
  const RULE_END := "`)\""
  const ENTRY := "        - \""
  const SERVICE := "      service: "
  const RESOLVER := "        certResolver: "
  const URL := "          - url: \""

  /** One router after its name: the host it matches, and where it sends requests. */
  function RouterBody(cfg: Config): seq<string> {
    ["      entryPoints:", ENTRY + cfg.entrypoint + "\"", SERVICE + SHARED_SERVICE,
     "      tls:", RESOLVER + cfg.certResolver]
  }

  function Router(cfg: Config, name: string, host: string): seq<string> {
    ["    " + name + ":"] + [RULE + host + RULE_END] + RouterBody(cfg)
  }

  const TOP: seq<string> := ["http:", "  routers:"]

  function ClientLines(cfg: Config, id: string): seq<string> {
    TOP + Router(cfg, "zo-tunnel-" + SanitizeId(id), id + "." + cfg.domain)
  }

  function ClientRoute(cfg: Config, id: string): string {
    Lines(ClientLines(cfg, id))
  }

  function ServiceLines(cfg: Config): seq<string> {
    ["  services:", "    " + SHARED_SERVICE + ":", "      loadBalancer:", "        servers:",
     URL + cfg.serviceUrl + "\""]
  }

  function DashboardRouter(cfg: Config): seq<string> {
    Router(cfg, "zo-tunnel-dashboard", "dashboard." + cfg.domain)
  }

  function ApexRouter(cfg: Config): seq<string> {
    Router(cfg, "zo-tunnel-apex", cfg.domain)
  }

  function StaticLines(cfg: Config): seq<string> {
    TOP + DashboardRouter(cfg) + ApexRouter(cfg) + ServiceLines(cfg)
  }

  function StaticRoutes(cfg: Config): string {
    Lines(StaticLines(cfg))
  }

  /** Leftovers of an older naming scheme. */
  predicate IsLegacy(name: string) {
    "zo-" <= name && EndsWith(name, ".yml") && !("zo-tunnel-" <= name) && name != "zo-static.yml"
  }

  datatype Op = WriteStatic | AddClient(id: string) | Cleanup

  /** The effect of each operation, rewriting unconditionally. */
  function Applied(cfg: Config, dir: Directory, op: Op): Directory {
    match op
    case WriteStatic => dir[BASE_FILE := StaticRoutes(cfg)]
    case AddClient(id) => dir[ClientFile(SanitizeId(id)) := ClientRoute(cfg, id)]
    case Cleanup => map name | name in dir && !IsLegacy(name) :: dir[name]
  }

  class TraefikManager {
    const cfg: Config
    var dir: Directory
    var writes: nat

    constructor (cfg: Config, dir: Directory)
      ensures this.cfg == cfg && this.dir == dir && writes == 0
    {
      this.cfg, this.dir, writes := cfg, dir, 0;
    }

    method WriteStaticRoutes()
      modifies this
      ensures dir == Applied(cfg, old(dir), WriteStatic) && writes == old(writes) + 1
    {
      dir, writes := dir[BASE_FILE := StaticRoutes(cfg)], writes + 1;
    }

    /** Skips the write when the file already holds the route. */
    method AddClientRoute(id: string)
      modifies this
      ensures dir == Applied(cfg, old(dir), AddClient(id))
      ensures writes == old(writes) + if old(dir) == dir then 0 else 1
    {
      var safe := SanitizeId(id);
      var content, path := ClientRoute(cfg, id), ClientFile(safe);
      if path in dir {
        var existing := dir[path];
        if existing == content {
          return;
        }
      }
      dir, writes := dir[path := content], writes + 1;
    }

    method CleanupLegacyRoutes()
      modifies this`dir
      ensures dir == Applied(cfg, old(dir), Cleanup)
    {
      var todo := dir.Keys;
      while todo != {}
        invariant todo <= old(dir).Keys
        invariant dir == map name | name in old(dir) && (name in todo || !IsLegacy(name)) :: old(dir)[name]
        decreases todo
      {
        var name :| name in todo;
        if IsLegacy(name) {
          dir := dir - {name};
        }
        todo := todo - {name};
      }
    }
  }

  // ----- runs -----

  function After(cfg: Config, dir: Directory, ops: seq<Op>): Directory {
    if ops == [] then dir else Applied(cfg, After(cfg, dir, ops[..|ops| - 1]), ops[|ops| - 1])
  }

  /** The last id added under a file name, if any. */
  function LastAdded(ops: seq<Op>, safe: string): (id: Option<string>)
    ensures id.Some? ==> SanitizeId(id.value) == safe
  {
    if ops == [] then None
    else
      var op := ops[|ops| - 1];
      if op.AddClient? && SanitizeId(op.id) == safe then Some(op.id) else LastAdded(ops[..|ops| - 1], safe)
  }

  lemma ClientFileFacts(a: string, b: string)
    ensures ClientFile(a) == ClientFile(b) <==> a == b
    ensures ClientFile(a) != BASE_FILE && !IsLegacy(ClientFile(a)) && !IsLegacy(BASE_FILE)
    ensures EndsWith(ClientFile(a), ".yml")
  {
    if ClientFile(a) == ClientFile(b) {
      assert ClientFile(a)[10..10 + |a|] == a && ClientFile(b)[10..10 + |b|] == b;
    }
    assert ClientFile(a)[0] == 'z' && BASE_FILE[0] == '_';
    assert "zo-tunnel-" <= ClientFile(a);
  }

  /** No operation ever loses a client's route file, and each file holds the route added under it last. */
  lemma {:induction false} FilesHoldLastRoute(cfg: Config, dir: Directory, ops: seq<Op>, safe: string)
    requires LastAdded(ops, safe).Some?
    ensures ClientFile(safe) in After(cfg, dir, ops)
    ensures After(cfg, dir, ops)[ClientFile(safe)] == ClientRoute(cfg, LastAdded(ops, safe).value)
  {
    var op := ops[|ops| - 1];
    ClientFileFacts(safe, if op.AddClient? then SanitizeId(op.id) else safe);
    if !(op.AddClient? && SanitizeId(op.id) == safe) {
      FilesHoldLastRoute(cfg, dir, ops[..|ops| - 1], safe);
    }
  }

  /** A file nobody added is as it was, present or not. */
  lemma {:induction false} FileNobodyAdded(cfg: Config, dir: Directory, ops: seq<Op>, safe: string)
    requires LastAdded(ops, safe).None?
    ensures var file, dir' := ClientFile(safe), After(cfg, dir, ops);
      (file in dir' <==> file in dir) && (file in dir ==> dir'[file] == dir[file])
  {
    if ops != [] {
      var op := ops[|ops| - 1];
      ClientFileFacts(safe, if op.AddClient? then SanitizeId(op.id) else "");
      FileNobodyAdded(cfg, dir, ops[..|ops| - 1], safe);
    }
  }

  lemma StepKeepsBase(cfg: Config, dir: Directory, op: Op)
    requires op.WriteStatic? || (BASE_FILE in dir && dir[BASE_FILE] == StaticRoutes(cfg))
    ensures BASE_FILE in Applied(cfg, dir, op) && Applied(cfg, dir, op)[BASE_FILE] == StaticRoutes(cfg)
  {
    ClientFileFacts(if op.AddClient? then SanitizeId(op.id) else "", "");
  }

  /** Once written, the base file stays as written. */
  lemma {:induction false} BaseFileSurvives(cfg: Config, dir: Directory, ops: seq<Op>)
    requires WriteStatic in ops
    ensures BASE_FILE in After(cfg, dir, ops) && After(cfg, dir, ops)[BASE_FILE] == StaticRoutes(cfg)
  {
    var rest, op := ops[..|ops| - 1], ops[|ops| - 1];
    if !op.WriteStatic? {
      assert WriteStatic in rest;
      BaseFileSurvives(cfg, dir, rest);
    }
    StepKeepsBase(cfg, After(cfg, dir, rest), op);
  }

  lemma Middle(head: string, a: string, tail: string)
    ensures head + a + tail == head + (a + tail)
    ensures (head + a + tail)[|head|..|head| + |a|] == a
  {
  }

  /** Routes of two ids that share a file differ. */
  lemma RouteTellsId(cfg: Config, a: string, b: string)
    requires SanitizeId(a) == SanitizeId(b)
    ensures ClientRoute(cfg, a) == ClientRoute(cfg, b) <==> a == b
  {
    RouteAround(cfg, a);
    RouteAround(cfg, b);
    Middle(RouteHead(SanitizeId(a)), a, RouteTail(cfg));
    Middle(RouteHead(SanitizeId(b)), b, RouteTail(cfg));
    assert |a| == |b|;
  }

  function RouteHead(safe: string): string {
    Lines(TOP + ["    " + ("zo-tunnel-" + safe) + ":"]) + RULE
  }

  function RouteTail(cfg: Config): string {
    "." + cfg.domain + RULE_END + "\n" + Lines(RouterBody(cfg))
  }

  lemma RuleSplits(before: string, id: string, after: string, rest: string)
    ensures before + (RULE + (id + after) + RULE_END + "\n" + rest)
         == before + RULE + id + (after + RULE_END + "\n" + rest)
  {
    var tail := after + RULE_END + "\n" + rest;
    assert RULE + (id + after) + RULE_END + "\n" + rest == RULE + (id + tail);
    assert before + (RULE + (id + tail)) == before + RULE + id + tail;
  }

  lemma RouteAround(cfg: Config, id: string)
    ensures ClientRoute(cfg, id) == RouteHead(SanitizeId(id)) + id + RouteTail(cfg)
  {
    var top, body := TOP + ["    " + ("zo-tunnel-" + SanitizeId(id)) + ":"], RouterBody(cfg);
    var rule := RULE + (id + ("." + cfg.domain)) + RULE_END;
    assert id + "." + cfg.domain == id + ("." + cfg.domain);
    assert ClientLines(cfg, id) == top + ([rule] + body);
    LinesConcat(top, [rule] + body);
    assert ([rule] + body)[1..] == body;
    RuleSplits(Lines(top), id, "." + cfg.domain, Lines(body));
  }

  /** A client's file serves its own host exactly while no later client's id was sanitised to the same name. */
  lemma FileServesOwnHostIffLast(cfg: Config, dir: Directory, ops: seq<Op>, id: string)
    requires AddClient(id) in ops
    ensures ClientFile(SanitizeId(id)) in After(cfg, dir, ops)
    ensures After(cfg, dir, ops)[ClientFile(SanitizeId(id))] == ClientRoute(cfg, id)
       <==> LastAdded(ops, SanitizeId(id)) == Some(id)
  {
    AddedIsListed(ops, id);
    FilesHoldLastRoute(cfg, dir, ops, SanitizeId(id));
    RouteTellsId(cfg, id, LastAdded(ops, SanitizeId(id)).value);
  }

  lemma {:induction false} AddedIsListed(ops: seq<Op>, id: string)
    requires AddClient(id) in ops
    ensures LastAdded(ops, SanitizeId(id)).Some? && AddClient(LastAdded(ops, SanitizeId(id)).value) in ops
  {
    var op := ops[|ops| - 1];
    if !(op.AddClient? && SanitizeId(op.id) == SanitizeId(id)) {
      assert AddClient(id) in ops[..|ops| - 1];
      AddedIsListed(ops[..|ops| - 1], id);
    }
  }

  /** Among ids that need no sanitising there are no collisions: every added client keeps its own route. */
  lemma CleanIdsNeverCollide(cfg: Config, dir: Directory, ops: seq<Op>, id: string)
    requires AddClient(id) in ops && forall op <- ops :: op.AddClient? ==> SanitizeId(op.id) == op.id
    ensures ClientFile(id) in After(cfg, dir, ops) && After(cfg, dir, ops)[ClientFile(id)] == ClientRoute(cfg, id)
  {
    AddedIsListed(ops, id);
    FileServesOwnHostIffLast(cfg, dir, ops, id);
  }

  /** The characters kept as they are, by their ASCII codes: digits, letters, hyphen and underscore. */
  lemma SafeCharacters(c: char)
    ensures var n := c as int;
      IsSafe(c) <==> 48 <= n <= 57 || 65 <= n <= 90 || 97 <= n <= 122 || n == 45 || n == 95
    ensures Clean(c) == if IsSafe(c) then c else '_'
  {
    assert '0' as int == 48 && 'A' as int == 65 && 'a' as int == 97 && '-' as int == 45 && '_' as int == 95;
  }

  /** Leftovers are exactly the files `zo-` something `.yml`, but no tunnel's and not the old base file. */
  lemma LegacyFiles(name: string)
    ensures IsLegacy(name) <==>
      name != "zo-static.yml" && exists middle :: name == "zo-" + middle + ".yml" && !("tunnel-" <= middle)
  {
    if "zo-" <= name && EndsWith(name, ".yml") {
      assert name[|name| - 4..][0] == '.' && name[0] == 'z' && name[1] == 'o' && name[2] == '-';
      var middle := name[3..|name| - 4];
      assert name == "zo-" + middle + ".yml";
      TunnelPrefix(middle);
    }
    forall middle | name == "zo-" + middle + ".yml" ensures "zo-" <= name && EndsWith(name, ".yml")
      ensures "zo-tunnel-" <= name <==> "tunnel-" <= middle
    {
      TunnelPrefix(middle);
    }
  }

  lemma TunnelPrefix(middle: string)
    ensures "zo-tunnel-" <= "zo-" + middle + ".yml" <==> "tunnel-" <= middle
    ensures EndsWith("zo-" + middle + ".yml", ".yml")
  {
    var name := "zo-" + middle + ".yml";
    assert name[|name| - 4..] == ".yml";
    if |middle| >= 7 {
      assert name[..10] == "zo-" + middle[..7];
      assert "zo-tunnel-" == "zo-" + "tunnel-";
      assert name[3..10] == middle[..7] && "zo-tunnel-"[3..] == "tunnel-";
    } else {
      assert name[3 + |middle|] == '.' && "zo-tunnel-"[3 + |middle|] != '.';
    }
  }

  /** Sanitising twice changes nothing, and the ids it leaves alone are the ones made of safe characters. */
  lemma SanitizeIsIdempotent(id: string)
    ensures SanitizeId(SanitizeId(id)) == SanitizeId(id)
    ensures SanitizeId(id) == id <==> forall i :: 0 <= i < |id| ==> IsSafe(id[i])
  {
    var safe := SanitizeId(id);
    assert forall i :: 0 <= i < |id| ==> IsSafe(safe[i]);
    if forall i :: 0 <= i < |id| ==> IsSafe(id[i]) {
      assert safe == id;
    }
  }

  /** Two ids share a file exactly when they differ only where both have an underscore or an unsafe character. */
  lemma WhichIdsCollide(a: string, b: string)
    ensures SanitizeId(a) == SanitizeId(b) <==>
      |a| == |b| && forall i :: 0 <= i < |a| ==> a[i] == b[i] || Clean(a[i]) == Clean(b[i]) == '_'
  {
    var sa, sb := SanitizeId(a), SanitizeId(b);
    if sa == sb {
      forall i | 0 <= i < |a| ensures a[i] == b[i] || Clean(a[i]) == Clean(b[i]) == '_' {
        assert sa[i] == sb[i];
      }
    } else if |a| == |b| {
      var i :| 0 <= i < |a| && sa[i] != sb[i];
    }
  }

  // ----- what the front proxy reads in the files -----

  predicate Holds(line: string, before: string, after: string) {
    |before| + |after| <= |line| && before <= line && EndsWith(line, after)
  }

  /** What stands between `before` and `after` on the lines that have both. */
  function Values(ls: seq<string>, before: string, after: string): seq<string> {
    if ls == [] then []
    else
      var rest := Values(ls[1..], before, after);
      if Holds(ls[0], before, after) then [ls[0][|before|..|ls[0]| - |after|]] + rest else rest
  }

  lemma {:induction false} ValuesConcat(a: seq<string>, b: seq<string>, before: string, after: string)
    ensures Values(a + b, before, after) == Values(a, before, after) + Values(b, before, after)
  {
    if a == [] {
      assert a + b == b;
    } else {
      ValuesConcat(a[1..], b, before, after);
      assert (a + b)[1..] == a[1..] + b;
    }
  }

  /** A line that differs from the key early holds no value of it. */
  lemma NoValue(line: string, before: string, after: string, i: nat)
    requires i < |before| && (i < |line| ==> line[i] != before[i])
    ensures Values([line], before, after) == []
  {
    Alone(line);
  }

  lemma Alone(line: string)
    ensures [line][1..] == []
  {
  }

  lemma OneValue(before: string, value: string, after: string)
    ensures Values([before + value + after], before, after) == [value]
  {
    var line := before + value + after;
    Alone(line);
    assert line[|before|..|line| - |after|] == value && before <= line && line[|line| - |after|..] == after;
  }

  /** A router's values are those of its lines below the name. */
  lemma RouterValues(cfg: Config, name: string, host: string, before: string, after: string)
    requires name != "" && name[0] != ' ' && |before| > 4 && before[4] == ' '
    ensures Values(Router(cfg, name, host), before, after)
         == Values([RULE + host + RULE_END], before, after) + Values(RouterBody(cfg), before, after)
  {
    var top, rule := "    " + name + ":", RULE + host + RULE_END;
    NoValue(top, before, after, 4);
    ValuesConcat([top], [rule], before, after);
    ValuesConcat([top] + [rule], RouterBody(cfg), before, after);
  }

  lemma BodyValues(cfg: Config, before: string, after: string)
    ensures Values(RouterBody(cfg), before, after)
         == Values(["      entryPoints:"], before, after)
          + Values([ENTRY + cfg.entrypoint + "\""], before, after)
          + Values([SERVICE + SHARED_SERVICE], before, after)
          + Values(["      tls:"], before, after)
          + Values([RESOLVER + cfg.certResolver], before, after)
  {
    var a, b, c := ["      entryPoints:"], [ENTRY + cfg.entrypoint + "\""], [SERVICE + SHARED_SERVICE];
    var d, e := ["      tls:"], [RESOLVER + cfg.certResolver];
    ValuesConcat(a, b, before, after);
    ValuesConcat(a + b, c, before, after);
    ValuesConcat(a + b + c, d, before, after);
    ValuesConcat(a + b + c + d, e, before, after);
    assert RouterBody(cfg) == a + b + c + d + e;
  }

  lemma BodyHosts(cfg: Config)
    ensures Values(RouterBody(cfg), RULE, RULE_END) == []
  {
    BodyValues(cfg, RULE, RULE_END);
    NoValue("      entryPoints:", RULE, RULE_END, 6);
    NoValue(ENTRY + cfg.entrypoint + "\"", RULE, RULE_END, 6);
    NoValue(SERVICE + SHARED_SERVICE, RULE, RULE_END, 6);
    NoValue("      tls:", RULE, RULE_END, 6);
    NoValue(RESOLVER + cfg.certResolver, RULE, RULE_END, 6);
  }

  lemma BodyEntries(cfg: Config)
    ensures Values(RouterBody(cfg), ENTRY, "\"") == [cfg.entrypoint]
  {
    BodyValues(cfg, ENTRY, "\"");
    NoValue("      entryPoints:", ENTRY, "\"", 6);
    OneValue(ENTRY, cfg.entrypoint, "\"");
    NoValue(SERVICE + SHARED_SERVICE, ENTRY, "\"", 6);
    NoValue("      tls:", ENTRY, "\"", 6);
    NoValue(RESOLVER + cfg.certResolver, ENTRY, "\"", 8);
  }

  lemma BodyServices(cfg: Config)
    ensures Values(RouterBody(cfg), SERVICE, "") == [SHARED_SERVICE]
  {
    BodyValues(cfg, SERVICE, "");
    NoValue("      entryPoints:", SERVICE, "", 6);
    NoValue(ENTRY + cfg.entrypoint + "\"", SERVICE, "", 6);
    OneValue(SERVICE, SHARED_SERVICE, "");
    assert SERVICE + SHARED_SERVICE + "" == SERVICE + SHARED_SERVICE;
    NoValue("      tls:", SERVICE, "", 6);
    NoValue(RESOLVER + cfg.certResolver, SERVICE, "", 6);
  }

  lemma BodyResolvers(cfg: Config)
    ensures Values(RouterBody(cfg), RESOLVER, "") == [cfg.certResolver]
  {
    BodyValues(cfg, RESOLVER, "");
    NoValue("      entryPoints:", RESOLVER, "", 6);
    NoValue(ENTRY + cfg.entrypoint + "\"", RESOLVER, "", 8);
    NoValue(SERVICE + SHARED_SERVICE, RESOLVER, "", 6);
    NoValue("      tls:", RESOLVER, "", 6);
    OneValue(RESOLVER, cfg.certResolver, "");
    assert RESOLVER + cfg.certResolver + "" == RESOLVER + cfg.certResolver;
  }

  lemma BodyUrls(cfg: Config)
    ensures Values(RouterBody(cfg), URL, "\"") == []
  {
    BodyValues(cfg, URL, "\"");
    NoValue("      entryPoints:", URL, "\"", 6);
    NoValue(ENTRY + cfg.entrypoint + "\"", URL, "\"", 8);
    NoValue(SERVICE + SHARED_SERVICE, URL, "\"", 6);
    NoValue("      tls:", URL, "\"", 6);
    NoValue(RESOLVER + cfg.certResolver, URL, "\"", 8);
  }

  /** What one router says: its host, and the configured entry point, service and resolver. */
  lemma RouterSays(cfg: Config, name: string, host: string)
    requires name != "" && name[0] != ' '
    ensures var ls := Router(cfg, name, host);
      && Values(ls, RULE, RULE_END) == [host]
      && Values(ls, ENTRY, "\"") == [cfg.entrypoint]
      && Values(ls, SERVICE, "") == [SHARED_SERVICE]
      && Values(ls, RESOLVER, "") == [cfg.certResolver]
      && Values(ls, URL, "\"") == []
  {
    var rule := RULE + host + RULE_END;
    RouterValues(cfg, name, host, RULE, RULE_END);
    BodyHosts(cfg);
    OneValue(RULE, host, RULE_END);
    RouterValues(cfg, name, host, ENTRY, "\"");
    BodyEntries(cfg);
    NoValue(rule, ENTRY, "\"", 6);
    RouterValues(cfg, name, host, SERVICE, "");
    BodyServices(cfg);
    NoValue(rule, SERVICE, "", 6);
    RouterValues(cfg, name, host, RESOLVER, "");
    BodyResolvers(cfg);
    NoValue(rule, RESOLVER, "", 6);
    RouterValues(cfg, name, host, URL, "\"");
    BodyUrls(cfg);
    NoValue(rule, URL, "\"", 6);
  }

  /** The fixed lines around routers hold no router's values. */
  lemma TopSays(before: string, after: string)
    requires |before| > 2 && before[0] == before[2] == ' '
    ensures Values(TOP, before, after) == []
  {
    NoValue("http:", before, after, 0);
    NoValue("  routers:", before, after, 2);
    ValuesConcat(["http:"], ["  routers:"], before, after);
    assert TOP == ["http:"] + ["  routers:"];
  }

  lemma ServiceValues(cfg: Config, before: string, after: string)
    requires |before| > 8 && before[2] == before[4] == ' ' && before[6] != 'l' && before[8] != 's'
    ensures Values(ServiceLines(cfg), before, after) == Values([URL + cfg.serviceUrl + "\""], before, after)
  {
    var a, b, c := ["  services:"], ["    " + SHARED_SERVICE + ":"], ["      loadBalancer:"];
    var d, e := ["        servers:"], [URL + cfg.serviceUrl + "\""];
    NoValue("  services:", before, after, 2);
    NoValue("    " + SHARED_SERVICE + ":", before, after, 4);
    NoValue("      loadBalancer:", before, after, 6);
    NoValue("        servers:", before, after, 8);
    ValuesConcat(a, b, before, after);
    ValuesConcat(a + b, c, before, after);
    ValuesConcat(a + b + c, d, before, after);
    ValuesConcat(a + b + c + d, e, before, after);
    assert ServiceLines(cfg) == a + b + c + d + e;
  }

  lemma ServicesSay(cfg: Config)
    ensures var ls := ServiceLines(cfg);
      && Values(ls, RULE, RULE_END) == Values(ls, ENTRY, "\"") == []
      && Values(ls, SERVICE, "") == Values(ls, RESOLVER, "") == []
      && Values(ls, URL, "\"") == [cfg.serviceUrl]
  {
    var url := URL + cfg.serviceUrl + "\"";
    ServiceValues(cfg, RULE, RULE_END);
    NoValue(url, RULE, RULE_END, 6);
    ServiceValues(cfg, ENTRY, "\"");
    NoValue(url, ENTRY, "\"", 8);
    ServiceValues(cfg, SERVICE, "");
    NoValue(url, SERVICE, "", 6);
    ServiceValues(cfg, RESOLVER, "");
    NoValue(url, RESOLVER, "", 8);
    ServiceValues(cfg, URL, "\"");
    OneValue(URL, cfg.serviceUrl, "\"");
  }

  /** Values that fit on a line. */
  predicate OneLine(cfg: Config) {
    && '\n' !in cfg.domain && '\n' !in cfg.entrypoint && '\n' !in cfg.certResolver && '\n' !in cfg.serviceUrl
  }

  lemma ValuesOfText(ls: seq<string>, before: string, after: string)
    requires before != "" && forall l <- ls :: '\n' !in l
    ensures Values(Split(Lines(ls), '\n'), before, after) == Values(ls, before, after)
  {
    LinesSplit(ls);
    NoValue("", before, after, 0);
    ValuesConcat(ls, [""], before, after);
  }

  /** What a file's text says, line by line. */
  function Says(text: string, before: string, after: string): seq<string> {
    Values(Split(text, '\n'), before, after)
  }

  /** A client's file routes exactly its own host, through the configured entry point, to the shared service. */
  lemma ClientRouteSays(cfg: Config, id: string)
    requires OneLine(cfg) && '\n' !in id
    ensures var text := ClientRoute(cfg, id);
      && Says(text, "      rule: \"Host(`", "`)\"") == [id + "." + cfg.domain]
      && Says(text, "        - \"", "\"") == [cfg.entrypoint]
      && Says(text, "      service: ", "") == [SHARED_SERVICE]
      && Says(text, "        certResolver: ", "") == [cfg.certResolver]
  {
    var name, ls := "zo-tunnel-" + SanitizeId(id), ClientLines(cfg, id);
    ClientLinesArePlain(cfg, id);
    RouterSays(cfg, name, id + "." + cfg.domain);
    ClientValues(cfg, id, RULE, RULE_END);
    ClientValues(cfg, id, ENTRY, "\"");
    ClientValues(cfg, id, SERVICE, "");
    ClientValues(cfg, id, RESOLVER, "");
  }

  lemma ClientValues(cfg: Config, id: string, before: string, after: string)
    requires |before| > 2 && before[0] == before[2] == ' '
    requires forall l <- ClientLines(cfg, id) :: '\n' !in l
    ensures Says(ClientRoute(cfg, id), before, after)
         == Values(Router(cfg, "zo-tunnel-" + SanitizeId(id), id + "." + cfg.domain), before, after)
  {
    ValuesOfText(ClientLines(cfg, id), before, after);
    TopSays(before, after);
    ValuesConcat(TOP, Router(cfg, "zo-tunnel-" + SanitizeId(id), id + "." + cfg.domain), before, after);
  }

  lemma RouterIsPlain(cfg: Config, name: string, host: string)
    requires OneLine(cfg) && '\n' !in name && '\n' !in host
    ensures forall l <- TOP + Router(cfg, name, host) :: '\n' !in l
  {
    assert forall l <- RouterBody(cfg) :: '\n' !in l;
  }

  lemma ClientLinesArePlain(cfg: Config, id: string)
    requires OneLine(cfg) && '\n' !in id
    ensures forall l <- ClientLines(cfg, id) :: '\n' !in l
  {
    var safe := SanitizeId(id);
    assert '\n' !in safe by {
      assert forall i :: 0 <= i < |id| ==> safe[i] == Clean(id[i]) && Clean(id[i]) != '\n';
    }
    RouterIsPlain(cfg, "zo-tunnel-" + safe, id + "." + cfg.domain);
  }

  /** Of one key, what the base file says is what its two routers and its service say. */
  lemma StaticSays(cfg: Config, before: string, after: string, x: seq<string>, y: seq<string>, z: seq<string>)
    requires |before| > 2 && before[0] == before[2] == ' ' && OneLine(cfg)
    requires Values(DashboardRouter(cfg), before, after) == x && Values(ApexRouter(cfg), before, after) == y
    requires Values(ServiceLines(cfg), before, after) == z
    ensures Says(StaticRoutes(cfg), before, after) == x + y + z
  {
    var a, b := DashboardRouter(cfg), ApexRouter(cfg);
    StaticLinesArePlain(cfg);
    ValuesOfText(StaticLines(cfg), before, after);
    TopSays(before, after);
    ValuesConcat(TOP, a, before, after);
    ValuesConcat(TOP + a, b, before, after);
    ValuesConcat(TOP + a + b, ServiceLines(cfg), before, after);
  }

  /** What a router has to say under each key, for its host. */
  ghost predicate SaysRouter(cfg: Config, ls: seq<string>, host: string) {
    && Values(ls, RULE, RULE_END) == [host]
    && Values(ls, ENTRY, "\"") == [cfg.entrypoint]
    && Values(ls, SERVICE, "") == [SHARED_SERVICE]
    && Values(ls, RESOLVER, "") == [cfg.certResolver]
    && Values(ls, URL, "\"") == []
  }

  lemma StaticRoutersSay(cfg: Config)
    ensures SaysRouter(cfg, DashboardRouter(cfg), "dashboard." + cfg.domain)
    ensures SaysRouter(cfg, ApexRouter(cfg), cfg.domain)
  {
    RouterSays(cfg, "zo-tunnel-dashboard", "dashboard." + cfg.domain);
    RouterSays(cfg, "zo-tunnel-apex", cfg.domain);
  }

  /** The base file routes the dashboard's host and the bare domain. */
  lemma StaticHosts(cfg: Config)
    requires OneLine(cfg)
    ensures Says(StaticRoutes(cfg), "      rule: \"Host(`", "`)\"") == ["dashboard." + cfg.domain] + [cfg.domain]
  {
    StaticRoutersSay(cfg);
    ServicesSay(cfg);
    StaticSays(cfg, RULE, RULE_END, ["dashboard." + cfg.domain], [cfg.domain], []);
  }

  /** Both its routers take the configured entry point and resolver. */
  lemma StaticEntries(cfg: Config)
    requires OneLine(cfg)
    ensures Says(StaticRoutes(cfg), "        - \"", "\"") == [cfg.entrypoint] + [cfg.entrypoint]
    ensures Says(StaticRoutes(cfg), "        certResolver: ", "") == [cfg.certResolver] + [cfg.certResolver]
  {
    StaticRoutersSay(cfg);
    ServicesSay(cfg);
    StaticSays(cfg, ENTRY, "\"", [cfg.entrypoint], [cfg.entrypoint], []);
    StaticSays(cfg, RESOLVER, "", [cfg.certResolver], [cfg.certResolver], []);
  }

  /** Both lead to the shared service, and the file says where that is. */
  lemma StaticTargets(cfg: Config)
    requires OneLine(cfg)
    ensures Says(StaticRoutes(cfg), "      service: ", "") == [SHARED_SERVICE] + [SHARED_SERVICE]
    ensures Says(StaticRoutes(cfg), "          - url: \"", "\"") == [cfg.serviceUrl]
  {
    StaticRoutersSay(cfg);
    ServicesSay(cfg);
    StaticSays(cfg, SERVICE, "", [SHARED_SERVICE], [SHARED_SERVICE], []);
    StaticSays(cfg, URL, "\"", [], [], [cfg.serviceUrl]);
  }

  /** The service all routers name is the one the base file defines. */
  lemma ServiceIsDefined(cfg: Config, id: string)
    requires OneLine(cfg) && '\n' !in id
    ensures SHARED_SERVICE == "zo-tunnel-server"
    ensures forall service <- Says(ClientRoute(cfg, id), SERVICE, "") + Says(StaticRoutes(cfg), SERVICE, "") ::
      "    " + service + ":" in Split(StaticRoutes(cfg), '\n')
  {
    ClientRouteSays(cfg, id);
    StaticTargets(cfg);
    StaticLinesArePlain(cfg);
    LinesSplit(StaticLines(cfg));
    assert ServiceLines(cfg)[1] == "    " + SHARED_SERVICE + ":";
    assert ServiceLines(cfg)[1] in StaticLines(cfg);
  }

  lemma StaticLinesArePlain(cfg: Config)
    requires OneLine(cfg)
    ensures forall l <- StaticLines(cfg) :: '\n' !in l
  {
    RouterIsPlain(cfg, "zo-tunnel-dashboard", "dashboard." + cfg.domain);
    RouterIsPlain(cfg, "zo-tunnel-apex", cfg.domain);
    assert forall l <- ServiceLines(cfg) :: '\n' !in l;
    var a, b := DashboardRouter(cfg), ApexRouter(cfg);
    assert forall l <- StaticLines(cfg) :: l in TOP + a || l in TOP + b || l in ServiceLines(cfg);
  }
}
