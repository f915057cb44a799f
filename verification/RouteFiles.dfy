/**
 The handlers of a server together with the directory their routes go to. Two names share a
 file when they are sanitised alike, so what a file holds depends on the order of the writes.
 */
module RouteFiles {
  import opened Wrappers
  import opened SessionMap
  import opened Traefik
  import Counting
  import Sessions

  datatype Site = Site(server: Sessions.State, dir: Directory)

  /** One step of some handler; a successful route write puts the route into the directory. */
  function Step(cfg: Config, x: Site, a: Sessions.Action): Site
    requires Sessions.Enabled(x.server, a)
  {
    Site(Sessions.Step(x.server, a),
         if a.WriteRoute? && a.ok then Applied(cfg, x.dir, AddClient(a.name)) else x.dir)
  }

  function Run(cfg: Config, dir: Directory, t: seq<Sessions.Action>): Option<Site> {
    if t == [] then Some(Site(Sessions.Init, dir))
    else
      var before := Run(cfg, dir, t[..|t| - 1]);
      if before.Some? && Sessions.Enabled(before.value.server, t[|t| - 1])
      then Some(Step(cfg, before.value, t[|t| - 1])) else None
  }

  /** The i-th step wrote a route to the file of this sanitised name. */
  ghost predicate WritesAt(t: seq<Sessions.Action>, i: nat, safe: string) {
    i < |t| && t[i].WriteRoute? && t[i].ok && SanitizeId(t[i].name) == safe
  }

  /** The i-th step is the last to write to that file. */
  ghost predicate LastWriteAt(t: seq<Sessions.Action>, i: nat, safe: string) {
    WritesAt(t, i, safe) && forall j: nat :: i < j ==> !WritesAt(t, j, safe)
  }

  // ----- the directory sees only the writes -----

  function Writes(t: seq<Sessions.Action>): seq<Op> {
    if t == [] then []
    else
      var a := t[|t| - 1];
      Writes(t[..|t| - 1]) + if a.WriteRoute? && a.ok then [AddClient(a.name)] else []
  }

  lemma WritesAfter(t: seq<Sessions.Action>)
    requires t != []
    ensures var a := t[|t| - 1];
      if a.WriteRoute? && a.ok
      then Writes(t) != [] && Writes(t)[..|Writes(t)| - 1] == Writes(t[..|t| - 1])
        && Writes(t)[|Writes(t)| - 1] == AddClient(a.name)
      else Writes(t) == Writes(t[..|t| - 1])
  {
  }

  lemma {:induction false} DirectoryFollowsWrites(cfg: Config, dir: Directory, t: seq<Sessions.Action>, x: Site)
    requires Run(cfg, dir, t) == Some(x)
    ensures Sessions.Run(t) == Some(x.server)
    ensures x.dir == After(cfg, dir, Writes(t))
  {
    if t != [] {
      var rest := t[..|t| - 1];
      DirectoryFollowsWrites(cfg, dir, rest, Run(cfg, dir, rest).value);
      WritesAfter(t);
    }
  }

  lemma {:induction false} LastAddedIsLastWrite(t: seq<Sessions.Action>, safe: string)
    ensures LastAdded(Writes(t), safe).None? ==> forall i: nat :: !WritesAt(t, i, safe)
    ensures LastAdded(Writes(t), safe).Some? ==>
      exists i: nat :: LastWriteAt(t, i, safe) && t[i].name == LastAdded(Writes(t), safe).value
  {
    if t != [] {
      var rest, n := t[..|t| - 1], |t| - 1;
      LastAddedIsLastWrite(rest, safe);
      assert forall i: nat :: i < n ==> (WritesAt(t, i, safe) <==> WritesAt(rest, i, safe));
      if WritesAt(t, n, safe) {
        WritesAfter(t);
        assert LastWriteAt(t, n, safe);
      } else {
        OtherWriteIsNotLast(t, safe);
        if i: nat :| LastWriteAt(rest, i, safe) && rest[i].name == LastAdded(Writes(rest), safe).value {
          assert LastWriteAt(t, i, safe);
        }
      }
    }
  }

  lemma OtherWriteIsNotLast(t: seq<Sessions.Action>, safe: string)
    requires t != [] && !WritesAt(t, |t| - 1, safe)
    ensures LastAdded(Writes(t), safe) == LastAdded(Writes(t[..|t| - 1]), safe)
  {
    WritesAfter(t);
  }

  // ----- main results -----

  /**
   Over every interleaving: a name's file exists exactly when it was there at the start or some
   session whose name is sanitised alike wrote one, whatever became of that session. Once one
   has, the file holds the name's own route exactly when the last of those writers had that name.
   */
  lemma FilesAreTheLastWrites(cfg: Config, dir: Directory, t: seq<Sessions.Action>, x: Site, name: string)
    requires Run(cfg, dir, t) == Some(x)
    ensures var safe := SanitizeId(name);
      ClientFile(safe) in x.dir <==> ClientFile(safe) in dir || exists i: nat :: WritesAt(t, i, safe)
    ensures forall i: nat :: LastWriteAt(t, i, SanitizeId(name)) ==>
      ClientFile(SanitizeId(name)) in x.dir
      && (x.dir[ClientFile(SanitizeId(name))] == ClientRoute(cfg, name) <==> t[i].name == name)
    ensures (forall i: nat :: !WritesAt(t, i, SanitizeId(name))) && ClientFile(SanitizeId(name)) in dir ==>
      x.dir[ClientFile(SanitizeId(name))] == dir[ClientFile(SanitizeId(name))]
  {
    var safe, ops := SanitizeId(name), Writes(t);
    DirectoryFollowsWrites(cfg, dir, t, x);
    LastAddedIsLastWrite(t, safe);
    if LastAdded(ops, safe).None? {
      FileNobodyAdded(cfg, dir, ops, safe);
    } else {
      FilesHoldLastRoute(cfg, dir, ops, safe);
      RouteTellsId(cfg, LastAdded(ops, safe).value, name);
      var last: nat :| LastWriteAt(t, last, safe) && t[last].name == LastAdded(ops, safe).value;
      assert WritesAt(t, last, safe);
      forall i: nat | LastWriteAt(t, i, safe) ensures i == last {
        assert WritesAt(t, i, safe);
      }
    }
  }

  lemma {:induction false} FilesStay(
      cfg: Config, dir: Directory, t: seq<Sessions.Action>, u: seq<Sessions.Action>, x: Site, y: Site)
    requires Run(cfg, dir, t) == Some(x) && Run(cfg, dir, t + u) == Some(y)
    ensures x.dir.Keys <= y.dir.Keys
  {
    if u == [] {
      assert t + u == t;
    } else {
      assert (t + u)[..|t + u| - 1] == t + u[..|u| - 1];
      FilesStay(cfg, dir, t, u[..|u| - 1], x, Run(cfg, dir, t + u[..|u| - 1]).value);
    }
  }

  /** Route files outlive their sessions: once every handler is done no name is registered, yet no file is gone. */
  lemma FilesOutliveSessions(
      cfg: Config, dir: Directory, t: seq<Sessions.Action>, u: seq<Sessions.Action>, x: Site, y: Site)
    requires Run(cfg, dir, t) == Some(x) && Run(cfg, dir, t + u) == Some(y) && Sessions.Draws(t + u) < U64
    requires forall h :: 0 <= h < |y.server.handlers| ==> Sessions.Done(y.server.handlers[h].phase)
    ensures y.server.clients == map[] && x.dir.Keys <= y.dir.Keys
  {
    DirectoryFollowsWrites(cfg, dir, t + u, y);
    Sessions.LiveSessionsAreTheMap(t + u, y.server);
    FilesStay(cfg, dir, t, u, x, y);
  }

  /** A handler that has written its route is waiting or done, for good, under the same name. */
  predicate HasWritten(s: Sessions.State, h: Sessions.HandlerId, name: string) {
    && h < |s.handlers| && s.handlers[h].name == name
    && (s.handlers[h].phase.Waiting? || s.handlers[h].phase.Finished?)
  }

  lemma WriterStays(s: Sessions.State, a: Sessions.Action, h: Sessions.HandlerId, name: string)
    requires Sessions.Enabled(s, a) && HasWritten(s, h, name)
    ensures HasWritten(Sessions.Step(s, a), h, name)
  {
  }

  lemma {:induction false} WriterHasSession(t: seq<Sessions.Action>, s: Sessions.State, i: nat)
    requires Sessions.Run(t) == Some(s) && i < |t| && t[i].WriteRoute?
    ensures HasWritten(s, t[i].h, t[i].name)
  {
    if i < |t| - 1 {
      var before := Sessions.Run(t[..|t| - 1]).value;
      WriterHasSession(t[..|t| - 1], before, i);
      WriterStays(before, t[|t| - 1], t[i].h, t[i].name);
    }
  }

  /**
   A session that wrote its route still serves its own host exactly when no session with another
   name sanitised alike has written since, so always when all names are free of unsafe characters.
   */
  lemma SessionKeepsItsRouteIff(cfg: Config, dir: Directory, t: seq<Sessions.Action>, x: Site, i: nat)
    requires Run(cfg, dir, t) == Some(x) && i < |t| && t[i].WriteRoute? && t[i].ok
    ensures var h, file := t[i].h, ClientFile(SanitizeId(t[i].name));
      && h < |x.server.handlers| && x.server.handlers[h].name == t[i].name
      && file in x.dir
      && (x.dir[file] == ClientRoute(cfg, x.server.handlers[h].name) <==>
            exists j: nat :: LastWriteAt(t, j, SanitizeId(t[i].name)) && t[j].name == t[i].name)
      && ((forall j :: 0 <= j < |t| && t[j].WriteRoute? ==> SanitizeId(t[j].name) == t[j].name) ==>
            x.dir[file] == ClientRoute(cfg, x.server.handlers[h].name))
  {
    var name := t[i].name;
    var safe := SanitizeId(name);
    DirectoryFollowsWrites(cfg, dir, t, x);
    WriterHasSession(t, x.server, i);
    FilesAreTheLastWrites(cfg, dir, t, x, name);
    assert WritesAt(t, i, safe);
    LastAddedIsLastWrite(t, safe);
    var last: nat :| LastWriteAt(t, last, safe);
    assert WritesAt(t, last, safe);
    forall j: nat | LastWriteAt(t, j, safe) ensures j == last {
      assert WritesAt(t, j, safe);
    }
  }

  lemma {:induction false} ServerRunsOverAnyDirectory(cfg: Config, dir: Directory, t: seq<Sessions.Action>)
    requires Sessions.Run(t).Some?
    ensures Run(cfg, dir, t).Some? && Run(cfg, dir, t).value.server == Sessions.Run(t).value
  {
    if t != [] {
      ServerRunsOverAnyDirectory(cfg, dir, t[..|t| - 1]);
    }
  }

  /** Both names registered, and each session's route written in turn. */
  function BothWrite(a: string, b: string): seq<Sessions.Action> {
    Sessions.Newcomer(Sessions.Init, a)
    + [Sessions.Accept, Sessions.Greet(1, b), Sessions.Spawn(1), Sessions.Draw(1), Sessions.Insert(1, b, false)]
    + [Sessions.WriteRoute(0, a, true)] + [Sessions.WriteRoute(1, b, true)]
  }

  lemma BothAreLive(a: string, b: string)
    requires a != b && a !in RESERVED && b !in RESERVED
    ensures var s := Sessions.Run(BothWrite(a, b));
      s.Some? && Sessions.Live(s.value, 0) && Sessions.Live(s.value, 1)
  {
    Sessions.NewcomerAlwaysTakesOver([], Sessions.Init, a);
    var t := Sessions.Newcomer(Sessions.Init, a);
    assert [] + t == t;
    var s := Sessions.Run(t).value;
    assert Sessions.Draws(t) <= |t| by { Counting.CountBounded(t, (e: Sessions.Action) => e.Draw?); }
    assert Sessions.Newcomer(s, b) ==
      [Sessions.Accept, Sessions.Greet(1, b), Sessions.Spawn(1), Sessions.Draw(1), Sessions.Insert(1, b, false)];
    Sessions.NewcomerAlwaysTakesOver(t, s, b);
    t := t + Sessions.Newcomer(s, b);
    Sessions.RunExtends(t, Sessions.WriteRoute(0, a, true));
    Sessions.RunExtends(t + [Sessions.WriteRoute(0, a, true)], Sessions.WriteRoute(1, b, true));
  }

  /** For any two names sanitised alike: both sessions live, and the later writer has taken the other's route away. */
  lemma LiveSessionsCanShareAFile(cfg: Config, dir: Directory, a: string, b: string)
    requires a != b && a !in RESERVED && b !in RESERVED && SanitizeId(a) == SanitizeId(b)
    ensures var x, file := Run(cfg, dir, BothWrite(a, b)), ClientFile(SanitizeId(a));
      && x.Some? && Sessions.Live(x.value.server, 0) && Sessions.Live(x.value.server, 1)
      && file in x.value.dir && x.value.dir[file] == ClientRoute(cfg, b) != ClientRoute(cfg, a)
  {
    var t := BothWrite(a, b);
    BothAreLive(a, b);
    ServerRunsOverAnyDirectory(cfg, dir, t);
    assert LastWriteAt(t, |t| - 1, SanitizeId(b));
    FilesAreTheLastWrites(cfg, dir, t, Run(cfg, dir, t).value, a);
    FilesAreTheLastWrites(cfg, dir, t, Run(cfg, dir, t).value, b);
  }
}
