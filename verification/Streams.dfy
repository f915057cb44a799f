/**
 Streams inside a session: the server marks each one as a probe or as a visitor's request, and
 the client reads the mark and either echoes or forwards to the local service.
 */
module Streams {
  import opened Wrappers
  import opened Frames

  const STREAM_TYPE_PROXY: byte := 0
  const STREAM_TYPE_HEARTBEAT: byte := 1

  datatype Kind = Probe | Visit(body: seq<byte>)

  /** All the server writes to a stream. Probes go only to clients that know markers. */
  function Sent(kind: Kind, markers: bool): seq<byte> {
    match kind
    case Probe => [STREAM_TYPE_HEARTBEAT]
    case Visit(body) => (if markers then [STREAM_TYPE_PROXY] else []) + body
  }

  /** What one stream did at the client. */
  datatype Served = Served(echoed: seq<byte>, delivered: seq<byte>)

  /** The client's handling of the bytes that arrive, when nothing cuts the copy short. */
  function Serve(arrived: seq<byte>, inTime: bool, connects: bool): Served {
    if !inTime || arrived == [] then Served([], [])
    else if arrived[0] == STREAM_TYPE_HEARTBEAT then Served([STREAM_TYPE_HEARTBEAT], [])
    else if connects then Served([], arrived[1..])
    else Served([], [])
  }

  /**
   One accepted stream. The bytes arrive in chunks of any size; after at most `rounds` copies
   one side hangs up. Nothing is lost or reordered on the way: what has not been delivered has
   not been read.
   */
  method ServeStream(stream: Reader, inTime: bool, connects: bool, rounds: nat) returns (r: Served)
    modifies stream
    ensures var full := Serve(old(Flatten(stream.chunks)), inTime, connects);
      && r.echoed == full.echoed && r.delivered <= full.delivered
      && (rounds >= old(|stream.chunks|) ==> r == full)
    ensures var arrived := old(Flatten(stream.chunks));
      inTime && connects && arrived != [] && arrived[0] != STREAM_TYPE_HEARTBEAT ==>
        r.delivered + Flatten(stream.chunks) == arrived[1..]
  {
    r := Served([], []);
    if !inTime {
      return;
    }
    ghost var arrived := Flatten(stream.chunks);
    var marker := stream.ReadExact(1);
    if marker.None? {
      return;
    }
    assert marker.value[0] == arrived[0];
    if marker.value[0] == STREAM_TYPE_HEARTBEAT {
      return Served([STREAM_TYPE_HEARTBEAT], []);
    }
    if !connects {
      return;
    }
    var n := 0;
    var local: seq<byte> := [];
    while n < rounds && stream.chunks != []
      invariant local + Flatten(stream.chunks) == arrived[1..]
      invariant n + |stream.chunks| <= old(|stream.chunks|)
      decreases rounds - n
    {
      assert (local + stream.chunks[0]) + Flatten(stream.chunks[1..]) == local + Flatten(stream.chunks);
      local, stream.chunks := local + stream.chunks[0], stream.chunks[1..];
      n := n + 1;
    }
    assert stream.chunks == [] ==> local + [] == local;
    r := Served([], local);
  }

  /**
   With a client that sends a version: a probe is echoed and nothing of it reaches the local
   service; a visitor's request is never echoed, and the local service gets a prefix of exactly
   the bytes after the mark, all of them once all have arrived.
   */
  lemma MarkersSeparateStreams(auth: AuthReq, kind: Kind, arrived: seq<byte>, inTime: bool, connects: bool)
    requires auth.SupportsHeartbeat() && arrived <= Sent(kind, auth.SupportsHeartbeat())
    ensures var r := Serve(arrived, inTime, connects);
      match kind
      case Probe => r.delivered == [] && r.echoed == if inTime && arrived != [] then [1] else []
      case Visit(body) =>
        && r.echoed == [] && r.delivered <= body
        && (inTime && connects && arrived == Sent(kind, true) ==> r.delivered == body)
  {
    if kind.Visit? && arrived != [] {
      assert arrived[1..] <= kind.body;
      assert Sent(kind, true)[1..] == kind.body;
    }
  }

  /**
   Why the mark must be agreed on: at a client that reads marks, a request arrives intact exactly
   when the server marked it or it is empty. Unmarked, it loses its first byte, or all of it when
   that byte is a probe's.
   */
  lemma IntactIffMarked(body: seq<byte>, markers: bool)
    ensures Serve(Sent(Visit(body), markers), true, true).delivered == body <==> markers || body == []
    ensures !markers && body != [] ==>
      Serve(Sent(Visit(body), false), true, true) ==
        if body[0] == STREAM_TYPE_HEARTBEAT then Served([STREAM_TYPE_HEARTBEAT], []) else Served([], body[1..])
  {
    assert [] + body == body;
    assert ([STREAM_TYPE_PROXY] + body)[1..] == body;
  }

  // ----- all streams of a session at once -----

  datatype Phase = ReadingMark | Echoed | Connecting | Copying | Closed

  /** One stream: what the server has written so far, how much the client has read, and what it did with it. */
  datatype Stream = Stream(probe: bool, marked: bool, body: seq<byte>, read: nat, phase: Phase,
                           echoed: seq<byte>, local: seq<byte>)

  function Written(s: Stream): seq<byte> {
    (if s.marked then [if s.probe then STREAM_TYPE_HEARTBEAT else STREAM_TYPE_PROXY] else []) + s.body
  }

  datatype Action =
    | OpenProbe
    | OpenVisit
    | WriteMark(i: nat)
    | WriteBody(i: nat, data: seq<byte>)
    | ReadMark(i: nat)
    | MarkTimesOut(i: nat)
    | ConnectLocal(i: nat, ok: bool)
    | Copy(i: nat, n: nat)
    | Hangup(i: nat)

  /** The server of a client that knows markers writes the mark before anything else, and nothing more on a probe. */
  predicate Enabled(streams: seq<Stream>, a: Action) {
    a.OpenProbe? || a.OpenVisit? ||
    (a.i < |streams| &&
     var s := streams[a.i];
     match a
     case WriteMark(_) => !s.marked
     case WriteBody(_, _) => s.marked && !s.probe
     case ReadMark(_) => s.phase.ReadingMark? && Written(s) != []
     case MarkTimesOut(_) => s.phase.ReadingMark?
     case ConnectLocal(_, _) => s.phase.Connecting?
     case Copy(_, n) => s.phase.Copying? && s.read + n <= |Written(s)|
     case Hangup(_) => true)
  }

  function Step(streams: seq<Stream>, a: Action): seq<Stream>
    requires Enabled(streams, a)
  {
    match a
    case OpenProbe => streams + [Stream(true, false, [], 0, ReadingMark, [], [])]
    case OpenVisit => streams + [Stream(false, false, [], 0, ReadingMark, [], [])]
    case WriteMark(i) => streams[i := streams[i].(marked := true)]
    case WriteBody(i, data) => streams[i := streams[i].(body := streams[i].body + data)]
    case ReadMark(i) =>
      var s := streams[i].(read := 1);
      streams[i := if Written(s)[0] == STREAM_TYPE_HEARTBEAT
                   then s.(phase := Echoed, echoed := [STREAM_TYPE_HEARTBEAT]) else s.(phase := Connecting)]
    case MarkTimesOut(i) => streams[i := streams[i].(phase := Closed)]
    case ConnectLocal(i, ok) => streams[i := streams[i].(phase := if ok then Copying else Closed)]
    case Copy(i, n) =>
      var s := streams[i];
      streams[i := s.(read := s.read + n, local := s.local + Written(s)[s.read..s.read + n])]
    case Hangup(i) => streams[i := streams[i].(phase := Closed)]
  }

  function Run(t: seq<Action>): Option<seq<Stream>> {
    if t == [] then Some([])
    else
      var before := Run(t[..|t| - 1]);
      if before.Some? && Enabled(before.value, t[|t| - 1]) then Some(Step(before.value, t[|t| - 1])) else None
  }

  /** The client is somewhere between the first byte and the last one written, and has passed on what it read. */
  ghost predicate StreamOk(s: Stream) {
    && (s.probe ==> s.body == []) && (!s.marked ==> s.body == [])
    && s.read <= |Written(s)|
    && (s.read == 0 ==> s.echoed == [] && s.local == [] && (s.phase.ReadingMark? || s.phase.Closed?))
    && (s.read > 0 ==>
          && !s.phase.ReadingMark?
          && s.local == Written(s)[1..s.read]
          && (if s.probe then s.read == 1 && s.echoed == [STREAM_TYPE_HEARTBEAT] && (s.phase.Echoed? || s.phase.Closed?)
              else s.echoed == [] && !s.phase.Echoed?))
    && (s.phase.Connecting? ==> s.read == 1)
  }

  lemma StreamStep(streams: seq<Stream>, a: Action, k: nat)
    requires Enabled(streams, a) && k < |Step(streams, a)|
    requires k < |streams| ==> StreamOk(streams[k])
    ensures StreamOk(Step(streams, a)[k])
  {
    if a.WriteBody? && a.i == k {
      var s, s' := streams[k], Step(streams, a)[k];
      assert Written(s') == Written(s) + a.data;
      assert s.read > 0 ==> Written(s')[1..s.read] == Written(s)[1..s.read];
    } else if a.Copy? && a.i == k {
      var s := streams[k];
      assert Written(s)[1..s.read] + Written(s)[s.read..s.read + a.n] == Written(s)[1..s.read + a.n];
    }
  }

  /**
   Any number of streams, interleaved in any way: no byte of a probe ever reaches the local
   service and only probes are echoed, and a visitor's stream has delivered exactly the bytes
   read after the mark, in order, whatever was written since and however the stream ended.
   */
  lemma {:induction false} StreamsStaySeparate(t: seq<Action>, streams: seq<Stream>, k: nat)
    requires Run(t) == Some(streams) && k < |streams|
    ensures StreamOk(streams[k])
    ensures streams[k].probe ==> streams[k].local == []
    ensures !streams[k].probe ==> streams[k].echoed == [] && streams[k].local <= streams[k].body
    ensures streams[k].phase.Copying? && streams[k].read == |Written(streams[k])| ==>
      streams[k].local == streams[k].body
  {
    var before, a := Run(t[..|t| - 1]).value, t[|t| - 1];
    if k < |before| {
      StreamsStaySeparate(t[..|t| - 1], before, k);
    }
    StreamStep(before, a, k);
    var s := streams[k];
    if s.read > 0 {
      assert s.marked ==> Written(s)[1..] == s.body;
      assert Written(s)[1..s.read] == Written(s)[1..][..s.read - 1];
    }
  }

  // ----- what the run alone says about each stream -----

  /** Which streams were opened, in order, and whether as probes. */
  function Opened(t: seq<Action>): seq<bool> {
    if t == [] then []
    else
      var a := t[|t| - 1];
      Opened(t[..|t| - 1]) + if a.OpenProbe? then [true] else if a.OpenVisit? then [false] else []
  }

  /** What has happened on one stream so far. */
  datatype Record = Record(marked: bool, body: seq<byte>, markRead: bool, connected: bool, copied: nat, closed: bool)

  const FRESH: Record := Record(false, [], false, false, 0, false)

  function Recorded(t: seq<Action>, k: nat): Record {
    if t == [] then FRESH else Noted(Recorded(t[..|t| - 1], k), t[|t| - 1], k)
  }

  function Noted(r: Record, a: Action, k: nat): Record {
    if a.OpenProbe? || a.OpenVisit? || a.i != k then r
    else
      match a
      case WriteMark(_) => r.(marked := true)
      case WriteBody(_, data) => r.(body := r.body + data)
      case ReadMark(_) => r.(markRead := true)
      case ConnectLocal(_, ok) => r.(connected := ok, closed := !ok)
      case Copy(_, n) => r.(copied := r.copied + n)
      case MarkTimesOut(_) => r.(closed := true)
      case Hangup(_) => r.(closed := true)
  }

  /** A stream has done what its record says: echoed a probe's mark, or delivered what was copied of the body. */
  ghost predicate Did(s: Stream, probe: bool, r: Record) {
    && s.probe == probe && s.marked == r.marked && s.body == r.body
    && s.echoed == (if probe && r.markRead then [1] else [])
    && r.copied <= |r.body| && s.local == r.body[..r.copied]
    && s.read == (if r.markRead then 1 + r.copied else 0)
    && (r.copied > 0 ==> r.connected)
    && (r.connected ==> r.markRead && !probe)
    && s.phase == (if r.closed then Closed else if !r.markRead then ReadingMark else if probe then Echoed
                   else if r.connected then Copying else Connecting)
  }

  lemma WriteDid(streams: seq<Stream>, a: Action, r: Record)
    requires Enabled(streams, a) && a.WriteBody? && StreamOk(streams[a.i]) && Did(streams[a.i], streams[a.i].probe, r)
    ensures Did(Step(streams, a)[a.i], streams[a.i].probe, Noted(r, a, a.i))
  {
    assert (streams[a.i].body + a.data)[..r.copied] == streams[a.i].body[..r.copied];
  }

  lemma CopyDid(streams: seq<Stream>, a: Action, r: Record)
    requires Enabled(streams, a) && a.Copy? && StreamOk(streams[a.i]) && Did(streams[a.i], streams[a.i].probe, r)
    ensures Did(Step(streams, a)[a.i], streams[a.i].probe, Noted(r, a, a.i))
  {
    var s := streams[a.i];
    assert Written(s)[s.read..s.read + a.n] == s.body[r.copied..r.copied + a.n];
    assert s.body[..r.copied] + s.body[r.copied..r.copied + a.n] == s.body[..r.copied + a.n];
  }

  lemma DidStep(streams: seq<Stream>, a: Action, k: nat, r: Record)
    requires Enabled(streams, a) && k < |streams| && StreamOk(streams[k]) && Did(streams[k], streams[k].probe, r)
    ensures k < |Step(streams, a)|
    ensures Did(Step(streams, a)[k], streams[k].probe, Noted(r, a, k))
  {
    if a.WriteBody? && a.i == k {
      WriteDid(streams, a, r);
    } else if a.Copy? && a.i == k {
      CopyDid(streams, a, r);
    }
  }

  lemma OpenedStep(streams: seq<Stream>, a: Action)
    requires Enabled(streams, a)
    ensures |Step(streams, a)| == |streams| + if a.OpenProbe? || a.OpenVisit? then 1 else 0
    ensures a.OpenProbe? || a.OpenVisit? ==>
      Did(Step(streams, a)[|streams|], a.OpenProbe?, FRESH)
  {
  }

  /**
   Read off the run: the k-th stream opened is a probe exactly when it was opened as one, a probe
   whose mark was read has been echoed, and a visitor's stream has delivered as much of its body as
   was copied, which happens only once the local service took the connection.
   */
  lemma {:induction false} StreamsFollowTheRun(t: seq<Action>, streams: seq<Stream>, k: nat)
    requires Run(t) == Some(streams) && k < |streams|
    ensures |Opened(t)| == |streams| && Did(streams[k], Opened(t)[k], Recorded(t, k))
  {
    var rest, before, a := t[..|t| - 1], Run(t[..|t| - 1]).value, t[|t| - 1];
    OpenedStep(before, a);
    OpenedCounts(rest, before);
    if k < |before| {
      StreamsFollowTheRun(rest, before, k);
      StreamsStaySeparate(rest, before, k);
      DidStep(before, a, k, Recorded(rest, k));
    } else {
      NothingBeforeOpening(rest, before, k);
    }
  }

  lemma {:induction false} OpenedCounts(t: seq<Action>, streams: seq<Stream>)
    requires Run(t) == Some(streams)
    ensures |Opened(t)| == |streams|
  {
    if t != [] {
      OpenedCounts(t[..|t| - 1], Run(t[..|t| - 1]).value);
      OpenedStep(Run(t[..|t| - 1]).value, t[|t| - 1]);
    }
  }

  lemma {:induction false} NothingBeforeOpening(t: seq<Action>, streams: seq<Stream>, k: nat)
    requires Run(t) == Some(streams) && |streams| <= k
    ensures Recorded(t, k) == FRESH
  {
    if t != [] {
      OpenedStep(Run(t[..|t| - 1]).value, t[|t| - 1]);
      NothingBeforeOpening(t[..|t| - 1], Run(t[..|t| - 1]).value, k);
    }
  }

  function Unread(s: Stream): nat {
    if s.read <= |Written(s)| then |Written(s)| - s.read else 0
  }

  /** Whatever else goes on, a connected visitor's stream can always deliver all that was written to it. */
  lemma ConnectedStreamsCanFinish(t: seq<Action>, streams: seq<Stream>, k: nat)
    requires Run(t) == Some(streams) && k < |streams| && streams[k].phase.Copying?
    ensures var streams' := Run(t + [Copy(k, Unread(streams[k]))]);
      streams'.Some? && k < |streams'.value| && streams'.value[k].local == streams[k].body
  {
    StreamsStaySeparate(t, streams, k);
    var a := Copy(k, Unread(streams[k]));
    assert (t + [a])[..|t|] == t;
    StreamsStaySeparate(t + [a], Step(streams, a), k);
  }

  lemma RunExtends(t: seq<Action>, a: Action)
    requires Run(t).Some? && Enabled(Run(t).value, a)
    ensures Run(t + [a]) == Some(Step(Run(t).value, a))
  {
    assert (t + [a])[..|t|] == t;
  }

  /** From any reachable state, with other streams in whatever state: a probe can be opened and echoed. */
  lemma ProbesCanBeEchoed(t: seq<Action>, streams: seq<Stream>)
    requires Run(t) == Some(streams)
    ensures var k := |streams|;
      var after := Run(t + [OpenProbe] + [WriteMark(k)] + [ReadMark(k)]);
      && after.Some? && |after.value| == k + 1 && after.value[..k] == streams
      && after.value[k].echoed == [1] && after.value[k].local == []
  {
    var k := |streams|;
    RunExtends(t, OpenProbe);
    RunExtends(t + [OpenProbe], WriteMark(k));
    RunExtends(t + [OpenProbe] + [WriteMark(k)], ReadMark(k));
  }

  /** A visitor's stream, sent and with its mark read. */
  function Sending(k: nat, body: seq<byte>): seq<Action> {
    [OpenVisit, WriteMark(k), WriteBody(k, body), ReadMark(k)]
  }

  /** A step of the stream opened last changes only that one. */
  lemma LastSteps(t: seq<Action>, streams: seq<Stream>, s: Stream, a: Action, s': Stream)
    requires Run(t) == Some(streams + [s]) && Enabled(streams + [s], a)
    requires Step(streams + [s], a) == (streams + [s])[|streams| := s']
    ensures Run(t + [a]) == Some(streams + [s'])
  {
    RunExtends(t, a);
    assert (streams + [s])[|streams| := s'] == streams + [s'];
  }

  lemma VisitCanBeSent(t: seq<Action>, streams: seq<Stream>, body: seq<byte>)
    requires Run(t) == Some(streams)
    ensures Run(t + Sending(|streams|, body)) == Some(streams + [Stream(false, true, body, 1, Connecting, [], [])])
  {
    var u := Sending(|streams|, body);
    var s := Stream(false, false, [], 0, ReadingMark, [], []);
    RunExtends(t, u[0]);
    LastSteps(t + [u[0]], streams, s, u[1], s.(marked := true));
    assert [] + body == body;
    LastSteps(t + [u[0]] + [u[1]], streams, s.(marked := true), u[2], s.(marked := true, body := body));
    LastSteps(t + [u[0]] + [u[1]] + [u[2]], streams, s.(marked := true, body := body), u[3],
      Stream(false, true, body, 1, Connecting, [], []));
    assert t + [u[0]] + [u[1]] + [u[2]] + [u[3]] == t + u;
  }

  lemma CopiesAll(streams: seq<Stream>, body: seq<byte>)
    ensures var k, all := |streams|, streams + [Stream(false, true, body, 1, Copying, [], [])];
      && Enabled(all, Copy(k, |body|))
      && Step(all, Copy(k, |body|)) == all[k := Stream(false, true, body, 1 + |body|, Copying, [], body)]
  {
    assert Written(Stream(false, true, body, 1, Copying, [], []))[1..1 + |body|] == body && [] + body == body;
  }

  /** And any body can be sent to the local service whole, on a stream of its own. */
  lemma VisitsCanBeDelivered(t: seq<Action>, streams: seq<Stream>, body: seq<byte>)
    requires Run(t) == Some(streams)
    ensures var k := |streams|;
      Run(t + Sending(k, body) + [ConnectLocal(k, true)] + [Copy(k, |body|)])
        == Some(streams + [Stream(false, true, body, 1 + |body|, Copying, [], body)])
  {
    var k, s := |streams|, Stream(false, true, body, 1, Connecting, [], []);
    var u := t + Sending(k, body);
    VisitCanBeSent(t, streams, body);
    LastSteps(u, streams, s, ConnectLocal(k, true), s.(phase := Copying));
    CopiesAll(streams, body);
    LastSteps(u + [ConnectLocal(k, true)], streams, s.(phase := Copying), Copy(k, |body|),
      Stream(false, true, body, 1 + |body|, Copying, [], body));
  }

  /** The first stream of a session can already do so. */
  lemma FirstVisitCanBeDelivered(body: seq<byte>)
    ensures exists t :: Run(t) == Some([Stream(false, true, body, 1 + |body|, Copying, [], body)])
  {
    VisitsCanBeDelivered([], [], body);
    var t := [] + Sending(0, body) + [ConnectLocal(0, true)] + [Copy(0, |body|)];
    assert [] + [Stream(false, true, body, 1 + |body|, Copying, [], body)]
        == [Stream(false, true, body, 1 + |body|, Copying, [], body)];
    assert Run(t) == Some([Stream(false, true, body, 1 + |body|, Copying, [], body)]);
  }

  /** A stream whose mark has not been read can time out, and then has done nothing. */
  lemma SilentStreamsCanTimeOut(t: seq<Action>, streams: seq<Stream>, k: nat)
    requires Run(t) == Some(streams) && k < |streams| && streams[k].phase.ReadingMark?
    ensures var after := Run(t + [MarkTimesOut(k)]);
      && after.Some? && after.value == streams[k := streams[k].(phase := Closed)]
      && after.value[k].echoed == [] && after.value[k].local == []
  {
    StreamsStaySeparate(t, streams, k);
    RunExtends(t, MarkTimesOut(k));
  }
}
