/**
 The control channel's binary frames: version, type, 32-bit big-endian length, payload.

 Payload encodings (JSON and UTF-8) are a parameter, assumed only to decode what they encoded.
 */
module Frames {
  import opened Wrappers

  const PROTOCOL_VERSION: byte := 1
  const MAX_PAYLOAD_SIZE: nat := 16 * 1024 * 1024
  const HEADER: nat := 6

  datatype AuthReq = AuthReq(clientId: string, token: string, version: Option<string>) {
    predicate SupportsHeartbeat() { version.Some? }
  }
  datatype AuthRes = AuthRes(success: bool, message: string, publicPort: Option<nat>, assignedRoute: Option<string>)
  datatype NewConn = NewConn(connId: nat)
  datatype AcceptConn = AcceptConn(connId: nat, clientId: string)

  datatype Message =
    | MAuthReq(authReq: AuthReq)
    | MAuthRes(authRes: AuthRes)
    | MNewConn(newConn: NewConn)
    | MAcceptConn(acceptConn: AcceptConn)
    | MPing | MPong | MClose
    | MError(text: string)

  datatype MessageType = TAuthReq | TAuthRes | TNewConn | TData | TPing | TPong | TClose | TError | TAcceptConn

  function TypeByte(t: MessageType): byte {
    match t
    case TAuthReq => 1 case TAuthRes => 2 case TNewConn => 3 case TData => 4 case TPing => 5
    case TPong => 6 case TClose => 7 case TError => 8 case TAcceptConn => 9
  }

  function TypeOfByte(b: byte): Option<MessageType> {
    if b == 1 then Some(TAuthReq) else if b == 2 then Some(TAuthRes) else if b == 3 then Some(TNewConn)
    else if b == 4 then Some(TData) else if b == 5 then Some(TPing) else if b == 6 then Some(TPong)
    else if b == 7 then Some(TClose) else if b == 8 then Some(TError) else if b == 9 then Some(TAcceptConn)
    else None
  }

  function MsgType(m: Message): MessageType {
    match m
    case MAuthReq(_) => TAuthReq
    case MAuthRes(_) => TAuthRes
    case MNewConn(_) => TNewConn
    case MAcceptConn(_) => TAcceptConn
    case MPing => TPing
    case MPong => TPong
    case MClose => TClose
    case MError(_) => TError
  }

  datatype Json<!T> = Json(encode: T -> seq<byte>, decode: seq<byte> -> Option<T>)

  /** Lossy text decoding never fails. */
  datatype Codec = Codec(authReq: Json<AuthReq>, authRes: Json<AuthRes>, newConn: Json<NewConn>,
                         acceptConn: Json<AcceptConn>, encodeText: string -> seq<byte>, decodeText: seq<byte> -> string)

  ghost predicate Inverts<T(!new)>(j: Json<T>) { forall x: T :: j.decode(j.encode(x)) == Some(x) }

  ghost predicate Good(c: Codec) {
    && Inverts(c.authReq) && Inverts(c.authRes) && Inverts(c.newConn) && Inverts(c.acceptConn)
    && forall x: string :: c.decodeText(c.encodeText(x)) == x
  }

  function Payload(c: Codec, m: Message): seq<byte> {
    match m
    case MAuthReq(p) => c.authReq.encode(p)
    case MAuthRes(p) => c.authRes.encode(p)
    case MNewConn(p) => c.newConn.encode(p)
    case MAcceptConn(p) => c.acceptConn.encode(p)
    case MError(text) => c.encodeText(text)
    case MPing | MPong | MClose => []
  }

  datatype Error = TooLarge | WrongVersion | UnknownType | BadPayload | UnexpectedEnd

  function Wrap<T>(p: Option<T>, f: T -> Message): Result<Message, Error> {
    if p.Some? then Success(f(p.value)) else Failure(BadPayload)
  }

  function Decode(c: Codec, t: MessageType, payload: seq<byte>): Result<Message, Error> {
    match t
    case TAuthReq => Wrap(c.authReq.decode(payload), p => MAuthReq(p))
    case TAuthRes => Wrap(c.authRes.decode(payload), p => MAuthRes(p))
    case TNewConn => Wrap(c.newConn.decode(payload), p => MNewConn(p))
    case TAcceptConn => Wrap(c.acceptConn.decode(payload), p => MAcceptConn(p))
    case TError => Success(MError(c.decodeText(payload)))
    case TPing => Success(MPing)
    case TPong => Success(MPong)
    case TClose => Success(MClose)
    case TData => Failure(BadPayload)
  }

  // ----- writing -----

  function BigEndian(n: nat): seq<byte>
    requires n < U32
  {
    [n / 0x100_0000, n / 0x1_0000 % 0x100, n / 0x100 % 0x100, n % 0x100]
  }

  function FromBigEndian(b: seq<byte>): nat
    requires |b| == 4
  {
    var b0: int, b1: int, b2: int, b3: int := b[0], b[1], b[2], b[3];
    b0 * 0x100_0000 + b1 * 0x1_0000 + b2 * 0x100 + b3
  }

  /** The length is cast to 32 bits before it is checked. */
  function Frame(c: Codec, m: Message): Result<seq<byte>, Error> {
    var payload := Payload(c, m);
    var length := |payload| % U32;
    if length > MAX_PAYLOAD_SIZE then Failure(TooLarge)
    else Success([PROTOCOL_VERSION, TypeByte(MsgType(m))] + BigEndian(length) + payload)
  }

  // ----- reading, as a function of all bytes the peer ever sends -----

  datatype Reading = Got(message: Message, rest: seq<byte>) | Bad(error: Error)

  function Read(c: Codec, s: seq<byte>): Reading {
    if |s| < HEADER then Bad(UnexpectedEnd)
    else if s[0] != PROTOCOL_VERSION then Bad(WrongVersion)
    else
      var t, length := TypeOfByte(s[1]), FromBigEndian(s[2..HEADER]);
      if t.None? then Bad(UnknownType)
      else if length > MAX_PAYLOAD_SIZE then Bad(TooLarge)
      else if |s| < HEADER + length then Bad(UnexpectedEnd)
      else
        var m := Decode(c, t.value, s[HEADER..HEADER + length]);
        if m.Success? then Got(m.value, s[HEADER + length..]) else Bad(m.error)
  }

  /** Messages read until the first failure, and the bytes from there on. */
  function ReadAll(c: Codec, s: seq<byte>): (seq<Message>, seq<byte>)
    decreases |s|
  {
    var r := Read(c, s);
    if r.Got? then
      var (ms, rest) := ReadAll(c, r.rest);
      ([r.message] + ms, rest)
    else ([], s)
  }

  function Prepended(ms: seq<Message>, r: (seq<Message>, seq<byte>)): (seq<Message>, seq<byte>) {
    (ms + r.0, r.1)
  }

  // ----- the stream as it arrives: chunks of any size -----

  function Flatten(chunks: seq<seq<byte>>): seq<byte> {
    if chunks == [] then [] else chunks[0] + Flatten(chunks[1..])
  }

  class Reader {
    var chunks: seq<seq<byte>>

    constructor (chunks: seq<seq<byte>>)
      ensures this.chunks == chunks
    {
      this.chunks := chunks;
    }

    /** Fill a buffer of n bytes, however they are split; fails when the stream ends first. */
    method ReadExact(n: nat) returns (r: Option<seq<byte>>)
      modifies this
      ensures var all := old(Flatten(chunks));
        if n <= |all| then r == Some(all[..n]) && Flatten(chunks) == all[n..] else r == None
      ensures |chunks| <= old(|chunks|)
    {
      var buf: seq<byte> := [];
      ghost var all := Flatten(chunks);
      while |buf| < n
        invariant |buf| <= n && buf + Flatten(chunks) == all
        invariant |chunks| <= old(|chunks|)
        decreases n - |buf|, |chunks|
      {
        if chunks == [] {
          return None;
        }
        var chunk, k := chunks[0], n - |buf|;
        if |chunk| <= k {
          assert (buf + chunk) + Flatten(chunks[1..]) == buf + Flatten(chunks);
          buf, chunks := buf + chunk, chunks[1..];
        } else {
          assert chunk[..k] + (chunk[k..] + Flatten(chunks[1..])) == chunk + Flatten(chunks[1..]);
          assert (buf + chunk[..k]) + (chunk[k..] + Flatten(chunks[1..])) == buf + Flatten(chunks);
          buf, chunks := buf + chunk[..k], [chunk[k..]] + chunks[1..];
        }
      }
      assert all[..n] == buf && all[n..] == Flatten(chunks);
      r := Some(buf);
    }

    method ReadMessage(c: Codec) returns (r: Result<Message, Error>)
      modifies this
      ensures match Read(c, old(Flatten(chunks)))
        case Got(m, rest) => r == Success(m) && Flatten(chunks) == rest
        case Bad(e) => r == Failure(e)
    {
      ghost var all := Flatten(chunks);
      var header := ReadExact(HEADER);
      if header.None? {
        return Failure(UnexpectedEnd);
      }
      var h := header.value;
      if h[0] != PROTOCOL_VERSION {
        return Failure(WrongVersion);
      }
      var t := TypeOfByte(h[1]);
      if t.None? {
        return Failure(UnknownType);
      }
      assert h[2..HEADER] == all[2..HEADER];
      var length := FromBigEndian(h[2..HEADER]);
      if length > MAX_PAYLOAD_SIZE {
        return Failure(TooLarge);
      }
      var payload: seq<byte> := [];
      if length > 0 {
        var body := ReadExact(length);
        if body.None? {
          return Failure(UnexpectedEnd);
        }
        payload := body.value;
      }
      assert payload == all[HEADER..HEADER + length];
      assert all[HEADER..][length..] == all[HEADER + length..];
      r := Decode(c, t.value, payload);
    }

    /** Read until something other than a message arrives. */
    method ReadMessages(c: Codec) returns (ms: seq<Message>, error: Error)
      modifies this
      ensures ms == ReadAll(c, old(Flatten(chunks))).0
      ensures Read(c, ReadAll(c, old(Flatten(chunks))).1) == Bad(error)
    {
      ms := [];
      assert [] + ReadAll(c, Flatten(chunks)).0 == ReadAll(c, Flatten(chunks)).0;
      while true
        invariant ReadAll(c, old(Flatten(chunks))) == Prepended(ms, ReadAll(c, Flatten(chunks)))
        decreases |Flatten(chunks)|
      {
        ghost var before := Flatten(chunks);
        var r := ReadMessage(c);
        if r.Failure? {
          return ms, r.error;
        }
        assert Read(c, before) == Got(r.value, Flatten(chunks));
        assert ms + ([r.value] + ReadAll(c, Flatten(chunks)).0) == ms + [r.value] + ReadAll(c, Flatten(chunks)).0;
        ms := ms + [r.value];
      }
    }
  }

  // ----- main results -----

  lemma BigEndianInverts(n: nat)
    requires n < U32
    ensures FromBigEndian(BigEndian(n)) == n
  {
    var a := n / 0x100;
    var b := a / 0x100;
    var d := b / 0x100;
    assert n / 0x1_0000 == b && n / 0x100_0000 == d;
    assert n == a * 0x100 + n % 0x100 && a == b * 0x100 + a % 0x100 && b == d * 0x100 + b % 0x100;
  }

  lemma FromBigEndianInverts(b: seq<byte>)
    requires |b| == 4
    ensures FromBigEndian(b) < U32 && BigEndian(FromBigEndian(b)) == b
  {
    var b0: int, b1: int, b2: int, b3: int := b[0], b[1], b[2], b[3];
    var n := FromBigEndian(b);
    assert n == b0 * 0x100_0000 + (b1 * 0x1_0000 + b2 * 0x100 + b3);
    assert n / 0x100_0000 == b0;
    assert n / 0x1_0000 == b0 * 0x100 + b1;
    assert n / 0x100 == b0 * 0x1_0000 + b1 * 0x100 + b2;
  }

  /** What a payload has to decode to for a message; control messages take any, and no message is plain data. */
  predicate Carries(c: Codec, m: Message, payload: seq<byte>) {
    match m
    case MAuthReq(p) => c.authReq.decode(payload) == Some(p)
    case MAuthRes(p) => c.authRes.decode(payload) == Some(p)
    case MNewConn(p) => c.newConn.decode(payload) == Some(p)
    case MAcceptConn(p) => c.acceptConn.decode(payload) == Some(p)
    case MError(text) => c.decodeText(payload) == text
    case MPing | MPong | MClose => true
  }

  ghost predicate IsFrame(c: Codec, s: seq<byte>, payload: seq<byte>, m: Message, rest: seq<byte>) {
    && |payload| <= 0x100_0000 && Carries(c, m, payload)
    && s == [1, TypeByte(MsgType(m))] + BigEndian(|payload|) + payload + rest
  }

  lemma DecodesIffCarries(c: Codec, t: MessageType, payload: seq<byte>, m: Message)
    ensures Decode(c, t, payload) == Success(m) <==> t == MsgType(m) && Carries(c, m, payload)
  {
  }

  lemma TypesInvert(b: byte, t: MessageType)
    ensures TypeOfByte(b) == Some(t) <==> b == TypeByte(t)
  {
  }

  lemma FrameIsRead(c: Codec, s: seq<byte>, payload: seq<byte>, m: Message, rest: seq<byte>)
    requires IsFrame(c, s, payload, m, rest)
    ensures Read(c, s) == Got(m, rest)
  {
    var n := |payload|;
    BigEndianInverts(n);
    TypesInvert(s[1], MsgType(m));
    DecodesIffCarries(c, MsgType(m), payload, m);
    assert s[2..HEADER] == BigEndian(n);
    assert s[HEADER..HEADER + n] == payload && s[HEADER + n..] == rest;
    ReadWith(c, s, MsgType(m), n, m);
  }

  lemma ReadWasFrame(c: Codec, s: seq<byte>, m: Message, rest: seq<byte>)
    requires Read(c, s) == Got(m, rest)
    ensures exists payload :: IsFrame(c, s, payload, m, rest)
  {
    var t, n := TypeOfByte(s[1]).value, FromBigEndian(s[2..HEADER]);
    var payload := s[HEADER..HEADER + n];
    FromBigEndianInverts(s[2..HEADER]);
    TypesInvert(s[1], t);
    DecodesIffCarries(c, t, payload, m);
    assert s == [s[0], s[1]] + s[2..HEADER] + payload + rest;
    assert IsFrame(c, s, payload, m, rest);
  }

  /**
   What is accepted: a message is read exactly from bytes that are version 1, its type, a length
   within the limit, that many bytes that decode to it, and whatever is left. Nothing else is, so
   no other version, no longer payload and no data frame.
   */
  lemma ReadsExactlyFrames(c: Codec, s: seq<byte>, m: Message, rest: seq<byte>)
    ensures Read(c, s) == Got(m, rest) <==> exists payload :: IsFrame(c, s, payload, m, rest)
  {
    if Read(c, s) == Got(m, rest) {
      ReadWasFrame(c, s, m, rest);
    }
    forall payload | IsFrame(c, s, payload, m, rest) ensures Read(c, s) == Got(m, rest) {
      FrameIsRead(c, s, payload, m, rest);
    }
  }

  /** Any other verdict than an unexpected end stands whatever arrives later. */
  lemma VerdictsAreFinal(c: Codec, s: seq<byte>, tail: seq<byte>)
    requires Read(c, s) != Bad(UnexpectedEnd)
    ensures Read(c, s + tail) == match Read(c, s) case Got(m, rest) => Got(m, rest + tail) case Bad(e) => Bad(e)
  {
    var all := s + tail;
    assert all[2..HEADER] == s[2..HEADER];
    var n := FromBigEndian(s[2..HEADER]);
    if |s| >= HEADER + n {
      assert all[HEADER..HEADER + n] == s[HEADER..HEADER + n];
      assert all[HEADER + n..] == s[HEADER + n..] + tail;
    }
  }

  lemma DecodeInverts(c: Codec, m: Message)
    requires Good(c)
    ensures Decode(c, MsgType(m), Payload(c, m)) == Success(m)
  {
    assert Inverts(c.authReq) && Inverts(c.authRes) && Inverts(c.newConn) && Inverts(c.acceptConn);
  }

  /** What reading sees of a written frame, whatever follows it. */
  lemma ReadHeader(c: Codec, m: Message, tail: seq<byte>)
    requires Frame(c, m).Success?
    ensures var s, length := Frame(c, m).value + tail, |Payload(c, m)| % U32;
      && |s| >= HEADER + length && s[0] == PROTOCOL_VERSION
      && TypeOfByte(s[1]) == Some(MsgType(m)) && FromBigEndian(s[2..HEADER]) == length
      && s[HEADER..] == Payload(c, m) + tail
  {
    var payload := Payload(c, m);
    var length := |payload| % U32;
    BigEndianInverts(length);
    var s := Frame(c, m).value + tail;
    assert s[2..HEADER] == BigEndian(length);
  }

  lemma ReadWith(c: Codec, s: seq<byte>, t: MessageType, n: nat, m: Message)
    requires |s| >= HEADER + n && s[0] == PROTOCOL_VERSION && n <= MAX_PAYLOAD_SIZE
    requires TypeOfByte(s[1]) == Some(t) && FromBigEndian(s[2..HEADER]) == n
    requires Decode(c, t, s[HEADER..HEADER + n]) == Success(m)
    ensures Read(c, s) == Got(m, s[HEADER + n..])
  {
  }

  /** A frame followed by anything is read back as its message, leaving what followed. */
  lemma FrameReadsBack(c: Codec, m: Message, tail: seq<byte>)
    requires Good(c) && |Payload(c, m)| <= MAX_PAYLOAD_SIZE
    ensures Frame(c, m).Success? && |Frame(c, m).value| == HEADER + |Payload(c, m)|
    ensures Read(c, Frame(c, m).value + tail) == Got(m, tail)
  {
    ReadHeader(c, m, tail);
    DecodeInverts(c, m);
    var s, n := Frame(c, m).value + tail, |Payload(c, m)|;
    assert s[HEADER..HEADER + n] == s[HEADER..][..n] == Payload(c, m);
    assert s[HEADER + n..] == s[HEADER..][n..] == tail;
    ReadWith(c, s, MsgType(m), n, m);
  }

  /**
   The writer's size check runs after the length was truncated to 32 bits. A frame it agrees to
   write is read back exactly when the payload really is within the limit.
   */
  lemma ReadsBackIffWithinLimit(c: Codec, m: Message)
    requires Good(c) && Frame(c, m).Success?
    ensures Read(c, Frame(c, m).value) == Got(m, []) <==> |Payload(c, m)| <= MAX_PAYLOAD_SIZE
  {
    var s := Frame(c, m).value;
    assert s + [] == s;
    if |Payload(c, m)| <= MAX_PAYLOAD_SIZE {
      FrameReadsBack(c, m, []);
    } else {
      ReadHeader(c, m, []);
    }
  }

  /** What is read of a frame whose length was truncated: its first bytes, and the rest taken for what follows. */
  lemma OversizedFrameIsMisread(c: Codec, m: Message)
    requires Frame(c, m).Success? && |Payload(c, m)| > MAX_PAYLOAD_SIZE
    ensures var payload, length := Payload(c, m), |Payload(c, m)| % U32;
      var seen := Decode(c, MsgType(m), payload[..length]);
      Read(c, Frame(c, m).value) == if seen.Success? then Got(seen.value, payload[length..]) else Bad(seen.error)
  {
    ReadHeader(c, m, []);
    var s, payload, n := Frame(c, m).value, Payload(c, m), |Payload(c, m)| % U32;
    assert s + [] == s && payload + [] == payload;
    assert s[HEADER..HEADER + n] == s[HEADER..][..n];
    assert s[HEADER + n..] == s[HEADER..][n..];
  }

  /** An error text of 2^32 bytes is written with length zero and read as an empty one, followed by 2^32 stray bytes. */
  lemma FourGigabyteErrorIsMisread(c: Codec, text: string)
    requires |c.encodeText(text)| == U32
    ensures var payload := c.encodeText(text);
      && Frame(c, MError(text)) == Success([PROTOCOL_VERSION, 8, 0, 0, 0, 0] + payload)
      && Read(c, Frame(c, MError(text)).value) == Got(MError(c.decodeText([])), payload)
  {
    var payload := c.encodeText(text);
    assert BigEndian(0) == [0, 0, 0, 0];
    assert [PROTOCOL_VERSION, 8] + [0, 0, 0, 0] == [PROTOCOL_VERSION, 8, 0, 0, 0, 0];
    OversizedFrameIsMisread(c, MError(text));
    assert payload[..0] == [] && payload[0..] == payload;
  }

  /** The frames of a sequence of messages, one after the other. */
  function Frames(c: Codec, ms: seq<Message>): seq<byte>
    requires forall m <- ms :: |Payload(c, m)| <= MAX_PAYLOAD_SIZE
  {
    if ms == [] then [] else Frame(c, ms[0]).value + Frames(c, ms[1..])
  }

  /** Reading a stream of frames returns the same messages and leaves nothing. */
  lemma {:induction false} StreamReadsBack(c: Codec, ms: seq<Message>)
    requires Good(c) && forall m <- ms :: |Payload(c, m)| <= MAX_PAYLOAD_SIZE
    ensures ReadAll(c, Frames(c, ms)) == (ms, [])
  {
    if ms != [] {
      FrameReadsBack(c, ms[0], Frames(c, ms[1..]));
      StreamReadsBack(c, ms[1..]);
      assert [ms[0]] + ms[1..] == ms;
    }
  }

  /** No proper prefix of a frame yields a message or an error other than the end of the stream. */
  lemma ProperPrefixYieldsNothing(c: Codec, m: Message, k: nat)
    requires Good(c) && |Payload(c, m)| <= MAX_PAYLOAD_SIZE && k < |Frame(c, m).value|
    ensures Read(c, Frame(c, m).value[..k]) == Bad(UnexpectedEnd)
  {
    ReadHeader(c, m, []);
    var s := Frame(c, m).value;
    assert s + [] == s;
    if k >= HEADER {
      assert s[..k][2..HEADER] == s[2..HEADER];
    }
  }

  /** How many of the frames lie entirely within the first k bytes. */
  function Complete(c: Codec, ms: seq<Message>, k: nat): (n: nat)
    requires forall m <- ms :: |Payload(c, m)| <= MAX_PAYLOAD_SIZE
    ensures n <= |ms|
  {
    if ms == [] || k < |Frame(c, ms[0]).value| then 0
    else 1 + Complete(c, ms[1..], k - |Frame(c, ms[0]).value|)
  }

  lemma ReadAllTakesOneFrame(c: Codec, m: Message, tail: seq<byte>)
    requires Good(c) && |Payload(c, m)| <= MAX_PAYLOAD_SIZE
    ensures ReadAll(c, Frame(c, m).value + tail).0 == [m] + ReadAll(c, tail).0
  {
    FrameReadsBack(c, m, tail);
  }

  /** A cut inside the first frame yields nothing. */
  lemma CutInFirstFrame(c: Codec, m: Message, rest: seq<byte>, k: nat)
    requires Good(c) && |Payload(c, m)| <= MAX_PAYLOAD_SIZE && k < |Frame(c, m).value|
    ensures ReadAll(c, (Frame(c, m).value + rest)[..k]).0 == []
  {
    ProperPrefixYieldsNothing(c, m, k);
    assert (Frame(c, m).value + rest)[..k] == Frame(c, m).value[..k];
  }

  /** A cut after the first frame cuts the rest. */
  lemma CutAfterFirstFrame(c: Codec, m: Message, rest: seq<byte>, k: nat)
    requires Good(c) && |Payload(c, m)| <= MAX_PAYLOAD_SIZE
    requires |Frame(c, m).value| <= k <= |Frame(c, m).value| + |rest|
    ensures ReadAll(c, (Frame(c, m).value + rest)[..k]).0 == [m] + ReadAll(c, rest[..k - |Frame(c, m).value|]).0
  {
    var f := Frame(c, m).value;
    assert (f + rest)[..k] == f + rest[..k - |f|];
    ReadAllTakesOneFrame(c, m, rest[..k - |f|]);
  }

  lemma CompleteAfterFirstFrame(c: Codec, ms: seq<Message>, k: nat)
    requires ms != [] && (forall m <- ms :: |Payload(c, m)| <= MAX_PAYLOAD_SIZE) && |Frame(c, ms[0]).value| <= k
    ensures ms[..Complete(c, ms, k)] == [ms[0]] + ms[1..][..Complete(c, ms[1..], k - |Frame(c, ms[0]).value|)]
  {
  }

  /** A stream cut anywhere yields exactly the messages that arrived whole, and none of the cut one. */
  lemma {:induction false} CutStreamYieldsWholeMessages(c: Codec, ms: seq<Message>, k: nat)
    requires Good(c) && (forall m <- ms :: |Payload(c, m)| <= MAX_PAYLOAD_SIZE) && k <= |Frames(c, ms)|
    ensures ReadAll(c, Frames(c, ms)[..k]).0 == ms[..Complete(c, ms, k)]
  {
    if ms != [] {
      var f := Frame(c, ms[0]).value;
      if k < |f| {
        CutInFirstFrame(c, ms[0], Frames(c, ms[1..]), k);
      } else {
        CutStreamYieldsWholeMessages(c, ms[1..], k - |f|);
        CutAfterFirstFrame(c, ms[0], Frames(c, ms[1..]), k);
        CompleteAfterFirstFrame(c, ms, k);
      }
    }
  }

  predicate IsControl(t: MessageType) { t.TPing? || t.TPong? || t.TClose? }

  function ControlMessage(t: MessageType): Message
    requires IsControl(t)
  {
    match t case TPing => MPing case TPong => MPong case TClose => MClose
  }

  /**
   Reading is not injective: a control frame is accepted with any payload, which is skipped, and
   re-encoding the message gives back the bytes read exactly when there was none.
   */
  lemma ControlPayloadIsIgnored(c: Codec, t: MessageType, payload: seq<byte>, tail: seq<byte>)
    requires IsControl(t) && |payload| <= MAX_PAYLOAD_SIZE
    ensures var frame := [PROTOCOL_VERSION, TypeByte(t)] + BigEndian(|payload|) + payload;
      && Read(c, frame + tail) == Got(ControlMessage(t), tail)
      && (Frame(c, ControlMessage(t)) == Success(frame) <==> payload == [])
  {
    var frame, m := [PROTOCOL_VERSION, TypeByte(t)] + BigEndian(|payload|) + payload, ControlMessage(t);
    var s := frame + tail;
    BigEndianInverts(|payload|);
    assert s[2..HEADER] == BigEndian(|payload|);
    assert s[HEADER + |payload|..] == tail;
    ReadWith(c, s, t, |payload|, m);
    assert |Frame(c, m).value| == HEADER;
  }
}
