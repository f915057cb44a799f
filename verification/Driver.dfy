/**
 The yamux driver: one select loop serving stream requests and heartbeat probes.

 `DriverModel` is the loop as a state machine over the events the environment can deliver
 (ready select arms, probe tasks, senders, aborts). `Driver` is the loop itself, updating its
 locals, proved to follow that machine for every schedule.
 */
module DriverModel {
  import opened Wrappers

  const MAX_MISSED: nat := 5
  const COMMAND_SLOTS: nat := 64
  const RESULT_SLOTS: nat := 8

  /** One OpenStream command; its number stands for the reply sender. */
  type Request = nat

  datatype Answer = Answer(request: Request, ok: bool)

  datatype Ending = YamuxFailed | YamuxClosed | PeerDead | HandlesGone | ResultsGone | Aborted

  /** What the client offered. */
  datatype Mode = Mode(heartbeat: bool)

  /** Locals of the loop; `ending` is None while it runs. */
  datatype Loop = Loop(pendingOpen: Option<Request>, wantHbStream: bool, hbInFlight: bool,
                       missed: nat, ending: Option<Ending>)

  /** Channels, probe tasks and handles around the loop. */
  datatype Env = Env(commands: seq<Request>, results: seq<bool>, probes: nat,
                     ownerHandle: bool, otherHandles: nat, abortRequested: bool)

  /** What has happened so far. */
  datatype Log = Log(sent: seq<Request>, answered: seq<Answer>, dropped: seq<Request>,
                     streamsOpened: nat, probesSpawned: nat, ticks: nat, outcomes: seq<bool>)

  datatype State = State(mode: Mode, loop: Loop, env: Env, log: Log)

  function Start(mode: Mode): State {
    State(mode, Loop(None, false, false, 0, None), Env([], [], 0, true, 0, false), Log([], [], [], 0, 0, 0, []))
  }

  datatype Event =
    | Send(request: Request)      // a command is accepted by the channel
    | InboundStream               // unexpected stream, ignored
    | InboundError
    | InboundClosed
    | OutboundOk                  // poll_new_outbound ready
    | OutboundErr
    | Command                     // cmd_rx.recv() yields a command
    | CommandsGone                // cmd_rx.recv() yields None
    | Tick
    | ResultReady                 // hb_done_rx.recv() yields a result
    | NoResultSenders             // hb_done_rx.recv() yields None
    | ProbeFinishes(ok: bool)     // a probe task reports
    | RequestAbort
    | AbortLands
    | CloneHandle
    | DropHandle
    | OwnerDrops

  /** The loop keeps one result sender itself. */
  function ResultSenders(s: State): nat {
    (if s.loop.ending.None? then 1 else 0) + s.env.probes
  }

  function CommandSenders(s: State): nat {
    (if s.env.ownerHandle then 1 else 0) + s.env.otherHandles
  }

  predicate Enabled(s: State, e: Event) {
    match e
    case Send(r) => s.loop.ending.None? && |s.env.commands| < COMMAND_SLOTS && CommandSenders(s) > 0 && r !in s.log.sent
    case InboundStream | InboundError | InboundClosed => s.loop.ending.None?
    case OutboundOk | OutboundErr => s.loop.ending.None? && (s.loop.pendingOpen.Some? || s.loop.wantHbStream)
    case Command => s.loop.ending.None? && s.loop.pendingOpen.None? && s.env.commands != []
    case CommandsGone =>
      s.loop.ending.None? && s.loop.pendingOpen.None? && s.env.commands == [] && CommandSenders(s) == 0
    case Tick => s.loop.ending.None? && s.mode.heartbeat && !s.loop.hbInFlight && !s.loop.wantHbStream
    case ResultReady => s.loop.ending.None? && s.env.results != []
    case NoResultSenders => s.loop.ending.None? && s.env.results == [] && ResultSenders(s) == 0
    case ProbeFinishes(_) => s.env.probes > 0 && (s.loop.ending.None? ==> |s.env.results| < RESULT_SLOTS)
    case RequestAbort => true
    case AbortLands => s.loop.ending.None? && s.env.abortRequested
    case CloneHandle => CommandSenders(s) > 0
    case DropHandle => s.env.otherHandles > 0
    case OwnerDrops => s.env.ownerHandle
  }

  function Pending(s: State): seq<Request> {
    if s.loop.pendingOpen.Some? then [s.loop.pendingOpen.value] else []
  }

  /** Leaving the loop drops the receiver, and with it every request not yet answered. */
  function End(s: State, why: Ending): State {
    s.(loop := s.loop.(ending := Some(why), pendingOpen := None),
       env := s.env.(commands := [], results := []),
       log := s.log.(dropped := s.log.dropped + Pending(s) + s.env.commands))
  }

  /** One more outcome of a heartbeat attempt; the fifth failure in a row is fatal. */
  function Outcome(s: State, ok: bool): State {
    var n := if ok then 0 else s.loop.missed + 1;
    var r := s.(loop := s.loop.(missed := n), log := s.log.(outcomes := s.log.outcomes + [ok]));
    if n >= MAX_MISSED then End(r, PeerDead) else r
  }

  function Reply(s: State, ok: bool): State {
    if s.loop.pendingOpen.None? then s
    else s.(loop := s.loop.(pendingOpen := None),
            log := s.log.(answered := s.log.answered + [Answer(s.loop.pendingOpen.value, ok)]))
  }

  function Opened(s: State): State {
    var r := s.(log := s.log.(streamsOpened := s.log.streamsOpened + 1));
    if r.loop.pendingOpen.Some? then Reply(r, true)
    else r.(loop := r.loop.(wantHbStream := false, hbInFlight := true),
            env := r.env.(probes := r.env.probes + 1),
            log := r.log.(probesSpawned := r.log.probesSpawned + 1))
  }

  function OpenFailed(s: State): State {
    var r := Reply(s, false);
    if s.loop.wantHbStream then Outcome(r.(loop := r.loop.(wantHbStream := false)), false) else r
  }

  function Received(s: State): State
    requires s.env.results != []
  {
    Outcome(s.(loop := s.loop.(hbInFlight := false), env := s.env.(results := s.env.results[1..])), s.env.results[0])
  }

  function Step(s: State, e: Event): State
    requires Enabled(s, e)
  {
    match e
    case Send(r) => s.(env := s.env.(commands := s.env.commands + [r]), log := s.log.(sent := s.log.sent + [r]))
    case InboundStream => s
    case InboundError => End(s, YamuxFailed)
    case InboundClosed => End(s, YamuxClosed)
    case OutboundOk => Opened(s)
    case OutboundErr => OpenFailed(s)
    case Command =>
      s.(loop := s.loop.(pendingOpen := Some(s.env.commands[0])), env := s.env.(commands := s.env.commands[1..]))
    case CommandsGone => End(s, HandlesGone)
    case Tick => s.(loop := s.loop.(wantHbStream := true), log := s.log.(ticks := s.log.ticks + 1))
    case ResultReady => Received(s)
    case NoResultSenders => End(s.(loop := s.loop.(hbInFlight := false)), ResultsGone)
    case ProbeFinishes(ok) =>
      s.(env := s.env.(probes := s.env.probes - 1,
                       results := if s.loop.ending.None? then s.env.results + [ok] else s.env.results))
    case RequestAbort => s.(env := s.env.(abortRequested := true))
    case AbortLands => End(s, Aborted)
    case CloneHandle => s.(env := s.env.(otherHandles := s.env.otherHandles + 1))
    case DropHandle => s.(env := s.env.(otherHandles := s.env.otherHandles - 1))
    case OwnerDrops => s.(env := s.env.(ownerHandle := false))
  }

  /** The state after a schedule, or None if some event in it could not have happened. */
  function Run(mode: Mode, t: seq<Event>): Option<State> {
    if t == [] then Some(Start(mode))
    else
      var before := Run(mode, t[..|t| - 1]);
      if before.Some? && Enabled(before.value, t[|t| - 1]) then Some(Step(before.value, t[|t| - 1])) else None
  }

  // ----- reference notions -----

  /** Length of the trailing run of failures. */
  function TrailingFailures(outcomes: seq<bool>): nat {
    if outcomes == [] || outcomes[|outcomes| - 1] then 0
    else 1 + TrailingFailures(outcomes[..|outcomes| - 1])
  }

  function Requests(answers: seq<Answer>): seq<Request> {
    if answers == [] then []
    else Requests(answers[..|answers| - 1]) + [answers[|answers| - 1].request]
  }

  function OkReplies(answers: seq<Answer>): nat {
    if answers == [] then 0
    else OkReplies(answers[..|answers| - 1]) + if answers[|answers| - 1].ok then 1 else 0
  }

  function One(b: bool): nat { if b then 1 else 0 }

  // ----- invariants -----

  /** Requests in the order they were accepted: answered, then dropped, then waiting. */
  ghost predicate FifoOk(s: State) {
    && s.log.sent == Requests(s.log.answered) + s.log.dropped + Pending(s) + s.env.commands
    && (s.loop.ending.None? ==> s.log.dropped == [])
    && (s.loop.ending.Some? ==> s.loop.pendingOpen.None? && s.env.commands == [])
    && (forall i, j :: 0 <= i < j < |s.log.sent| ==> s.log.sent[i] != s.log.sent[j])
  }

  ghost predicate StreamsOk(s: State) {
    s.log.streamsOpened == OkReplies(s.log.answered) + s.log.probesSpawned
  }

  ghost predicate ProbeOk(s: State) {
    && s.env.probes + |s.env.results| <= 1
    && (s.loop.ending.None? ==>
          && (s.loop.hbInFlight <==> s.env.probes + |s.env.results| == 1)
          && !(s.loop.hbInFlight && s.loop.wantHbStream)
          && s.log.ticks == |s.log.outcomes| + One(s.loop.wantHbStream) + One(s.loop.hbInFlight))
    && (!s.mode.heartbeat ==> !s.loop.wantHbStream && s.env.probes == 0 && s.env.results == [] && s.log.ticks == 0)
  }

  ghost predicate MissOk(s: State) {
    && s.loop.missed == TrailingFailures(s.log.outcomes) <= MAX_MISSED
    && (s.loop.ending.None? ==> s.loop.missed < MAX_MISSED)
    && (s.loop.ending.Some? ==> (s.loop.ending.value == PeerDead <==> s.loop.missed == MAX_MISSED))
  }

  ghost predicate EndingOk(s: State) {
    && (s.loop.ending == Some(Aborted) ==> s.env.abortRequested)
    && (s.loop.ending == Some(HandlesGone) ==> !s.env.ownerHandle && s.env.otherHandles == 0)
    && s.loop.ending != Some(ResultsGone)
    && |s.env.commands| <= 64
  }

  ghost predicate Inv(s: State) {
    FifoOk(s) && StreamsOk(s) && ProbeOk(s) && MissOk(s) && EndingOk(s)
  }

  lemma TrailingFailuresSnoc(outcomes: seq<bool>, ok: bool)
    ensures TrailingFailures(outcomes + [ok]) == if ok then 0 else 1 + TrailingFailures(outcomes)
  {
    assert (outcomes + [ok])[..|outcomes|] == outcomes;
  }

  lemma OkRepliesSnoc(answers: seq<Answer>, a: Answer)
    ensures OkReplies(answers + [a]) == OkReplies(answers) + One(a.ok)
    ensures Requests(answers + [a]) == Requests(answers) + [a.request]
  {
    assert (answers + [a])[..|answers|] == answers;
  }

  lemma HandleEventsKeepInv(s: State, e: Event)
    requires Inv(s) && Enabled(s, e)
    requires e.InboundStream? || e.RequestAbort? || e.CloneHandle? || e.DropHandle? || e.OwnerDrops?
    ensures Inv(Step(s, e))
  {
  }

  lemma ProbeEventsKeepInv(s: State, e: Event)
    requires Inv(s) && Enabled(s, e) && (e.Tick? || e.ProbeFinishes?)
    ensures Inv(Step(s, e))
  {
  }

  lemma RequestEventsKeepInv(s: State, e: Event)
    requires Inv(s) && Enabled(s, e) && (e.Send? || e.Command?)
    ensures Inv(Step(s, e))
  {
    var served := Requests(s.log.answered) + s.log.dropped;
    match e
    case Send(r) => assert (served + Pending(s) + s.env.commands) + [r] == served + Pending(s) + (s.env.commands + [r]);
    case Command => assert served + [] + s.env.commands == served + [s.env.commands[0]] + s.env.commands[1..];
  }

  lemma EndKeepsInv(s: State, why: Ending)
    requires FifoOk(s) && StreamsOk(s) && ProbeOk(s) && s.loop.ending.None?
    requires s.loop.missed == TrailingFailures(s.log.outcomes) <= MAX_MISSED
    requires why == PeerDead <==> s.loop.missed == MAX_MISSED
    requires why == Aborted ==> s.env.abortRequested
    requires why == HandlesGone ==> !s.env.ownerHandle && s.env.otherHandles == 0
    requires why != ResultsGone
    ensures Inv(End(s, why))
  {
  }

  lemma ReplyInOrder(s: State, ok: bool)
    requires FifoOk(s) && s.loop.ending.None?
    ensures FifoOk(Reply(s, ok))
    ensures OkReplies(Reply(s, ok).log.answered) == OkReplies(s.log.answered) + One(ok && s.loop.pendingOpen.Some?)
  {
    if s.loop.pendingOpen.Some? {
      OkRepliesSnoc(s.log.answered, Answer(s.loop.pendingOpen.value, ok));
      var served := Requests(s.log.answered) + [s.loop.pendingOpen.value];
      assert s.log.sent == served + s.log.dropped + [] + s.env.commands;
    }
  }

  /** Recording the outcome of an attempt whose flag has just been cleared. */
  lemma OutcomeKeepsInv(s: State, ok: bool)
    requires FifoOk(s) && StreamsOk(s) && MissOk(s) && EndingOk(s) && s.loop.ending.None? && s.mode.heartbeat
    requires !s.loop.wantHbStream && !s.loop.hbInFlight && s.env.probes == 0 && s.env.results == []
    requires s.log.ticks == |s.log.outcomes| + 1
    ensures Inv(Outcome(s, ok))
  {
    TrailingFailuresSnoc(s.log.outcomes, ok);
    var n := if ok then 0 else s.loop.missed + 1;
    if n >= MAX_MISSED {
      EndKeepsInv(s.(loop := s.loop.(missed := n), log := s.log.(outcomes := s.log.outcomes + [ok])), PeerDead);
    }
  }

  lemma OutboundKeepsInv(s: State)
    requires Inv(s) && Enabled(s, OutboundOk)
    ensures Inv(Opened(s)) && Inv(OpenFailed(s))
  {
    var r := s.(log := s.log.(streamsOpened := s.log.streamsOpened + 1));
    if s.loop.pendingOpen.Some? {
      OkRepliesSnoc(s.log.answered, Answer(s.loop.pendingOpen.value, true));
      ReplyInOrder(r, true);
    }
    ReplyInOrder(s, false);
    if s.loop.wantHbStream {
      var f := Reply(s, false);
      OutcomeKeepsInv(f.(loop := f.loop.(wantHbStream := false)), false);
    }
  }

  lemma StepKeepsInv(s: State, e: Event)
    requires Inv(s) && Enabled(s, e)
    ensures Inv(Step(s, e))
  {
    match e
    case Send(_) | Command => RequestEventsKeepInv(s, e);
    case InboundError => EndKeepsInv(s, YamuxFailed);
    case InboundClosed => EndKeepsInv(s, YamuxClosed);
    case CommandsGone => EndKeepsInv(s, HandlesGone);
    case AbortLands => EndKeepsInv(s, Aborted);
    case NoResultSenders =>
    case OutboundOk | OutboundErr => OutboundKeepsInv(s);
    case ResultReady =>
      var taken := s.(loop := s.loop.(hbInFlight := false), env := s.env.(results := s.env.results[1..]));
      OutcomeKeepsInv(taken, s.env.results[0]);
    case Tick | ProbeFinishes(_) => ProbeEventsKeepInv(s, e);
    case _ => HandleEventsKeepInv(s, e);
  }

  lemma StartOk(mode: Mode)
    ensures Inv(Start(mode))
  {
  }

  lemma {:induction false} ReachableInv(mode: Mode, t: seq<Event>, s: State)
    requires Run(mode, t) == Some(s)
    ensures Inv(s) && s.mode == mode
  {
    if t == [] {
      StartOk(mode);
    } else {
      ReachableInv(mode, t[..|t| - 1], Run(mode, t[..|t| - 1]).value);
      StepKeepsInv(Run(mode, t[..|t| - 1]).value, t[|t| - 1]);
    }
  }

  lemma {:induction false} DistinctCount(s: seq<Request>, r: Request)
    requires forall i, j :: 0 <= i < j < |s| ==> s[i] != s[j]
    requires r in s
    ensures multiset(s)[r] == 1
  {
    var n := |s| - 1;
    assert s == s[..n] + [s[n]];
    if s[n] != r {
      DistinctCount(s[..n], r);
    } else {
      assert r !in multiset(s[..n]);
    }
  }

  // ----- main results: every schedule of a driver -----

  lemma AnswerCount(answers: seq<Answer>)
    ensures |Requests(answers)| == |answers|
  {
  }

  ghost predicate InOnePlace(s: State, r: Request) {
    multiset(Requests(s.log.answered))[r] + multiset(s.log.dropped)[r]
    + multiset(Pending(s))[r] + multiset(s.env.commands)[r] == 1
  }

  lemma FifoMeansOnePlace(s: State, r: Request)
    requires FifoOk(s) && r in s.log.sent
    ensures InOnePlace(s, r)
  {
    DistinctCount(s.log.sent, r);
    var served := multiset(Requests(s.log.answered)) + multiset(s.log.dropped);
    assert multiset(s.log.sent) == served + multiset(Pending(s)) + multiset(s.env.commands);
  }

  lemma FifoMeansOrder(s: State)
    requires FifoOk(s)
    ensures
      && (s.loop.ending.None? ==> s.log.sent == Requests(s.log.answered) + Pending(s) + s.env.commands)
      && (s.loop.ending.Some? ==> s.log.sent == Requests(s.log.answered) + s.log.dropped)
    ensures |s.log.sent| == |s.log.answered| + |s.log.dropped| + |Pending(s)| + |s.env.commands| && |Pending(s)| <= 1
    ensures forall r :: r in s.log.sent ==> InOnePlace(s, r)
  {
    AnswerCount(s.log.answered);
    var served := Requests(s.log.answered);
    assert s.loop.ending.None? ==> served + [] + Pending(s) + s.env.commands == served + Pending(s) + s.env.commands;
    assert s.loop.ending.Some? ==> served + s.log.dropped + [] + [] == served + s.log.dropped;
    forall r | r in s.log.sent ensures InOnePlace(s, r) {
      FifoMeansOnePlace(s, r);
    }
  }

  /**
   Every accepted request is, at any moment, in exactly one place: answered, dropped with the
   driver, being opened or still queued. Answers come in the order of acceptance, at most one
   request is being opened, and once the loop has ended none is left waiting.
   */
  lemma RequestsResolveOnceInOrder(mode: Mode, t: seq<Event>, s: State)
    requires Run(mode, t) == Some(s)
    ensures
      && (s.loop.ending.None? ==> s.log.sent == Requests(s.log.answered) + Pending(s) + s.env.commands)
      && (s.loop.ending.Some? ==> s.log.sent == Requests(s.log.answered) + s.log.dropped)
    ensures |s.log.sent| == |s.log.answered| + |s.log.dropped| + |Pending(s)| + |s.env.commands| && |Pending(s)| <= 1
    ensures forall r :: r in s.log.sent ==> InOnePlace(s, r)
  {
    ReachableInv(mode, t, s);
    FifoMeansOrder(s);
  }

  /**
   Every stream that was opened was offered: each became one attempted successful reply or one
   probe. A requester that has gone away drops its reply, and the stream with it.
   */
  lemma OpenedStreamsAreUsed(mode: Mode, t: seq<Event>, s: State)
    requires Run(mode, t) == Some(s)
    ensures s.log.streamsOpened == OkReplies(s.log.answered) + s.log.probesSpawned
  {
    ReachableInv(mode, t, s);
  }

  /**
   The in-flight flag means exactly one probe is running or reporting, never while another is
   wanted; the result channel never holds two; every tick yields exactly one outcome.
   */
  lemma AtMostOneProbe(mode: Mode, t: seq<Event>, s: State)
    requires Run(mode, t) == Some(s)
    ensures
      && s.env.probes + |s.env.results| <= 1
      && (s.loop.ending.None? ==>
            && (s.loop.hbInFlight <==> s.env.probes + |s.env.results| == 1)
            && !(s.loop.hbInFlight && s.loop.wantHbStream)
            && s.log.ticks == |s.log.outcomes| + One(s.loop.wantHbStream) + One(s.loop.hbInFlight))
      && (!mode.heartbeat ==> s.log.ticks == 0)
  {
    ReachableInv(mode, t, s);
  }

  /** Answers, outcomes and the end of the loop are final. */
  lemma {:induction false} HistoryIsFinal(mode: Mode, t: seq<Event>, u: seq<Event>, s: State, s': State)
    requires Run(mode, t) == Some(s) && Run(mode, t + u) == Some(s')
    ensures s.log.answered <= s'.log.answered && s.log.dropped <= s'.log.dropped && s.log.outcomes <= s'.log.outcomes
    ensures s.loop.ending.Some? ==> s'.loop.ending == s.loop.ending && s'.loop.missed == s.loop.missed
  {
    if u == [] {
      assert t + u == t;
    } else {
      assert (t + u)[..|t + u| - 1] == t + u[..|u| - 1];
      var before := Run(mode, t + u[..|u| - 1]).value;
      HistoryIsFinal(mode, t, u[..|u| - 1], s, before);
      StepOnlyAppends(before, u[|u| - 1]);
    }
  }

  lemma StepOnlyAppends(s: State, e: Event)
    requires Enabled(s, e)
    ensures var s' := Step(s, e);
      && s.log.answered <= s'.log.answered && s.log.dropped <= s'.log.dropped && s.log.outcomes <= s'.log.outcomes
      && (s.loop.ending.Some? ==> s'.loop.ending == s.loop.ending && s'.loop.missed == s.loop.missed)
  {
  }

  /**
   The miss counter is the trailing run of failures, open failures and probe failures alike. It
   is fatal exactly at the fifth, an abort ends the loop only when it was requested, the closed
   command channel only when the handler and everybody else have dropped their handles, the result
   channel never. Who requests aborts and drops handles is in `Lifecycles`.
   */
  lemma MissesAndEndings(mode: Mode, t: seq<Event>, s: State)
    requires Run(mode, t) == Some(s)
    ensures
      && s.loop.missed == TrailingFailures(s.log.outcomes) <= MAX_MISSED
      && (s.loop.ending.None? ==> s.loop.missed < MAX_MISSED)
      && (s.loop.ending == Some(PeerDead) <==> s.loop.missed == MAX_MISSED)
      && (s.loop.ending == Some(Aborted) ==> s.env.abortRequested)
      && (s.loop.ending == Some(HandlesGone) ==> !s.env.ownerHandle && s.env.otherHandles == 0)
      && s.loop.ending != Some(ResultsGone)
  {
    ReachableInv(mode, t, s);
  }

  lemma RunExtends(mode: Mode, t: seq<Event>, e: Event)
    requires Run(mode, t).Some? && Enabled(Run(mode, t).value, e)
    ensures Run(mode, t + [e]) == Some(Step(Run(mode, t).value, e))
  {
    assert (t + [e])[..|t|] == t;
  }

  /** At most 64 requests wait in the channel. */
  lemma QueueIsBounded(mode: Mode, t: seq<Event>, s: State)
    requires Run(mode, t) == Some(s)
    ensures |s.env.commands| <= 64
  {
    ReachableInv(mode, t, s);
  }

  predicate Unheld(s: State) { !s.env.ownerHandle && s.env.otherHandles == 0 }

  lemma HandlesStayGone(s: State, e: Event)
    requires Enabled(s, e) && Unheld(s)
    ensures Unheld(Step(s, e)) && Step(s, e).log.sent == s.log.sent
  {
  }

  /** Once every handle is gone no request is accepted and no handle comes back. */
  lemma {:induction false} RequestsNeedHandles(mode: Mode, t: seq<Event>, u: seq<Event>, s: State, s': State)
    requires Run(mode, t) == Some(s) && Run(mode, t + u) == Some(s') && Unheld(s)
    ensures Unheld(s') && s'.log.sent == s.log.sent
  {
    if u == [] {
      assert t + u == t;
    } else {
      assert (t + u)[..|t + u| - 1] == t + u[..|u| - 1];
      var before := Run(mode, t + u[..|u| - 1]).value;
      RequestsNeedHandles(mode, t, u[..|u| - 1], s, before);
      HandlesStayGone(before, u[|u| - 1]);
    }
  }

  /** A running loop with a handle left takes any new request while fewer than 64 wait. */
  lemma RoomForRequests(mode: Mode, t: seq<Event>, s: State, r: Request)
    requires Run(mode, t) == Some(s) && s.loop.ending.None? && r !in s.log.sent
    requires (s.env.ownerHandle || s.env.otherHandles > 0) && |s.env.commands| < 64
    ensures var s' := Run(mode, t + [Send(r)]); s'.Some? && s'.value.log.sent == s.log.sent + [r]
  {
    RunExtends(mode, t, Send(r));
  }

  lemma AnswerPending(mode: Mode, t: seq<Event>, s: State)
    requires Run(mode, t) == Some(s) && s.loop.ending.None? && s.loop.pendingOpen.Some?
    ensures var s' := Run(mode, t + [OutboundOk]);
      && s'.Some? && s'.value.loop.ending.None? && s'.value.loop.pendingOpen.None?
      && s'.value.env == s.env
      && s'.value.log.answered == s.log.answered + [Answer(s.loop.pendingOpen.value, true)]
  {
    RunExtends(mode, t, OutboundOk);
  }

  lemma AnswerNext(mode: Mode, t: seq<Event>, s: State)
    requires Run(mode, t) == Some(s) && s.loop.ending.None? && s.loop.pendingOpen.None? && s.env.commands != []
    ensures var s' := Run(mode, t + [Command] + [OutboundOk]);
      && s'.Some? && s'.value.loop.ending.None? && s'.value.loop.pendingOpen.None?
      && s'.value.env.commands == s.env.commands[1..]
      && s'.value.log.answered == s.log.answered + [Answer(s.env.commands[0], true)]
  {
    RunExtends(mode, t, Command);
    AnswerPending(mode, t + [Command], Run(mode, t + [Command]).value);
  }

  /** s' is s after its pending request and the n next ones got their streams. */
  ghost predicate GotStreams(s: State, s': State, n: nat)
    requires n <= |s.env.commands|
  {
    && s'.loop.ending.None? && s'.loop.pendingOpen.None? && s'.env.commands == s.env.commands[n..]
    && s'.log.answered == s.log.answered + OkAnswers(Pending(s) + s.env.commands[..n])
  }

  lemma OneMoreStream(s: State, s1: State, s2: State, n: nat)
    requires n < |s.env.commands| && GotStreams(s, s1, n)
    requires s2.loop.ending.None? && s2.loop.pendingOpen.None? && s2.env.commands == s1.env.commands[1..]
    requires s2.log.answered == s1.log.answered + [Answer(s1.env.commands[0], true)]
    ensures GotStreams(s, s2, n + 1)
  {
    var r := s.env.commands[n];
    OkAnswersSnoc(Pending(s) + s.env.commands[..n], r);
    assert Pending(s) + s.env.commands[..n] + [r] == Pending(s) + s.env.commands[..n + 1];
  }

  lemma PendingGetsStream(mode: Mode, t: seq<Event>, s: State) returns (u: seq<Event>, s': State)
    requires Run(mode, t) == Some(s) && s.loop.ending.None?
    ensures Run(mode, t + u) == Some(s') && GotStreams(s, s', 0) && Serves(u)
  {
    OkAnswersSnoc([], if s.loop.pendingOpen.Some? then s.loop.pendingOpen.value else 0);
    assert Pending(s) + s.env.commands[..0] == Pending(s);
    if s.loop.pendingOpen.Some? {
      assert Pending(s) == [] + [s.loop.pendingOpen.value];
      AnswerPending(mode, t, s);
      u, s' := [OutboundOk], Run(mode, t + [OutboundOk]).value;
    } else {
      assert t + [] == t;
      u, s' := [], s;
    }
  }

  lemma NextGetsStream(mode: Mode, t: seq<Event>, s: State, u: seq<Event>, s1: State, n: nat)
    requires n < |s.env.commands| && Run(mode, t + u) == Some(s1) && GotStreams(s, s1, n)
    ensures var s2 := Run(mode, t + (u + [Command, OutboundOk])); s2.Some? && GotStreams(s, s2.value, n + 1)
  {
    AnswerNext(mode, t + u, s1);
    assert t + u + [Command] + [OutboundOk] == t + (u + [Command, OutboundOk]);
    OneMoreStream(s, s1, Run(mode, t + u + [Command] + [OutboundOk]).value, n);
  }

  /** The loop takes commands and yamux opens streams; nothing else happens. */
  predicate Serves(u: seq<Event>) { forall e <- u :: e.Command? || e.OutboundOk? }

  /**
   No accepted request is starved: from every reachable state of a running loop, while yamux opens
   streams, all that are pending or queued get their stream, in order, whatever the heartbeats do.
   */
  lemma {:induction false} WaitingRequestsCanBeAnswered(mode: Mode, t: seq<Event>, s: State, n: nat)
    returns (u: seq<Event>, s': State)
    requires Run(mode, t) == Some(s) && s.loop.ending.None? && n <= |s.env.commands|
    ensures Run(mode, t + u) == Some(s') && GotStreams(s, s', n) && Serves(u)
  {
    if n == 0 {
      u, s' := PendingGetsStream(mode, t, s);
    } else {
      var u1, s1 := WaitingRequestsCanBeAnswered(mode, t, s, n - 1);
      NextGetsStream(mode, t, s, u1, s1, n - 1);
      u, s' := u1 + [Command, OutboundOk], Run(mode, t + (u1 + [Command, OutboundOk])).value;
    }
  }

  function OkAnswers(rs: seq<Request>): seq<Answer> {
    if rs == [] then [] else OkAnswers(rs[..|rs| - 1]) + [Answer(rs[|rs| - 1], true)]
  }

  lemma OkAnswersSnoc(rs: seq<Request>, r: Request)
    ensures OkAnswers(rs + [r]) == OkAnswers(rs) + [Answer(r, true)]
  {
    assert (rs + [r])[..|rs|] == rs;
  }

  // ----- what was recorded is what happened -----

  /** What the loop is asking yamux for. */
  datatype Asking = Asking(request: bool, probe: bool)

  /** Commands and ticks ask; an opened stream serves a request first, a failure ends both. */
  function AskingNext(before: Asking, e: Event): Asking {
    match e
    case Command => before.(request := true)
    case Tick => before.(probe := true)
    case OutboundOk => if before.request then before.(request := false) else before.(probe := false)
    case OutboundErr => Asking(false, false)
    case _ => before
  }

  /** Read off the events alone. */
  function AskingAfter(t: seq<Event>): Asking {
    if t == [] then Asking(false, false) else AskingNext(AskingAfter(t[..|t| - 1]), t[|t| - 1])
  }

  /** What one event reports. */
  function Report(e: Event, asked: Asking): seq<bool> {
    if e.ProbeFinishes? then [e.ok] else if e.OutboundErr? && asked.probe then [false] else []
  }

  /** The heartbeat results the events report, in order: of each probe, and false for each probe that got no stream. */
  function Reported(t: seq<Event>): seq<bool> {
    if t == [] then []
    else
      var e := t[|t| - 1];
      Reported(t[..|t| - 1]) + Report(e, AskingAfter(t[..|t| - 1]))
  }

  function Asked(s: State): Asking { Asking(s.loop.pendingOpen.Some?, s.loop.wantHbStream) }

  lemma AskingStep(s: State, e: Event)
    requires Enabled(s, e)
    ensures Step(s, e).loop.ending.None? ==> s.loop.ending.None? && Asked(Step(s, e)) == AskingNext(Asked(s), e)
  {
  }

  lemma {:induction false} AskingIsLoop(mode: Mode, t: seq<Event>, s: State)
    requires Run(mode, t) == Some(s) && s.loop.ending.None?
    ensures AskingAfter(t) == Asked(s)
  {
    if t != [] {
      var before := Run(mode, t[..|t| - 1]).value;
      AskingStep(before, t[|t| - 1]);
      AskingIsLoop(mode, t[..|t| - 1], before);
    }
  }

  /** Counted outcomes and results not yet taken. */
  function Heard(s: State): seq<bool> { s.log.outcomes + s.env.results }

  /** What was heard before, and the report, is heard after; only a loop that ends may not take it up. */
  ghost predicate Hears(s: State, s': State, report: seq<bool>) {
    if s'.loop.ending.None? then Heard(s') == Heard(s) + report else s'.log.outcomes <= Heard(s) + report
  }

  lemma ResultReports(s: State)
    requires Inv(s) && Enabled(s, ResultReady)
    ensures Hears(s, Received(s), [])
  {
    assert s.env.results == [s.env.results[0]] + s.env.results[1..];
  }

  lemma FailureReports(s: State)
    requires Inv(s) && Enabled(s, OutboundErr)
    ensures Hears(s, OpenFailed(s), if s.loop.wantHbStream then [false] else [])
  {
  }

  lemma OtherReports(s: State, e: Event)
    requires Inv(s) && Enabled(s, e) && s.loop.ending.None? && !e.ResultReady? && !e.OutboundErr?
    ensures Hears(s, Step(s, e), if e.ProbeFinishes? then [e.ok] else [])
  {
  }

  lemma ReportStep(s: State, e: Event)
    requires Inv(s) && Enabled(s, e) && s.loop.ending.None?
    ensures Hears(s, Step(s, e), Report(e, Asked(s)))
  {
    match e
    case ResultReady => ResultReports(s);
    case OutboundErr => FailureReports(s);
    case _ => OtherReports(s, e);
  }

  /**
   The loop's record of heartbeats is what the probes reported: while it runs, the outcomes it has
   counted and the result not yet taken are exactly the reported ones; once it has ended, the
   counted outcomes are the first of them.
   */
  lemma {:induction false} OutcomesAreReports(mode: Mode, t: seq<Event>, s: State)
    requires Run(mode, t) == Some(s)
    ensures s.loop.ending.None? ==> Heard(s) == Reported(t)
    ensures s.log.outcomes <= Reported(t)
  {
    if t != [] {
      var rest, e := t[..|t| - 1], t[|t| - 1];
      var before := Run(mode, rest).value;
      OutcomesAreReports(mode, rest, before);
      if before.loop.ending.None? {
        ReachableInv(mode, rest, before);
        AskingIsLoop(mode, rest, before);
        ReportStep(before, e);
      } else {
        OutcomesStay(before, e);
      }
    }
  }

  lemma OutcomesStay(s: State, e: Event)
    requires Enabled(s, e) && s.loop.ending.Some?
    ensures Step(s, e).log.outcomes == s.log.outcomes
  {
  }

  /** Every probe is answered and every stream opens. */
  predicate AllAnswered(t: seq<Event>) {
    forall i :: 0 <= i < |t| ==> t[i] != ProbeFinishes(false) && !t[i].OutboundErr?
  }

  lemma {:induction false} ReportedAllGood(t: seq<Event>)
    requires AllAnswered(t)
    ensures forall ok <- Reported(t) :: ok
  {
    if t != [] {
      ReportedAllGood(t[..|t| - 1]);
    }
  }

  /** A peer that answers every probe, where every stream opens, is never missed and never declared dead. */
  lemma AnsweringPeerIsNeverMissed(mode: Mode, t: seq<Event>, s: State)
    requires Run(mode, t) == Some(s)
    requires AllAnswered(t)
    ensures s.loop.missed == 0 && s.loop.ending != Some(PeerDead)
  {
    ReachableInv(mode, t, s);
    OutcomesAreReports(mode, t, s);
    ReportedAllGood(t);
    if s.log.outcomes != [] {
      assert Reported(t)[|s.log.outcomes| - 1] in Reported(t);
    }
  }
}
