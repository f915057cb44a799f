/**
 The driver under a clock: do the heartbeat constants fit together?

 A timed schedule interleaves driver events with waiting. Scheduling is prompt: time does not
 pass an armed timer, a queued probe result is taken before time moves, and a heartbeat stream
 is opened (or fails to open) at most `delay` after it is wanted. Times are nanoseconds since
 the session was created, which is also when its interval timer starts.
 */
module DriverTime {
  import opened Wrappers
  import opened DriverModel
  import opened Registry

  const INTERVAL: nat := 15 * SECOND
  const PROBE_TIMEOUT: nat := 10 * SECOND

  datatype TimedState = TimedState(
    driver: State,
    now: nat,
    lastTick: nat,        // when the interval last fired; it next fires one period later
    probeStart: nat,
    lastActivity: nat,
    okTick: nat)          // the tick that led to the last success

  datatype TimedEvent = At(e: Event) | Touch | Wait(time: nat)

  predicate TickArmed(s: State) {
    s.loop.ending.None? && s.mode.heartbeat && !s.loop.hbInFlight && !s.loop.wantHbStream
  }

  /** Whether time may advance to `t` without anything due being late. */
  predicate Prompt(s: TimedState, delay: nat, t: nat) {
    s.driver.loop.ending.None? ==>
      && (s.driver.loop.wantHbStream ==> t <= s.lastTick + delay)
      && (s.driver.env.probes > 0 ==> t <= s.probeStart + PROBE_TIMEOUT)
      && (s.driver.env.results != [] ==> t == s.now)
      && (TickArmed(s.driver) ==> t == s.now || t <= s.lastTick + INTERVAL)
  }

  predicate Possible(s: TimedState, delay: nat, e: TimedEvent) {
    match e
    case At(e) => Enabled(s.driver, e) && (e.Tick? ==> s.now >= s.lastTick + INTERVAL)
    case Touch => true
    case Wait(time) => Prompt(s, delay, s.now + time)
  }

  function Advance(s: TimedState, delay: nat, e: TimedEvent): TimedState
    requires Possible(s, delay, e)
  {
    match e
    case Touch => s.(lastActivity := s.now)
    case Wait(time) => s.(now := s.now + time)
    case At(e) =>
      var succeeded := e.ResultReady? && s.driver.env.results[0];
      TimedState(
        Step(s.driver, e),
        s.now,
        if e.Tick? then s.now else s.lastTick,
        if e.OutboundOk? && s.driver.loop.pendingOpen.None? then s.now else s.probeStart,
        if succeeded then s.now else s.lastActivity,
        if succeeded then s.lastTick else s.okTick)
  }

  function TimedRun(mode: Mode, delay: nat, t: seq<TimedEvent>): Option<TimedState> {
    if t == [] then Some(TimedState(Start(mode), 0, 0, 0, 0, 0))
    else
      var before := TimedRun(mode, delay, t[..|t| - 1]);
      if before.Some? && Possible(before.value, delay, t[|t| - 1])
      then Some(Advance(before.value, delay, t[|t| - 1])) else None
  }

  // ----- invariant -----

  /** Ticks stay on the grid okTick + k * INTERVAL, one grid step per consecutive miss. */
  ghost predicate OnGrid(s: TimedState, delay: nat) {
    var d := s.driver;
    && s.okTick <= s.lastTick <= s.now && s.okTick <= s.lastActivity <= s.now
    && (TickArmed(d) ==> s.lastTick == s.okTick + INTERVAL * d.loop.missed && s.now <= s.lastTick + INTERVAL)
    && (d.loop.wantHbStream ==> s.lastTick == s.okTick + INTERVAL * (d.loop.missed + 1) && s.now <= s.lastTick + delay)
    && (d.loop.hbInFlight ==>
          && s.lastTick == s.okTick + INTERVAL * (d.loop.missed + 1)
          && s.probeStart <= s.lastTick + delay && s.now <= s.probeStart + PROBE_TIMEOUT)
  }

  lemma ClockKeepsGrid(s: TimedState, delay: nat, e: TimedEvent)
    requires Inv(s.driver) && s.driver.mode.heartbeat && OnGrid(s, delay)
    requires Possible(s, delay, e) && (e.Touch? || e.Wait?) && s.driver.loop.ending.None?
    ensures OnGrid(Advance(s, delay, e), delay)
  {
  }

  lemma OpenKeepsGrid(s: TimedState, delay: nat, ok: bool)
    requires delay <= 5 * SECOND && Inv(s.driver) && s.driver.mode.heartbeat && OnGrid(s, delay)
    requires Enabled(s.driver, OutboundOk)
    ensures var s' := Advance(s, delay, At(if ok then OutboundOk else OutboundErr));
      s'.driver.loop.ending.None? ==> OnGrid(s', delay)
  {
  }

  lemma ResultKeepsGrid(s: TimedState, delay: nat)
    requires delay <= 5 * SECOND && Inv(s.driver) && s.driver.mode.heartbeat && OnGrid(s, delay)
    requires Enabled(s.driver, ResultReady)
    ensures var s' := Advance(s, delay, At(ResultReady));
      s'.driver.loop.ending.None? ==> OnGrid(s', delay)
  {
  }

  lemma OtherEventsKeepGrid(s: TimedState, delay: nat, e: Event)
    requires delay <= 5 * SECOND && Inv(s.driver) && s.driver.mode.heartbeat && OnGrid(s, delay)
    requires Possible(s, delay, At(e)) && s.driver.loop.ending.None?
    requires !e.OutboundOk? && !e.OutboundErr? && !e.ResultReady?
    ensures var s' := Advance(s, delay, At(e));
      s'.driver.loop.ending.None? ==> OnGrid(s', delay)
  {
  }

  lemma EventKeepsGrid(s: TimedState, delay: nat, e: Event)
    requires delay <= 5 * SECOND && Inv(s.driver) && s.driver.mode.heartbeat && OnGrid(s, delay)
    requires Possible(s, delay, At(e)) && s.driver.loop.ending.None?
    ensures var s' := Advance(s, delay, At(e));
      s'.driver.loop.ending.None? ==> OnGrid(s', delay)
  {
    match e
    case OutboundOk => OpenKeepsGrid(s, delay, true);
    case OutboundErr => OpenKeepsGrid(s, delay, false);
    case ResultReady => ResultKeepsGrid(s, delay);
    case _ => OtherEventsKeepGrid(s, delay, e);
  }

  lemma AdvanceKeepsGrid(s: TimedState, delay: nat, e: TimedEvent)
    requires delay <= 5 * SECOND && s.driver.mode.heartbeat
    requires Inv(s.driver) && Possible(s, delay, e)
    requires s.driver.loop.ending.None? ==> OnGrid(s, delay)
    ensures var s' := Advance(s, delay, e);
      && Inv(s'.driver) && s'.driver.mode == s.driver.mode
      && (s'.driver.loop.ending.None? ==> OnGrid(s', delay))
  {
    if e.At? {
      StepKeepsInv(s.driver, e.e);
      StepOnlyAppends(s.driver, e.e);
      if s.driver.loop.ending.None? {
        EventKeepsGrid(s, delay, e.e);
      }
    } else if s.driver.loop.ending.None? {
      ClockKeepsGrid(s, delay, e);
    }
  }

  lemma {:induction false} ReachableOnGrid(mode: Mode, delay: nat, t: seq<TimedEvent>, s: TimedState)
    requires TimedRun(mode, delay, t) == Some(s) && mode.heartbeat && delay <= 5 * SECOND
    ensures Inv(s.driver) && s.driver.mode == mode
    ensures s.driver.loop.ending.None? ==> OnGrid(s, delay)
  {
    if t == [] {
      StartOk(mode);
    } else {
      var before := TimedRun(mode, delay, t[..|t| - 1]).value;
      ReachableOnGrid(mode, delay, t[..|t| - 1], before);
      AdvanceKeepsGrid(before, delay, t[|t| - 1]);
    }
  }

  // ----- main results -----

  lemma GridBounds(s: TimedState, delay: nat)
    requires Inv(s.driver) && s.driver.mode.heartbeat && delay <= 5 * SECOND && OnGrid(s, delay)
    requires s.driver.loop.ending.None?
    ensures s.now <= s.okTick + INTERVAL * (s.driver.loop.missed + 1) + delay + PROBE_TIMEOUT
    ensures s.now > s.okTick + 40 * SECOND + delay ==> s.driver.loop.missed >= TAKEOVER_AFTER_MISSED_HEARTBEATS
    ensures s.now <= s.okTick + 85 * SECOND + delay
    ensures s.okTick <= s.lastActivity
  {
  }

  /**
   While the driver of a heartbeat session runs, the clock is bounded by the miss count: two
   misses are recorded within 40s + delay of the last successful tick, and the fifth miss
   disconnects within 85s + delay.
   */
  lemma SilenceIsDetected(mode: Mode, delay: nat, t: seq<TimedEvent>, s: TimedState)
    requires TimedRun(mode, delay, t) == Some(s) && mode.heartbeat && delay <= 5 * SECOND
    requires s.driver.loop.ending.None?
    ensures s.now <= s.okTick + INTERVAL * (s.driver.loop.missed + 1) + delay + PROBE_TIMEOUT
    ensures s.now > s.okTick + 40 * SECOND + delay ==> s.driver.loop.missed >= TAKEOVER_AFTER_MISSED_HEARTBEATS
    ensures s.now <= s.okTick + 85 * SECOND + delay
    ensures s.okTick <= s.lastActivity
  {
    ReachableOnGrid(mode, delay, t, s);
    GridBounds(s, delay);
  }

  /** The bounds are not met by time standing still: whenever it may not pass, some due event can happen. */
  lemma TimeIsNeverStuck(s: TimedState, delay: nat)
    ensures Possible(s, delay, Wait(1)) || Possible(s, delay, At(Tick)) || Possible(s, delay, At(OutboundErr))
      || Possible(s, delay, At(ProbeFinishes(false))) || Possible(s, delay, At(ResultReady))
  {
  }

  /** The dashboard's verdict on a running heartbeat session is the miss count alone. */
  lemma VerdictIsTheMissCount(mode: Mode, delay: nat, t: seq<TimedEvent>, s: TimedState)
    requires TimedRun(mode, delay, t) == Some(s) && mode.heartbeat && delay < 5 * SECOND
    requires s.driver.loop.ending.None?
    ensures Alive(false, true, s.driver.loop.missed, s.lastActivity, s.now)
       <==> s.driver.loop.missed < TAKEOVER_AFTER_MISSED_HEARTBEATS
  {
    SilenceIsDetected(mode, delay, t, s);
  }

  /** The driver's part of a timed schedule. */
  function Events(t: seq<TimedEvent>): seq<Event> {
    if t == [] then []
    else
      var e := t[|t| - 1];
      Events(t[..|t| - 1]) + if e.At? then [e.e] else []
  }

  lemma {:induction false} DriverRuns(mode: Mode, delay: nat, t: seq<TimedEvent>, s: TimedState)
    requires TimedRun(mode, delay, t) == Some(s)
    ensures Run(mode, Events(t)) == Some(s.driver)
  {
    if t != [] {
      var before, e := TimedRun(mode, delay, t[..|t| - 1]).value, t[|t| - 1];
      DriverRuns(mode, delay, t[..|t| - 1], before);
      if e.At? {
        DriverModel.RunExtends(mode, Events(t[..|t| - 1]), e.e);
      } else {
        assert Events(t) == Events(t[..|t| - 1]);
      }
    }
  }

  /**
   The other side of detection: a peer that answers every probe is never disconnected as dead, was
   last heard of at most 25s + delay ago, and is shown alive as long as its driver runs.
   */
  lemma AnsweringPeerStaysAlive(mode: Mode, delay: nat, t: seq<TimedEvent>, s: TimedState)
    requires TimedRun(mode, delay, t) == Some(s) && mode.heartbeat && delay <= 5 * SECOND && AllAnswered(Events(t))
    ensures s.driver.loop.missed == 0 && s.driver.loop.ending != Some(PeerDead)
    ensures s.driver.loop.ending.None? ==>
      && s.now <= s.lastActivity + 25 * SECOND + delay
      && Alive(false, true, s.driver.loop.missed, s.lastActivity, s.now)
  {
    DriverRuns(mode, delay, t, s);
    AnsweringPeerIsNeverMissed(mode, Events(t), s.driver);
    if s.driver.loop.ending.None? {
      SilenceIsDetected(mode, delay, t, s);
    }
  }

  /** No running heartbeat session ever looks stale by the wall clock. */
  ghost predicate NeverStale(mode: Mode, delay: nat) {
    forall t, s :: TimedRun(mode, delay, t) == Some(s) && s.driver.loop.ending.None?
      ==> s.now - s.lastActivity < SESSION_STALE_SECS * SECOND
  }

  lemma RunExtends(mode: Mode, delay: nat, t: seq<TimedEvent>, e: TimedEvent)
    requires TimedRun(mode, delay, t).Some? && Possible(TimedRun(mode, delay, t).value, delay, e)
    ensures TimedRun(mode, delay, t + [e]) == Some(Advance(TimedRun(mode, delay, t).value, delay, e))
  {
    assert (t + [e])[..|t|] == t;
  }

  /** Idle since its k-th miss in a row, ten seconds after the k-th tick. */
  ghost predicate Silent(s: TimedState, mode: Mode, k: nat) {
    && s.driver.mode == mode
    && s.driver.loop == Loop(None, false, false, k, None)
    && s.driver.env.results == [] && s.driver.env.probes == 0
    && s.lastTick == INTERVAL * k && s.lastActivity == 0 && s.okTick == 0
    && s.now == if k == 0 then 0 else s.lastTick + PROBE_TIMEOUT
  }

  ghost predicate SilentAfter(mode: Mode, delay: nat, t: seq<TimedEvent>, s: TimedState, k: nat) {
    TimedRun(mode, delay, t) == Some(s) && Silent(s, mode, k)
  }

  /** Up to four probes time out one after the other. */
  lemma {:induction false} SilentRun(mode: Mode, delay: nat, k: nat) returns (t: seq<TimedEvent>, s: TimedState)
    requires k < MAX_MISSED && mode.heartbeat
    ensures SilentAfter(mode, delay, t, s, k)
  {
    if k == 0 {
      t, s := [], TimedState(Start(mode), 0, 0, 0, 0, 0);
    } else {
      t, s := SilentRun(mode, delay, k - 1);
      t, s := OneMoreMiss(mode, delay, t, s, k - 1);
    }
  }

  /** From silence: one whole probe that goes unanswered. */
  lemma OneMoreMiss(mode: Mode, delay: nat, t0: seq<TimedEvent>, s0: TimedState, k: nat)
    returns (t: seq<TimedEvent>, s: TimedState)
    requires k + 1 < MAX_MISSED && mode.heartbeat && SilentAfter(mode, delay, t0, s0, k)
    ensures SilentAfter(mode, delay, t, s, k + 1)
  {
    t := ProbeStarts(mode, delay, t0, k, 0);
    t := ProbeFails(mode, delay, t, k);
    s := TimedRun(mode, delay, t).value;
  }

  /** From an unanswered probe: its failure is reported and counted. */
  lemma ProbeFails(mode: Mode, delay: nat, t0: seq<TimedEvent>, k: nat) returns (t: seq<TimedEvent>)
    requires k + 1 < MAX_MISSED && mode.heartbeat
    requires TimedRun(mode, delay, t0).Some? && Unanswered(TimedRun(mode, delay, t0).value, mode, k, 0)
    ensures TimedRun(mode, delay, t).Some? && Silent(TimedRun(mode, delay, t).value, mode, k + 1)
  {
    UnansweredThenSilent(TimedRun(mode, delay, t0).value, mode, delay, k);
    RunExtends(mode, delay, t0, At(ProbeFinishes(false)));
    t := t0 + [At(ProbeFinishes(false))];
    RunExtends(mode, delay, t, At(ResultReady));
    t := t + [At(ResultReady)];
  }

  ghost predicate Wanting(s: TimedState, mode: Mode, k: nat) {
    && s.driver.mode == mode
    && s.driver.loop == Loop(None, true, false, k, None)
    && s.driver.env.results == [] && s.driver.env.probes == 0
    && s.lastTick == s.now == INTERVAL * (k + 1) && s.lastActivity == 0 && s.okTick == 0
  }

  lemma SilentThenTick(s: TimedState, mode: Mode, delay: nat, k: nat)
    requires k < MAX_MISSED && mode.heartbeat && Silent(s, mode, k)
    ensures var pause := Wait(if k == 0 then INTERVAL else INTERVAL - PROBE_TIMEOUT);
      && Possible(s, delay, pause)
      && Possible(Advance(s, delay, pause), delay, At(Tick))
      && Wanting(Advance(Advance(s, delay, pause), delay, At(Tick)), mode, k)
  {
  }

  /** From silence: the next tick. */
  lemma NextTick(mode: Mode, delay: nat, t0: seq<TimedEvent>, k: nat) returns (t: seq<TimedEvent>)
    requires k < MAX_MISSED && mode.heartbeat
    requires TimedRun(mode, delay, t0).Some? && Silent(TimedRun(mode, delay, t0).value, mode, k)
    ensures TimedRun(mode, delay, t).Some? && Wanting(TimedRun(mode, delay, t).value, mode, k)
  {
    var pause := Wait(if k == 0 then INTERVAL else INTERVAL - PROBE_TIMEOUT);
    SilentThenTick(TimedRun(mode, delay, t0).value, mode, delay, k);
    RunExtends(mode, delay, t0, pause);
    t := t0 + [pause];
    RunExtends(mode, delay, t, At(Tick));
    t := t + [At(Tick)];
  }

  /** Unanswered: ten seconds into a probe whose stream took `d` to open. */
  ghost predicate Unanswered(s: TimedState, mode: Mode, k: nat, d: nat) {
    && s.driver.mode == mode
    && s.driver.loop == Loop(None, false, true, k, None)
    && s.driver.env.results == [] && s.driver.env.probes == 1
    && s.lastTick == INTERVAL * (k + 1) && s.lastActivity == 0 && s.okTick == 0
    && s.now == s.lastTick + d + PROBE_TIMEOUT
  }

  lemma WantingThenUnanswered(s: TimedState, mode: Mode, delay: nat, k: nat, d: nat)
    requires k < MAX_MISSED && mode.heartbeat && d <= delay && Wanting(s, mode, k)
    ensures Possible(s, delay, Wait(d))
    ensures var s1 := Advance(s, delay, Wait(d));
      && Possible(s1, delay, At(OutboundOk))
      && Possible(Advance(s1, delay, At(OutboundOk)), delay, Wait(PROBE_TIMEOUT))
      && Unanswered(Advance(Advance(s1, delay, At(OutboundOk)), delay, Wait(PROBE_TIMEOUT)), mode, k, d)
  {
  }

  /** From silence: the next tick, a stream opened `d` later, and ten seconds without an answer. */
  lemma ProbeStarts(mode: Mode, delay: nat, t0: seq<TimedEvent>, k: nat, d: nat) returns (t: seq<TimedEvent>)
    requires k < MAX_MISSED && mode.heartbeat && d <= delay
    requires TimedRun(mode, delay, t0).Some? && Silent(TimedRun(mode, delay, t0).value, mode, k)
    ensures TimedRun(mode, delay, t).Some? && Unanswered(TimedRun(mode, delay, t).value, mode, k, d)
  {
    t := NextTick(mode, delay, t0, k);
    WantingThenUnanswered(TimedRun(mode, delay, t).value, mode, delay, k, d);
    RunExtends(mode, delay, t, Wait(d));
    t := t + [Wait(d)];
    RunExtends(mode, delay, t, At(OutboundOk));
    t := t + [At(OutboundOk)];
    RunExtends(mode, delay, t, Wait(PROBE_TIMEOUT));
    t := t + [Wait(PROBE_TIMEOUT)];
  }

  lemma UnansweredThenSilent(s: TimedState, mode: Mode, delay: nat, k: nat)
    requires k + 1 < MAX_MISSED && mode.heartbeat && Unanswered(s, mode, k, 0)
    ensures Possible(s, delay, At(ProbeFinishes(false)))
    ensures var s1 := Advance(s, delay, At(ProbeFinishes(false)));
      Possible(s1, delay, At(ResultReady)) && Silent(Advance(s1, delay, At(ResultReady)), mode, k + 1)
  {
  }

  /** The 40s + delay bound is attained too: until then only one miss may be recorded. */
  lemma TakeoverBoundIsTight(mode: Mode, delay: nat)
    requires mode.heartbeat && delay <= 5 * SECOND
    ensures exists t, s ::
      && TimedRun(mode, delay, t) == Some(s) && s.driver.loop.ending.None?
      && s.driver.loop.missed < TAKEOVER_AFTER_MISSED_HEARTBEATS && s.now == s.okTick + 40 * SECOND + delay
  {
    var t, silent := SilentRun(mode, delay, 1);
    t := ProbeStarts(mode, delay, t, 1, delay);
    var s := TimedRun(mode, delay, t).value;
    assert TimedRun(mode, delay, t) == Some(s) && s.now == s.okTick + 40 * SECOND + delay;
  }

  /** The 85s + delay bound is attained, for every delay the constants allow. */
  lemma DisconnectBoundIsTight(mode: Mode, delay: nat)
    requires mode.heartbeat && delay <= 5 * SECOND
    ensures exists t, s ::
      TimedRun(mode, delay, t) == Some(s) && s.driver.loop.ending.None? && s.now == s.okTick + 85 * SECOND + delay
  {
    var t, silent := SilentRun(mode, delay, 4);
    t := ProbeStarts(mode, delay, t, 4, delay);
    var s := TimedRun(mode, delay, t).value;
    assert TimedRun(mode, delay, t) == Some(s) && s.now == s.okTick + 85 * SECOND + delay;
  }

  /**
   Traffic does not hide a peer that has stopped answering probes: the last response may be as
   recent as can be, and the session is already open to takeover and shown dead.
   */
  lemma TrafficDoesNotHideSilence(mode: Mode, delay: nat)
    requires mode.heartbeat
    ensures exists t, s ::
      && TimedRun(mode, delay, t) == Some(s) && s.driver.loop.ending.None?
      && s.lastActivity == s.now && !Alive(false, true, s.driver.loop.missed, s.lastActivity, s.now)
  {
    var t, silent := SilentRun(mode, delay, TAKEOVER_AFTER_MISSED_HEARTBEATS);
    RunExtends(mode, delay, t, Touch);
    var s := Advance(silent, delay, Touch);
    assert TimedRun(mode, delay, t + [Touch]) == Some(s);
  }

  /** The wall-clock fallback can never beat the fifth miss exactly when streams open in under five seconds. */
  lemma NeverStaleIffStreamsOpenPromptly(mode: Mode, delay: nat)
    requires mode.heartbeat
    ensures NeverStale(mode, delay) <==> delay < 5 * SECOND
  {
    if delay < 5 * SECOND {
      forall t, s | TimedRun(mode, delay, t) == Some(s) && s.driver.loop.ending.None?
        ensures s.now - s.lastActivity < SESSION_STALE_SECS * SECOND
      {
        SilenceIsDetected(mode, delay, t, s);
      }
    } else {
      var t, silent := SilentRun(mode, delay, 4);
      t := ProbeStarts(mode, delay, t, 4, 5 * SECOND);
      var s := TimedRun(mode, delay, t).value;
      assert TimedRun(mode, delay, t) == Some(s) && s.now - s.lastActivity == 90 * SECOND;
    }
  }
}
