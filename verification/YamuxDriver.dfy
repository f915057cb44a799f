/** The driver task itself: the select loop updating its locals, proved to follow `DriverModel`. */
module YamuxDriver {
  import opened Wrappers
  import opened DriverModel

  class Driver {
    const mode: Mode
    var pendingOpen: Option<Request>
    var wantHbStream: bool
    var hbInFlight: bool
    var missedHeartbeats: nat
    var ending: Option<Ending>
    var env: Env
    ghost var log: Log

    ghost function View(): State
      reads this
    {
      State(mode, Loop(pendingOpen, wantHbStream, hbInFlight, missedHeartbeats, ending), env, log)
    }

    constructor (mode: Mode)
      ensures this.mode == mode && View() == Start(mode)
    {
      this.mode := mode;
      pendingOpen, wantHbStream, hbInFlight := None, false, false;
      missedHeartbeats, ending := 0, None;
      env := Env([], [], 0, true, 0, false);
      log := Log([], [], [], 0, 0, 0, []);
    }

    /** Break out of the loop: the receivers and everything in them are dropped. */
    method Leave(why: Ending)
      modifies this
      ensures View() == End(old(View()), why)
    {
      log := log.(dropped := log.dropped + Pending(View()) + env.commands);
      env := env.(commands := [], results := []);
      pendingOpen, ending := None, Some(why);
    }

    method Answered(ok: bool)
      modifies this
      ensures View() == Reply(old(View()), ok)
    {
      if pendingOpen.Some? {
        log := log.(answered := log.answered + [Answer(pendingOpen.value, ok)]);
        pendingOpen := None;
      }
    }

    method Missed()
      modifies this
      ensures View() == Outcome(old(View()), false)
    {
      missedHeartbeats := missedHeartbeats + 1;
      log := log.(outcomes := log.outcomes + [false]);
      if missedHeartbeats >= MAX_MISSED {
        Leave(PeerDead);
      }
    }

    /** poll_new_outbound is ready with a stream. */
    method OutboundStream()
      requires pendingOpen.Some? || wantHbStream
      modifies this
      ensures View() == Opened(old(View()))
      // a waiting request goes first and the wanted probe goes on waiting
      ensures old(pendingOpen).Some? ==>
        && pendingOpen.None? && log.answered == old(log.answered) + [Answer(old(pendingOpen).value, true)]
        && wantHbStream == old(wantHbStream) && hbInFlight == old(hbInFlight) && env.probes == old(env.probes)
      ensures old(pendingOpen).None? ==>
        !wantHbStream && hbInFlight && env.probes == old(env.probes) + 1 && log.answered == old(log.answered)
    {
      log := log.(streamsOpened := log.streamsOpened + 1);
      if pendingOpen.Some? {
        Answered(true);
      } else if wantHbStream {
        wantHbStream := false;
        hbInFlight := true;
        env := env.(probes := env.probes + 1);
        log := log.(probesSpawned := log.probesSpawned + 1);
      }
    }

    /** poll_new_outbound failed: both waiting parties hear of it. */
    method OutboundFailed()
      requires pendingOpen.Some? || wantHbStream
      modifies this
      ensures View() == OpenFailed(old(View()))
      // one failure answers the waiting request and counts against the wanted probe
      ensures old(pendingOpen).Some? ==> log.answered == old(log.answered) + [Answer(old(pendingOpen).value, false)]
      ensures missedHeartbeats == old(missedHeartbeats) + if old(wantHbStream) then 1 else 0
      ensures pendingOpen.None? && !wantHbStream
    {
      Answered(false);
      if wantHbStream {
        wantHbStream := false;
        Missed();
      }
    }

    method ProbeResult()
      requires env.results != []
      modifies this
      ensures View() == Received(old(View()))
    {
      var ok := env.results[0];
      env := env.(results := env.results[1..]);
      hbInFlight := false;
      if ok {
        missedHeartbeats := 0;
        log := log.(outcomes := log.outcomes + [true]);
      } else {
        Missed();
      }
    }

    /** Senders, probe tasks and aborts, which run beside the loop. */
    method Environment(e: Event)
      requires Enabled(View(), e)
      requires e.Send? || e.ProbeFinishes? || e.RequestAbort? || e.CloneHandle? || e.DropHandle? || e.OwnerDrops?
      modifies this
      ensures View() == Step(old(View()), e)
    {
      match e
      case Send(r) =>
        env := env.(commands := env.commands + [r]);
        log := log.(sent := log.sent + [r]);
      case ProbeFinishes(ok) =>
        env := env.(probes := env.probes - 1, results := if ending.None? then env.results + [ok] else env.results);
      case RequestAbort => env := env.(abortRequested := true);
      case CloneHandle => env := env.(otherHandles := env.otherHandles + 1);
      case DropHandle => env := env.(otherHandles := env.otherHandles - 1);
      case OwnerDrops => env := env.(ownerHandle := false);
    }

    /** One ready arm of the select, or one step of the environment. */
    method Select(e: Event)
      requires Enabled(View(), e) && Inv(View()) && ending.None?
      modifies this
      ensures View() == Step(old(View()), e)
    {
      match e
      case InboundStream =>
      case InboundError => Leave(YamuxFailed);
      case InboundClosed => Leave(YamuxClosed);
      case OutboundOk => OutboundStream();
      case OutboundErr => OutboundFailed();
      case Command =>
        pendingOpen := Some(env.commands[0]);
        env := env.(commands := env.commands[1..]);
      case CommandsGone => Leave(HandlesGone);
      case Tick =>
        wantHbStream := true;
        log := log.(ticks := log.ticks + 1);
      case ResultReady => ProbeResult();
      case NoResultSenders => assert false;
      case AbortLands => Leave(Aborted);
      case _ => Environment(e);
    }

    /**
     The loop. It consumes the schedule until it breaks; the state it leaves is the model's
     state for the part consumed, so every result about `Run` is a result about this loop.
     */
    method Drive(schedule: seq<Event>) returns (served: nat)
      requires View() == Start(mode) && Run(mode, schedule).Some?
      modifies this
      ensures served <= |schedule| && Run(mode, schedule[..served]) == Some(View())
      ensures served < |schedule| ==> ending.Some?
    {
      served := 0;
      while ending.None? && served < |schedule|
        invariant served <= |schedule|
        invariant Run(mode, schedule[..served]) == Some(View())
      {
        var e := schedule[served];
        PrefixRuns(mode, schedule, served + 1);
        assert schedule[..served + 1][..served] == schedule[..served];
        ReachableInv(mode, schedule[..served], View());
        Select(e);
        served := served + 1;
      }
    }
  }

  lemma {:induction false} PrefixRuns(mode: Mode, t: seq<Event>, n: nat)
    requires n <= |t| && Run(mode, t).Some?
    ensures Run(mode, t[..n]).Some?
  {
    if n < |t| {
      PrefixRuns(mode, t[..|t| - 1], n);
      assert t[..|t| - 1][..n] == t[..n];
    } else {
      assert t[..n] == t;
    }
  }
}
