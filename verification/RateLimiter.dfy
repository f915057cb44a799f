/**
 The per-key request limiter: fixed one-second windows that start at their first request.
 Times are nanoseconds on a clock that never goes back; keys are independent.
 */
module RateLimiter {
  import opened Wrappers

  datatype Window = Window(start: nat, count: nat)

  /** The window after a request at `now`, and whether the request is admitted. */
  function Checked(max: nat, w: Option<Window>, now: nat): (Option<Window>, bool) {
    if max == 0 then (w, true)
    else
      var Window(start, count) := if w.Some? then w.value else Window(now, 0);
      if WholeSeconds(start, now) >= 1 then (Some(Window(now, 1)), true)
      else if count < max then (Some(Window(start, count + 1)), true)
      else (Some(Window(start, count)), false)
  }

  /** The window the shared map keeps for a key. */
  function Find(counters: map<string, Window>, key: string): Option<Window> {
    if key in counters then Some(counters[key]) else None
  }

  class Limiter {
    const maxPerSecond: nat
    var counters: map<string, Window>

    ghost function Lookup(key: string): Option<Window>
      reads this
    {
      Find(counters, key)
    }

    constructor (max: nat)
      ensures maxPerSecond == max && counters == map[]
    {
      maxPerSecond, counters := max, map[];
    }

    method Check(key: string, now: nat) returns (admitted: bool)
      modifies this`counters
      ensures (Lookup(key), admitted) == Checked(maxPerSecond, old(Lookup(key)), now)
      ensures forall k :: k != key ==> Lookup(k) == old(Lookup(k))
    {
      if maxPerSecond == 0 {
        return true;
      }
      if key !in counters {
        counters := counters[key := Window(now, 0)];
      }
      var w := counters[key];
      if WholeSeconds(w.start, now) >= 1 {
        counters := counters[key := Window(now, 1)];
        admitted := true;
      } else if w.count < maxPerSecond {
        counters := counters[key := Window(w.start, w.count + 1)];
        admitted := true;
      } else {
        admitted := false;
      }
    }
  }

  // ----- runs: the request times of one key, in order -----

  predicate Ordered(t: seq<nat>) {
    forall i, j :: 0 <= i <= j < |t| ==> t[i] <= t[j]
  }

  function WindowAfter(max: nat, t: seq<nat>): Option<Window> {
    if t == [] then None else Checked(max, WindowAfter(max, t[..|t| - 1]), t[|t| - 1]).0
  }

  predicate LastAdmitted(max: nat, t: seq<nat>)
    requires t != []
  {
    Checked(max, WindowAfter(max, t[..|t| - 1]), t[|t| - 1]).1
  }

  /** Admitted requests at times in [from, to). */
  function Admitted(max: nat, t: seq<nat>, from: nat, to: nat): nat {
    if t == [] then 0
    else
      Admitted(max, t[..|t| - 1], from, to)
      + if from <= t[|t| - 1] < to && LastAdmitted(max, t) then 1 else 0
  }

  lemma Snoc(max: nat, t: seq<nat>, now: nat, from: nat, to: nat)
    ensures WindowAfter(max, t + [now]) == Checked(max, WindowAfter(max, t), now).0
    ensures Admitted(max, t + [now], from, to)
         == Admitted(max, t, from, to) + if from <= now < to && Checked(max, WindowAfter(max, t), now).1 then 1 else 0
  {
    assert (t + [now])[..|t|] == t;
  }

  // ----- the upper bound -----

  /** Number of windows that can have opened in [from, start]. */
  function Windows(from: nat, start: nat): nat
    requires from <= start
  {
    (start - from) / SECOND + 1
  }

  /** A window that opened before `from` spent its first admission there. */
  ghost predicate Bounded(max: nat, w: Window, from: nat, n: nat) {
    && 1 <= w.count <= max
    && (w.start < from ==> n <= w.count - 1)
    && (w.start >= from ==> n <= Windows(from, w.start) * max - 1 + w.count)
  }

  lemma Monotone(a: nat, b: nat, max: nat)
    requires a <= b
    ensures a * max <= b * max
  {
  }

  lemma WindowsGrow(from: nat, start: nat, now: nat)
    requires from <= start && start + SECOND <= now
    ensures Windows(from, start) + 1 <= Windows(from, now)
  {
    assert (now - from) / SECOND >= (start + SECOND - from) / SECOND;
  }

  lemma WindowsFit(from: nat, start: nat, n: nat)
    requires from <= start < from + n * SECOND
    ensures Windows(from, start) <= n
  {
  }

  lemma ASecondHasPassed(start: nat, now: nat)
    requires start <= now
    ensures WholeSeconds(start, now) >= 1 <==> start + SECOND <= now
  {
  }

  /** Opening the next window: the closed one used at most max. */
  lemma NextWindow(max: nat, w: Window, from: nat, n: nat, now: nat)
    requires max > 0 && Bounded(max, w, from, n) && w.start + SECOND <= now
    requires now < from ==> n == 0
    ensures Bounded(max, Window(now, 1), from, n + if from <= now then 1 else 0)
  {
    if from <= now {
      if w.start >= from {
        WindowsGrow(from, w.start, now);
        Monotone(Windows(from, w.start) + 1, Windows(from, now), max);
        assert (Windows(from, w.start) + 1) * max == Windows(from, w.start) * max + max;
      } else {
        Monotone(1, Windows(from, now), max);
      }
    }
  }

  lemma StepKeepsBound(max: nat, w: Window, from: nat, n: nat, now: nat)
    requires max > 0 && Bounded(max, w, from, n) && w.start <= now
    requires now < from ==> n == 0
    ensures var (w', ok) := Checked(max, Some(w), now);
      && w'.Some? && w'.value.start <= now
      && Bounded(max, w'.value, from, n + if from <= now && ok then 1 else 0)
  {
    ASecondHasPassed(w.start, now);
    if w.start + SECOND <= now {
      NextWindow(max, w, from, n, now);
    }
  }

  lemma {:induction false} BoundHolds(max: nat, t: seq<nat>, from: nat, to: nat)
    requires max > 0 && Ordered(t) && t != [] && t[|t| - 1] < to
    ensures var w := WindowAfter(max, t);
      w.Some? && w.value.start <= t[|t| - 1] && Bounded(max, w.value, from, Admitted(max, t, from, to))
    ensures t[|t| - 1] < from ==> Admitted(max, t, from, to) == 0
  {
    var t0, now := t[..|t| - 1], t[|t| - 1];
    if t0 == [] {
      assert Admitted(max, t0, from, to) == 0;
      if from <= now {
        Monotone(1, Windows(from, now), max);
      }
    } else {
      BoundHolds(max, t0, from, to);
      StepKeepsBound(max, WindowAfter(max, t0).value, from, Admitted(max, t0, from, to), now);
    }
  }

  lemma BoundAtEnd(max: nat, w: Window, from: nat, admitted: nat, n: nat)
    requires max > 0 && n >= 1 && Bounded(max, w, from, admitted) && w.start < from + n * SECOND
    ensures admitted <= (n + 1) * max - 1
  {
    if w.start >= from {
      WindowsFit(from, w.start, n);
      Monotone(Windows(from, w.start), n, max);
    } else {
      Monotone(1, n + 1, max);
    }
    assert (n + 1) * max == n * max + max;
  }

  /** Whatever the request times, n seconds see at most (n + 1) * max - 1 admissions. */
  lemma {:induction false} AtMostInterval(max: nat, t: seq<nat>, from: nat, n: nat)
    requires max > 0 && n >= 1 && Ordered(t)
    ensures Admitted(max, t, from, from + n * SECOND) <= (n + 1) * max - 1
  {
    var to := from + n * SECOND;
    if t == [] {
      Monotone(1, n + 1, max);
    } else if t[|t| - 1] >= to {
      AtMostInterval(max, t[..|t| - 1], from, n);
    } else {
      BoundHolds(max, t, from, to);
      BoundAtEnd(max, WindowAfter(max, t).value, from, Admitted(max, t, from, to), n);
    }
  }

  // ----- the bound is attained -----

  function Repeat(time: nat, c: nat): (r: seq<nat>)
    ensures |r| == c && forall i :: 0 <= i < c ==> r[i] == time
  {
    if c == 0 then [] else Repeat(time, c - 1) + [time]
  }

  /** One request opens a window, it is exhausted just before it ends, and then each second brings a full one. */
  function Burst(max: nat, n: nat): seq<nat>
    requires max > 0
  {
    if n == 0 then [0] + Repeat(SECOND - 1, max - 1) else Burst(max, n - 1) + Repeat(n * SECOND, max)
  }

  /** The window after c requests at one time, when they all fit. */
  function Filled(w: Window, time: nat, c: nat): Window {
    if c == 0 then w else if w.start + SECOND <= time then Window(time, c) else Window(w.start, w.count + c)
  }

  lemma OneMoreFits(max: nat, w: Window, time: nat, c: nat)
    requires max > 0 && Fits(max, w, time, c + 1)
    ensures Checked(max, Some(Filled(w, time, c)), time) == (Some(Filled(w, time, c + 1)), true)
  {
    ASecondHasPassed(Filled(w, time, c).start, time);
  }

  predicate Fits(max: nat, w: Window, time: nat, c: nat) {
    w.start <= time && c + (if w.start + SECOND <= time then 0 else w.count) <= max
  }

  lemma FillOnce(max: nat, u: seq<nat>, w: Window, time: nat, c: nat)
    requires max > 0 && Fits(max, w, time, c + 1) && WindowAfter(max, u) == Some(Filled(w, time, c))
    ensures WindowAfter(max, u + [time]) == Some(Filled(w, time, c + 1))
  {
    OneMoreFits(max, w, time, c);
    Snoc(max, u, time, 0, 0);
  }

  lemma {:induction false} RepeatFills(max: nat, t: seq<nat>, w: Window, time: nat, c: nat)
    requires max > 0 && WindowAfter(max, t) == Some(w) && Fits(max, w, time, c)
    ensures WindowAfter(max, t + Repeat(time, c)) == Some(Filled(w, time, c))
  {
    if c == 0 {
      assert t + [] == t;
    } else {
      RepeatFills(max, t, w, time, c - 1);
      FillOnce(max, t + Repeat(time, c - 1), w, time, c - 1);
      assert t + Repeat(time, c - 1) + [time] == t + Repeat(time, c);
    }
  }

  lemma RepeatOnce(max: nat, t: seq<nat>, w: Window, time: nat, c: nat, from: nat, to: nat)
    requires max > 0 && from <= time < to && WindowAfter(max, t) == Some(w) && Fits(max, w, time, c + 1)
    ensures Admitted(max, t + Repeat(time, c + 1), from, to) == Admitted(max, t + Repeat(time, c), from, to) + 1
  {
    var u := t + Repeat(time, c);
    RepeatFills(max, t, w, time, c);
    OneMoreFits(max, w, time, c);
    assert u + [time] == t + Repeat(time, c + 1);
    Snoc(max, u, time, from, to);
  }

  lemma {:induction false} RepeatAdmitted(max: nat, t: seq<nat>, w: Window, time: nat, c: nat, from: nat, to: nat)
    requires max > 0 && from <= time < to && WindowAfter(max, t) == Some(w) && Fits(max, w, time, c)
    ensures Admitted(max, t + Repeat(time, c), from, to) == Admitted(max, t, from, to) + c
  {
    if c == 0 {
      assert t + [] == t;
    } else {
      RepeatAdmitted(max, t, w, time, c - 1, from, to);
      RepeatOnce(max, t, w, time, c - 1, from, to);
    }
  }

  lemma {:induction false} BurstIsOrdered(max: nat, n: nat)
    requires max > 0
    ensures var t := Burst(max, n);
      t != [] && Ordered(t) && t[|t| - 1] <= if n == 0 then SECOND - 1 else n * SECOND
  {
    if n > 0 {
      BurstIsOrdered(max, n - 1);
    }
  }

  lemma BurstStarts(max: nat, to: nat)
    requires max > 0 && SECOND <= to
    ensures WindowAfter(max, Burst(max, 0)) == Some(Window(0, max))
    ensures Admitted(max, Burst(max, 0), SECOND - 1, to) == max - 1
  {
    var first: seq<nat> := [0];
    Snoc(max, [], 0, SECOND - 1, to);
    assert [] + first == first;
    RepeatFills(max, first, Window(0, 1), SECOND - 1, max - 1);
    RepeatAdmitted(max, first, Window(0, 1), SECOND - 1, max - 1, SECOND - 1, to);
  }

  lemma {:induction false} BurstAdmitted(max: nat, n: nat, to: nat)
    requires max > 0 && n * SECOND < to && SECOND <= to
    ensures WindowAfter(max, Burst(max, n)) == Some(Window(n * SECOND, max))
    ensures Admitted(max, Burst(max, n), SECOND - 1, to) == (n + 1) * max - 1
  {
    if n == 0 {
      BurstStarts(max, to);
    } else {
      BurstAdmitted(max, n - 1, to);
      RepeatFills(max, Burst(max, n - 1), Window((n - 1) * SECOND, max), n * SECOND, max);
      RepeatAdmitted(max, Burst(max, n - 1), Window((n - 1) * SECOND, max), n * SECOND, max, SECOND - 1, to);
      assert (n + 1) * max == n * max + max;
    }
  }

  /** The bound is exact for every limit and every length: nearly twice the limit within one second. */
  lemma IntervalBoundIsTight(max: nat, n: nat)
    requires max > 0 && n >= 1
    ensures exists t :: Ordered(t) && Admitted(max, t, SECOND - 1, SECOND - 1 + n * SECOND) == (n + 1) * max - 1
  {
    BurstAdmitted(max, n, SECOND - 1 + n * SECOND);
    BurstIsOrdered(max, n);
  }

  // ----- what is never refused -----

  /** Requests at times in [from, to). */
  function Asked(t: seq<nat>, from: nat, to: nat): nat {
    if t == [] then 0
    else Asked(t[..|t| - 1], from, to) + if from <= t[|t| - 1] < to then 1 else 0
  }

  /** A limit of zero is no limit: every request is admitted and no window is ever kept. */
  lemma {:induction false} ZeroAdmitsAll(t: seq<nat>, from: nat, to: nat)
    ensures WindowAfter(0, t) == None && Admitted(0, t, from, to) == Asked(t, from, to)
  {
    if t != [] {
      ZeroAdmitsAll(t[..|t| - 1], from, to);
    }
  }

  lemma {:induction false} AskedMore(t: seq<nat>, from: nat, earlier: nat, to: nat)
    requires earlier <= from
    ensures Asked(t, from, to) <= Asked(t, earlier, to)
  {
    if t != [] {
      AskedMore(t[..|t| - 1], from, earlier, to);
    }
  }

  /** A window counts no more requests than came since it opened. */
  lemma {:induction false} WindowCountsRequests(max: nat, t: seq<nat>, to: nat)
    requires max > 0 && t != [] && Ordered(t) && t[|t| - 1] < to
    ensures WindowAfter(max, t).Some?
    ensures var w := WindowAfter(max, t).value; w.count <= Asked(t, w.start, to) && w.start <= t[|t| - 1]
  {
    var rest := t[..|t| - 1];
    if rest != [] {
      WindowCountsRequests(max, rest, to);
    }
  }

  /** A request that finds fewer than `max` of its key within the last second is admitted. */
  lemma SparseRequestsAreAdmitted(max: nat, t: seq<nat>, now: nat)
    requires max > 0 && Ordered(t + [now])
    requires Asked(t, if now < SECOND then 0 else now - SECOND + 1, now + 1) < max
    ensures Checked(max, WindowAfter(max, t), now).1
  {
    if t != [] {
      assert (t + [now])[|t|] == now && (t + [now])[|t| - 1] == t[|t| - 1];
      assert forall i :: 0 <= i < |t| ==> (t + [now])[i] == t[i];
      WindowCountsRequests(max, t, now + 1);
      var w := WindowAfter(max, t).value;
      if w.start + SECOND <= now {
        ASecondHasPassed(w.start, now);
      } else {
        AskedMore(t, w.start, if now < SECOND then 0 else now - SECOND + 1, now + 1);
      }
    }
  }

  // ----- many keys: the shared map serves each key as if it were alone -----

  datatype Call = Call(key: string, now: nat)

  function CountersAfter(max: nat, calls: seq<Call>): map<string, Window> {
    if calls == [] then map[]
    else
      var before, c := CountersAfter(max, calls[..|calls| - 1]), calls[|calls| - 1];
      var w := Checked(max, Find(before, c.key), c.now).0;
      if w.Some? then before[c.key := w.value] else before
  }

  function TimesOf(calls: seq<Call>, key: string): seq<nat> {
    if calls == [] then []
    else
      var before, c := TimesOf(calls[..|calls| - 1], key), calls[|calls| - 1];
      if c.key == key then before + [c.now] else before
  }

  /** Admissions of one key within [from, to), decided on the shared map. */
  function AdmittedOf(max: nat, calls: seq<Call>, key: string, from: nat, to: nat): nat {
    if calls == [] then 0
    else
      var rest, c := calls[..|calls| - 1], calls[|calls| - 1];
      AdmittedOf(max, rest, key, from, to)
      + if c.key == key && from <= c.now < to && Checked(max, Find(CountersAfter(max, rest), key), c.now).1
        then 1 else 0
  }

  lemma {:induction false} KeysAreIndependent(max: nat, calls: seq<Call>, key: string, from: nat, to: nat)
    ensures Find(CountersAfter(max, calls), key) == WindowAfter(max, TimesOf(calls, key))
    ensures AdmittedOf(max, calls, key, from, to) == Admitted(max, TimesOf(calls, key), from, to)
  {
    if calls != [] {
      var rest, c := calls[..|calls| - 1], calls[|calls| - 1];
      KeysAreIndependent(max, rest, key, from, to);
      if c.key == key {
        Snoc(max, TimesOf(rest, key), c.now, from, to);
      }
    }
  }

  lemma {:induction false} TimesAreOrdered(calls: seq<Call>, key: string, last: nat)
    requires forall i, j :: 0 <= i <= j < |calls| ==> calls[i].now <= calls[j].now
    requires forall i :: 0 <= i < |calls| ==> calls[i].now <= last
    ensures Ordered(TimesOf(calls, key))
    ensures forall i :: 0 <= i < |TimesOf(calls, key)| ==> TimesOf(calls, key)[i] <= last
  {
    if calls != [] {
      TimesAreOrdered(calls[..|calls| - 1], key, calls[|calls| - 1].now);
    }
  }

  /**
   The limiter as a whole: for any interleaving of keys on a clock that never goes back, a key
   is admitted at most (n + 1) * max - 1 times in any n seconds.
   */
  lemma RequestsPerKeyAreBounded(max: nat, calls: seq<Call>, key: string, from: nat, n: nat)
    requires max > 0 && n >= 1
    requires forall i, j :: 0 <= i <= j < |calls| ==> calls[i].now <= calls[j].now
    ensures AdmittedOf(max, calls, key, from, from + n * SECOND) <= (n + 1) * max - 1
  {
    KeysAreIndependent(max, calls, key, from, from + n * SECOND);
    TimesAreOrdered(calls, key, if calls == [] then 0 else calls[|calls| - 1].now);
    AtMostInterval(max, TimesOf(calls, key), from, n);
  }
}
