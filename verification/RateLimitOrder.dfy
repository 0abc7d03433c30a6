/**
 The order in which attempts reach the limiter's log is exactly what its pruning relies on: after a
 series of attempts in clock order that ends at `now`, one more is answered as by the log that
 forgets nothing, whatever the series was, if and only if it is not dated before `now`. Overlapping
 calls can bring an earlier date although the clock only runs forward.
 */
module RateLimitOrder {
  import opened RateLimit

  // ------------------------------------------------------------- after a series

  /** The limiter after a series of events. */
  function After(p: Policy, s: State, events: seq<Event>): State
    decreases |events|
  {
    if events == [] then s
    else match events[0]
      case Attempt(key, t) => After(p, AllowStep(p, s, key, t).0, events[1..])
      case Forget(key) => After(p, ResetStep(s, key), events[1..])
  }

  function AfterFull(p: Policy, full: Logs, events: seq<Event>): Logs
    decreases |events|
  {
    if events == [] then full
    else match events[0]
      case Attempt(key, t) => AfterFull(p, AllowFull(p, full, key, t).0, events[1..])
      case Forget(key) => AfterFull(p, full - {key}, events[1..])
  }

  /** The time of the last attempt, or the start. */
  function LastTime(events: seq<Event>, start: Time): Time
    decreases |events|
  {
    if events == [] then start
    else match events[0]
      case Attempt(_, t) => LastTime(events[1..], t)
      case Forget(_) => LastTime(events[1..], start)
  }

  lemma {:induction false} AfterAgrees(p: Policy, s: State, full: Logs, now: Time, events: seq<Event>)
    requires Agree(p, s.hits, full, now) && Ordered(events, now)
    ensures Agree(p, After(p, s, events).hits, AfterFull(p, full, events), LastTime(events, now))
    decreases |events|
  {
    if events != [] {
      match events[0]
      case Attempt(key, t) =>
        AllowRefinesFull(p, s, full, now, key, t);
        AfterAgrees(p, AllowStep(p, s, key, t).0, AllowFull(p, full, key, t).0, t, events[1..]);
      case Forget(key) =>
        ResetRefinesFull(p, s, full, now, key);
        AfterAgrees(p, ResetStep(s, key), full - {key}, now, events[1..]);
    }
  }

  /** The answers to a series, and where it leaves both logs, when it is cut in two. */
  lemma {:induction false} CutInTwo(p: Policy, s: State, full: Logs, a: seq<Event>, b: seq<Event>)
    ensures After(p, s, a + b) == After(p, After(p, s, a), b)
    ensures AfterFull(p, full, a + b) == AfterFull(p, AfterFull(p, full, a), b)
    ensures Decisions(p, s, a + b) == Decisions(p, s, a) + Decisions(p, After(p, s, a), b)
    ensures DecisionsFull(p, full, a + b) == DecisionsFull(p, full, a) + DecisionsFull(p, AfterFull(p, full, a), b)
    decreases |a|
  {
    if a == [] {
      assert a + b == b;
    } else {
      assert (a + b)[0] == a[0] && (a + b)[1..] == a[1..] + b;
      match a[0]
      case Attempt(key, t) => CutInTwo(p, AllowStep(p, s, key, t).0, AllowFull(p, full, key, t).0, a[1..], b);
      case Forget(key) => CutInTwo(p, ResetStep(s, key), full - {key}, a[1..], b);
    }
  }

  lemma OneAttempt(p: Policy, s: State, full: Logs, key: string, t: Time)
    ensures After(p, s, [Attempt(key, t)]) == AllowStep(p, s, key, t).0
    ensures AfterFull(p, full, [Attempt(key, t)]) == AllowFull(p, full, key, t).0
    ensures Decisions(p, s, [Attempt(key, t)]) == [AllowStep(p, s, key, t).1]
    ensures DecisionsFull(p, full, [Attempt(key, t)]) == [AllowFull(p, full, key, t).1]
  {
    assert [Attempt(key, t)][1..] == [];
  }

  // -------------------------------------------- a full window forgotten too early

  /** Attempts of one key at one instant. */
  function Burst(key: string, at: Time, n: nat): seq<Event> {
    if n == 0 then [] else [Attempt(key, at)] + Burst(key, at, n - 1)
  }

  function Times(at: Time, n: nat): (times: seq<Time>)
    ensures |times| == n && forall i :: 0 <= i < n ==> times[i] == at
  {
    seq(n, i => at)
  }

  lemma {:induction false} RecentOfTimes(at: Time, n: nat, cut: Time)
    ensures Recent(Times(at, n), cut) == if at > cut then Times(at, n) else []
  {
    if n > 0 {
      assert Times(at, n)[..n - 1] == Times(at, n - 1);
      assert Times(at, n - 1) + [at] == Times(at, n);
      RecentOfTimes(at, n - 1, cut);
    }
  }

  /** One more attempt at the same instant. */
  lemma MoreTimes(at: Time, m: nat)
    ensures Times(at, m) + [at] == Times(at, m + 1)
    ensures Times(at, 0) == []
  {
  }

  lemma AfterCons(p: Policy, s: State, full: Logs, key: string, t: Time, rest: seq<Event>)
    ensures After(p, s, [Attempt(key, t)] + rest) == After(p, AllowStep(p, s, key, t).0, rest)
    ensures AfterFull(p, full, [Attempt(key, t)] + rest) == AfterFull(p, AllowFull(p, full, key, t).0, rest)
  {
    assert ([Attempt(key, t)] + rest)[1..] == rest;
  }

  /** A sweep keeps a log whose last entry is not before the cut. */
  lemma SweepKeepsLog(p: Policy, s: State, key: string, t: Time)
    requires var log := LogOf(s.hits, key); log != [] ==> log[|log| - 1] >= t - p.window
    ensures LogOf(Swept(p, s, t).hits, key) == LogOf(s.hits, key)
  {
  }

  /** Both logs hold the attempts so far, and take one more. */
  lemma BurstStep(p: Policy, s: State, full: Logs, key: string, at: Time, m: nat)
    requires p.window > 0 && m < p.limit && LogOf(s.hits, key) == Times(at, m) == LogOf(full, key)
    ensures LogOf(AllowStep(p, s, key, at).0.hits, key) == Times(at, m + 1) == LogOf(AllowFull(p, full, key, at).0, key)
  {
    SweepKeepsLog(p, s, key, at);
    AllowStepLogs(p, s, key, at, key);
    RecentOfTimes(at, m, at - p.window);
    MoreTimes(at, m);
  }

  lemma {:induction false} BurstFills(p: Policy, s: State, full: Logs, key: string, at: Time, m: nat, n: nat)
    requires p.window > 0 && m + n <= p.limit && LogOf(s.hits, key) == Times(at, m) == LogOf(full, key)
    ensures LogOf(After(p, s, Burst(key, at, n)).hits, key) == Times(at, m + n)
    ensures LogOf(AfterFull(p, full, Burst(key, at, n)), key) == Times(at, m + n)
    decreases n
  {
    if n > 0 {
      BurstStep(p, s, full, key, at, m);
      AfterCons(p, s, full, key, at, Burst(key, at, n - 1));
      BurstFills(p, AllowStep(p, s, key, at).0, AllowFull(p, full, key, at).0, key, at, m + 1, n - 1);
    }
  }

  /** One attempt a window later: the limiter forgets the burst, the full log does not. */
  lemma WindowLater(p: Policy, s: State, full: Logs, key: string, now: Time)
    requires p.window > 0 && p.limit >= 1
    requires LogOf(s.hits, key) == Times(now - p.window, p.limit) == LogOf(full, key)
    ensures LogOf(AllowStep(p, s, key, now).0.hits, key) == [now]
    ensures LogOf(AllowFull(p, full, key, now).0, key) == Times(now - p.window, p.limit) + [now]
  {
    SweepKeepsLog(p, s, key, now);
    AllowStepLogs(p, s, key, now, key);
    RecentOfTimes(now - p.window, p.limit, now - p.window);
    assert [] + [now] == [now];
  }

  lemma EarlierIsAdmitted(p: Policy, s: State, key: string, now: Time, t: Time)
    requires p.window > 0 && p.limit >= 2 && t < now && LogOf(s.hits, key) == [now]
    ensures AllowStep(p, s, key, t).1
  {
    SweepKeepsLog(p, s, key, t);
    AllowStepLogs(p, s, key, t, key);
    RecentOfOne(now, t - p.window);
  }

  lemma EarlierIsRefused(p: Policy, full: Logs, key: string, burst: seq<Time>, now: Time, t: Time)
    requires p.window > 0 && p.limit >= 0 && t < now && burst == Times(now - p.window, p.limit) && LogOf(full, key) == burst + [now]
    ensures !AllowFull(p, full, key, t).1
  {
    RecentOfTimes(now - p.window, p.limit, t - p.window);
    RecentOfAppend(burst, now, t - p.window);
    assert Recent(LogOf(full, key), t - p.window) == burst + [now];
  }

  /** As many attempts as the limit allows, and one a window later. */
  function FullWindow(p: Policy, key: string, now: Time): seq<Event>
    requires p.limit >= 0
  {
    Burst(key, now - p.window, p.limit) + [Attempt(key, now)]
  }

  lemma {:induction false} BurstOrdered(key: string, at: Time, n: nat, start: Time, rest: seq<Event>)
    requires start <= at && Ordered(rest, at)
    ensures Ordered(Burst(key, at, n) + rest, start) || n == 0
    ensures n > 0 ==> LastTime(Burst(key, at, n) + rest, start) == LastTime(rest, at)
    decreases n
  {
    if n > 0 {
      var shorter := Burst(key, at, n - 1) + rest;
      assert Burst(key, at, n) + rest == [Attempt(key, at)] + shorter;
      assert (Burst(key, at, n) + rest)[1..] == shorter;
      if n == 1 {
        assert shorter == rest;
      } else {
        BurstOrdered(key, at, n - 1, at, rest);
      }
    }
  }

  lemma FullWindowOrdered(p: Policy, key: string, now: Time)
    requires p.limit >= 2 && p.window > 0
    ensures Ordered(FullWindow(p, key, now), now - p.window) && LastTime(FullWindow(p, key, now), now - p.window) == now
  {
    assert [Attempt(key, now)][1..] == [];
    BurstOrdered(key, now - p.window, p.limit, now - p.window, [Attempt(key, now)]);
  }

  /** After the full window the limiter remembers its last attempt only. */
  lemma AfterWindow(p: Policy, gc: Time, key: string, now: Time)
    requires p.limit >= 2 && p.window > 0
    ensures LogOf(After(p, State(map[], gc), FullWindow(p, key, now)).hits, key) == [now]
    ensures LogOf(AfterFull(p, map[], FullWindow(p, key, now)), key) == Times(now - p.window, p.limit) + [now]
  {
    var s, burst := State(map[], gc), Burst(key, now - p.window, p.limit);
    MoreTimes(now - p.window, 0);
    assert LogOf(s.hits, key) == Times(now - p.window, 0);
    BurstFills(p, s, map[], key, now - p.window, 0, p.limit);
    var u, full := After(p, s, burst), AfterFull(p, map[], burst);
    CutInTwo(p, s, map[], burst, [Attempt(key, now)]);
    OneAttempt(p, u, full, key, now);
    WindowLater(p, u, full, key, now);
  }

  lemma FullWindowForgotten(p: Policy, gc: Time, key: string, now: Time, t: Time)
    requires p.limit >= 2 && p.window > 0 && t < now
    ensures AllowStep(p, After(p, State(map[], gc), FullWindow(p, key, now)), key, t).1
    ensures !AllowFull(p, AfterFull(p, map[], FullWindow(p, key, now)), key, t).1
  {
    AfterWindow(p, gc, key, now);
    EarlierIsAdmitted(p, After(p, State(map[], gc), FullWindow(p, key, now)), key, now, t);
    EarlierIsRefused(p, AfterFull(p, map[], FullWindow(p, key, now)), key, Times(now - p.window, p.limit), now, t);
  }

  // ---------------------------------------------------------- exactly the order

  /** After every series in clock order that ends at `now`, an attempt at `t` is answered as by the full log. */
  ghost predicate AnsweredAlike(p: Policy, now: Time, key: string, t: Time) {
    forall start, gc, events: seq<Event> :: Ordered(events, start) && LastTime(events, start) == now ==>
      AllowStep(p, After(p, State(map[], gc), events), key, t).1 == AllowFull(p, AfterFull(p, map[], events), key, t).1
  }

  /** Not being dated before the latest attempt is exactly what an attempt needs. */
  lemma AnsweredAlikeExactly(p: Policy, now: Time, key: string, t: Time)
    requires p.limit >= 2 && p.window > 0
    ensures AnsweredAlike(p, now, key, t) <==> now <= t
  {
    if now <= t {
      forall start, gc, events: seq<Event> | Ordered(events, start) && LastTime(events, start) == now
        ensures AllowStep(p, After(p, State(map[], gc), events), key, t).1 ==
                AllowFull(p, AfterFull(p, map[], events), key, t).1
      {
        assert AgreeOn(p, [], [], start);
        AfterAgrees(p, State(map[], gc), map[], start, events);
        AllowRefinesFull(p, After(p, State(map[], gc), events), AfterFull(p, map[], events), now, key, t);
      }
    } else {
      FullWindowOrdered(p, key, now);
      FullWindowForgotten(p, 0, key, now, t);
    }
  }

  /** A full window, and then an attempt dated earlier. */
  function Earlier(p: Policy, key: string, now: Time, t: Time): seq<Event>
    requires p.limit >= 0
  {
    FullWindow(p, key, now) + [Attempt(key, t)]
  }

  /**
   For every policy with a limit of two or more, and however little the clock steps back, the
   limiter then admits an attempt that the full log refuses.
   */
  lemma BackwardClockCounterexample(p: Policy, gc: Time, key: string, now: Time, t: Time)
    requires p.limit >= 2 && p.window > 0 && t < now
    ensures var events, s := Earlier(p, key, now, t), State(map[], gc);
            var alike := DecisionsFull(p, map[], FullWindow(p, key, now));
            Decisions(p, s, events) == alike + [true] && DecisionsFull(p, map[], events) == alike + [false]
  {
    var s, events := State(map[], gc), FullWindow(p, key, now);
    FullWindowOrdered(p, key, now);
    PrunedDecidesAsFull(p, now - p.window, gc, events);
    FullWindowForgotten(p, gc, key, now, t);
    CutInTwo(p, s, map[], events, [Attempt(key, t)]);
    OneAttempt(p, After(p, s, events), AfterFull(p, map[], events), key, t);
  }

  // ---------------------------------------------- the limit needs the same order

  lemma {:induction false} AdmittedInTwo(p: Policy, s: State, a: seq<Event>, b: seq<Event>, key: string, sofar: seq<Time>)
    ensures Admitted(p, s, a + b, key, sofar) == Admitted(p, After(p, s, a), b, key, Admitted(p, s, a, key, sofar))
    decreases |a|
  {
    if a == [] {
      assert a + b == b;
    } else {
      assert (a + b)[0] == a[0] && (a + b)[1..] == a[1..] + b;
      match a[0]
      case Attempt(k, t) =>
        var (next, ok) := AllowStep(p, s, k, t);
        AdmittedInTwo(p, next, a[1..], b, key, if k == key && ok then sofar + [t] else sofar);
      case Forget(k) => AdmittedInTwo(p, ResetStep(s, k), a[1..], b, key, if k == key then [] else sofar);
    }
  }

  lemma AdmittedOne(p: Policy, s: State, key: string, t: Time, sofar: seq<Time>)
    ensures Admitted(p, s, [Attempt(key, t)], key, sofar) == if AllowStep(p, s, key, t).1 then sofar + [t] else sofar
  {
    assert [Attempt(key, t)][1..] == [];
  }

  lemma {:induction false} OrderedAppend(events: seq<Event>, start: Time, key: string, t: Time)
    requires Ordered(events, start) && LastTime(events, start) <= t
    ensures Ordered(events + [Attempt(key, t)], start)
    decreases |events|
  {
    if events == [] {
      assert [] + [Attempt(key, t)] == [Attempt(key, t)];
    } else {
      assert (events + [Attempt(key, t)])[0] == events[0] && (events + [Attempt(key, t)])[1..] == events[1..] + [Attempt(key, t)];
      OrderedAppend(events[1..], if events[0].Attempt? then events[0].t else start, key, t);
    }
  }

  /** An attempt at `t` after any series in clock order that ends at `now` never exceeds the limit. */
  ghost predicate KeepsLimit(p: Policy, now: Time, key: string, t: Time) {
    forall start, gc, events: seq<Event> :: Ordered(events, start) && LastTime(events, start) == now ==>
      Spaced(p, Admitted(p, State(map[], gc), events + [Attempt(key, t)], key, []))
  }

  lemma AdmittedCons(p: Policy, s: State, key: string, t: Time, rest: seq<Event>, sofar: seq<Time>)
    ensures Admitted(p, s, [Attempt(key, t)] + rest, key, sofar) ==
            Admitted(p, AllowStep(p, s, key, t).0, rest, key, if AllowStep(p, s, key, t).1 then sofar + [t] else sofar)
  {
    assert ([Attempt(key, t)] + rest)[1..] == rest;
  }

  lemma BurstStepAdmits(p: Policy, s: State, key: string, at: Time, m: nat)
    requires p.window > 0 && m < p.limit && LogOf(s.hits, key) == Times(at, m)
    ensures AllowStep(p, s, key, at).1 && LogOf(AllowStep(p, s, key, at).0.hits, key) == Times(at, m + 1)
  {
    SweepKeepsLog(p, s, key, at);
    AllowStepLogs(p, s, key, at, key);
    RecentOfTimes(at, m, at - p.window);
    MoreTimes(at, m);
  }

  lemma {:induction false} BurstAdmitted(p: Policy, s: State, key: string, at: Time, m: nat, n: nat)
    requires p.window > 0 && m + n <= p.limit && LogOf(s.hits, key) == Times(at, m)
    ensures Admitted(p, s, Burst(key, at, n), key, Times(at, m)) == Times(at, m + n)
    decreases n
  {
    if n > 0 {
      var next := AllowStep(p, s, key, at).0;
      BurstStepAdmits(p, s, key, at, m);
      AdmittedCons(p, s, key, at, Burst(key, at, n - 1), Times(at, m));
      MoreTimes(at, m);
      BurstAdmitted(p, next, key, at, m + 1, n - 1);
    }
  }

  lemma NowAdmitted(p: Policy, s: State, key: string, now: Time)
    requires p.window > 0 && p.limit >= 1 && LogOf(s.hits, key) == Times(now - p.window, p.limit)
    ensures AllowStep(p, s, key, now).1
  {
    SweepKeepsLog(p, s, key, now);
    AllowStepLogs(p, s, key, now, key);
    RecentOfTimes(now - p.window, p.limit, now - p.window);
  }

  lemma WindowAdmitted(p: Policy, gc: Time, key: string, now: Time)
    requires p.limit >= 2 && p.window > 0
    ensures Admitted(p, State(map[], gc), FullWindow(p, key, now), key, []) == Times(now - p.window, p.limit) + [now]
  {
    var s, burst, at := State(map[], gc), Burst(key, now - p.window, p.limit), now - p.window;
    MoreTimes(at, 0);
    assert LogOf(s.hits, key) == Times(at, 0);
    BurstFills(p, s, map[], key, at, 0, p.limit);
    BurstAdmitted(p, s, key, at, 0, p.limit);
    AdmittedInTwo(p, s, burst, [Attempt(key, now)], key, []);
    NowAdmitted(p, After(p, s, burst), key, now);
    AdmittedOne(p, After(p, s, burst), key, now, Times(at, p.limit));
  }

  /** What is admitted in a full window and an earlier attempt after it. */
  lemma EarlierAdmitted(p: Policy, gc: Time, key: string, now: Time, t: Time)
    requires p.limit >= 2 && p.window > 0 && t < now
    ensures Admitted(p, State(map[], gc), Earlier(p, key, now, t), key, []) == Times(now - p.window, p.limit) + [now] + [t]
  {
    var s, window := State(map[], gc), FullWindow(p, key, now);
    WindowAdmitted(p, gc, key, now);
    AdmittedInTwo(p, s, window, [Attempt(key, t)], key, []);
    FullWindowForgotten(p, gc, key, now, t);
    AdmittedOne(p, After(p, s, window), key, t, Times(now - p.window, p.limit) + [now]);
  }

  /** The limit, too, is kept by exactly the attempts that are not dated before the latest one. */
  lemma KeepsLimitExactly(p: Policy, now: Time, key: string, t: Time)
    requires p.limit >= 2 && p.window > 0
    ensures KeepsLimit(p, now, key, t) <==> now <= t
  {
    if now <= t {
      forall start, gc, events: seq<Event> | Ordered(events, start) && LastTime(events, start) == now
        ensures Spaced(p, Admitted(p, State(map[], gc), events + [Attempt(key, t)], key, []))
      {
        OrderedAppend(events, start, key, t);
        assert AgreeOn(p, [], [], start);
        assert LogOf(map[], key) == [];
        AdmittedStaysSpaced(p, State(map[], gc), map[], start, events + [Attempt(key, t)], key);
      }
    } else {
      FullWindowOrdered(p, key, now);
      EarlierAdmitted(p, 0, key, now, t);
      var times := Times(now - p.window, p.limit) + [now] + [t];
      assert times[1 + p.limit] - times[1] < p.window;
    }
  }

  // ------------------------------------------------- overlapping calls

  /** Calls at one instant that do not overlap. */
  function Calls(key: string, at: Time, n: nat): seq<Step> {
    if n == 0 then [] else [ReadClock(at)] + ([Enter(0, key)] + Calls(key, at, n - 1))
  }

  /** Two calls read the clock, and the later one enters first. */
  function Overtaking(key: string, now: Time, t: Time): seq<Step> {
    [ReadClock(t)] + ([ReadClock(now)] + ([Enter(1, key)] + ([Enter(0, key)] + [])))
  }

  lemma SeenRead(t: Time, rest: seq<Step>, pending: seq<Time>)
    ensures Possible([ReadClock(t)] + rest, pending) <==> Possible(rest, pending + [t])
    ensures Possible(rest, pending + [t]) ==> Seen([ReadClock(t)] + rest, pending) == Seen(rest, pending + [t])
    ensures forall now :: ClockForward([ReadClock(t)] + rest, now) <==> now <= t && ClockForward(rest, t)
  {
    assert ([ReadClock(t)] + rest)[1..] == rest;
  }

  lemma SeenEnter(i: nat, key: string, rest: seq<Step>, pending: seq<Time>)
    requires i < |pending|
    ensures Possible([Enter(i, key)] + rest, pending) <==> Possible(rest, Without(pending, i))
    ensures Possible(rest, Without(pending, i)) ==>
              Seen([Enter(i, key)] + rest, pending) == [Attempt(key, pending[i])] + Seen(rest, Without(pending, i))
    ensures forall now :: ClockForward([Enter(i, key)] + rest, now) <==> ClockForward(rest, now)
  {
    assert ([Enter(i, key)] + rest)[1..] == rest;
  }

  lemma OvertakingSees(key: string, now: Time, t: Time)
    requires t <= now
    ensures Possible(Overtaking(key, now, t), []) && ClockForward(Overtaking(key, now, t), t)
    ensures Seen(Overtaking(key, now, t), []) == [Attempt(key, now)] + ([Attempt(key, t)] + [])
  {
    var last: seq<Step> := [Enter(0, key)] + [];
    assert [] + [t] == [t] && [t] + [now] == [t, now];
    assert Without([t, now], 1) == [t] && Without([t], 0) == [];
    SeenEnter(0, key, [], [t]);
    SeenEnter(1, key, last, [t, now]);
    SeenRead(now, [Enter(1, key)] + last, [t]);
    SeenRead(t, [ReadClock(now)] + ([Enter(1, key)] + last), []);
  }

  lemma CallSees(key: string, at: Time, start: Time, rest: seq<Step>)
    requires Possible(rest, []) && ClockForward(rest, at) && start <= at
    ensures var steps := [ReadClock(at)] + ([Enter(0, key)] + rest);
            Possible(steps, []) && ClockForward(steps, start) && Seen(steps, []) == [Attempt(key, at)] + Seen(rest, [])
  {
    assert [] + [at] == [at] && Without([at], 0) == [];
    SeenEnter(0, key, rest, [at]);
    SeenRead(at, [Enter(0, key)] + rest, []);
  }

  lemma {:induction false} CallsSee(key: string, at: Time, n: nat, rest: seq<Step>)
    requires Possible(rest, []) && ClockForward(rest, at)
    ensures Possible(Calls(key, at, n) + rest, []) && ClockForward(Calls(key, at, n) + rest, at)
    ensures Seen(Calls(key, at, n) + rest, []) == Burst(key, at, n) + Seen(rest, [])
    decreases n
  {
    if n == 0 {
      assert Calls(key, at, n) + rest == rest && Burst(key, at, n) + Seen(rest, []) == Seen(rest, []);
    } else {
      var shorter, seen := Calls(key, at, n - 1) + rest, Burst(key, at, n - 1) + Seen(rest, []);
      assert Calls(key, at, n) + rest == [ReadClock(at)] + ([Enter(0, key)] + shorter);
      assert Burst(key, at, n) + Seen(rest, []) == [Attempt(key, at)] + seen;
      CallsSee(key, at, n - 1, rest);
      CallSees(key, at, at, shorter);
    }
  }

  /** As many calls as the limit allows, and a window later one that overtakes an earlier one. */
  function Overtaken(p: Policy, key: string, now: Time, t: Time): seq<Step>
    requires p.limit >= 0
  {
    Calls(key, now - p.window, p.limit) + Overtaking(key, now, t)
  }

  lemma OvertakenSees(p: Policy, key: string, now: Time, t: Time)
    requires p.limit >= 2 && p.window > 0 && now - p.window <= t < now
    ensures var steps := Overtaken(p, key, now, t);
            && Possible(steps, []) && ClockForward(steps, now - p.window)
            && Seen(steps, []) == Earlier(p, key, now, t)
  {
    OvertakingSees(key, now, t);
    var burst := Burst(key, now - p.window, p.limit);
    assert [Attempt(key, t)] + [] == [Attempt(key, t)];
    assert burst + ([Attempt(key, now)] + [Attempt(key, t)]) == Earlier(p, key, now, t);
    assert ClockForward(Overtaking(key, now, t), now - p.window) by {
      SeenRead(t, [ReadClock(now)] + ([Enter(1, key)] + ([Enter(0, key)] + [])), []);
    }
    CallsSee(key, now - p.window, p.limit, Overtaking(key, now, t));
  }

  /**
   For every policy with a limit of two or more: with a clock that never runs backwards, a call
   overtaken between its clock read and the lock is admitted although the full log refuses it.
   */
  lemma OvertakenCallCounterexample(p: Policy, gc: Time, key: string, now: Time, t: Time)
    requires p.limit >= 2 && p.window > 0 && now - p.window <= t < now
    ensures var steps, s := Overtaken(p, key, now, t), State(map[], gc);
            var alike := DecisionsFull(p, map[], FullWindow(p, key, now));
            && Possible(steps, []) && ClockForward(steps, now - p.window)
            && Decisions(p, s, Seen(steps, [])) == alike + [true] && DecisionsFull(p, map[], Seen(steps, [])) == alike + [false]
  {
    OvertakenSees(p, key, now, t);
    BackwardClockCounterexample(p, gc, key, now, t);
  }
}
