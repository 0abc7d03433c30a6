/**
 internal/auth/ratelimit.go: the login limiter. Its log is compacted in place and whole
 keys are thrown away from time to time; it still decides as a log that forgets nothing.
 */
module RateLimit {

  /** Instants and durations in nanoseconds. */
  type Time = int

  type Logs = map<string, seq<Time>>

  const MAX_DURATION: int := 0x7FFF_FFFF_FFFF_FFFF

  datatype Policy = Policy(limit: int, window: int)

  datatype State = State(hits: Logs, lastGC: Time)

  /** `t.Sub(u)`, which saturates. */
  function Sub(t: Time, u: Time): int {
    if t - u > MAX_DURATION then MAX_DURATION
    else if t - u < -MAX_DURATION - 1 then -MAX_DURATION - 1
    else t - u
  }

  function LogOf(logs: Logs, key: string): seq<Time> {
    if key in logs then logs[key] else []
  }

  /** The entries after `cut`, in order. */
  function Recent(log: seq<Time>, cut: Time): seq<Time> {
    if log == [] then []
    else
      var rest := Recent(log[..|log| - 1], cut);
      if log[|log| - 1] > cut then rest + [log[|log| - 1]] else rest
  }

  /** Should the periodic sweep delete a key with this log? */
  predicate Stale(log: seq<Time>, cut: Time) {
    log == [] || log[|log| - 1] < cut
  }

  /** The logs after the sweep that Allow runs when the last one is more than a window ago. */
  function Swept(p: Policy, s: State, t: Time): State {
    if Sub(t, s.lastGC) > p.window then
      State(map k | k in s.hits && !Stale(s.hits[k], t - p.window) :: s.hits[k], t)
    else s
  }

  /** Compact the key's log, and admit if it then holds fewer than `limit` entries. */
  function DecideStep(p: Policy, logs: Logs, key: string, t: Time): (Logs, bool) {
    var kept := Recent(LogOf(logs, key), t - p.window);
    if |kept| >= p.limit then (logs[key := kept], false) else (logs[key := kept + [t]], true)
  }

  /** Allow: sweep, then decide. */
  function AllowStep(p: Policy, s: State, key: string, t: Time): (State, bool) {
    var swept := Swept(p, s, t);
    var (logs, ok) := DecideStep(p, swept.hits, key, t);
    (swept.(hits := logs), ok)
  }

  function ResetStep(s: State, key: string): State {
    s.(hits := s.hits - {key})
  }

  // ---------------------------------------------- the log that forgets nothing

  /** All admitted attempts since the key's last reset; never pruned. */
  function AllowFull(p: Policy, full: Logs, key: string, t: Time): (Logs, bool) {
    if |Recent(LogOf(full, key), t - p.window)| >= p.limit then (full, false)
    else (full[key := LogOf(full, key) + [t]], true)
  }

  datatype Event = Attempt(key: string, t: Time) | Forget(key: string)

  /** The answers of the limiter to a series of events. */
  function Decisions(p: Policy, s: State, events: seq<Event>): seq<bool>
    decreases |events|
  {
    if events == [] then []
    else match events[0]
      case Attempt(key, t) => [AllowStep(p, s, key, t).1] + Decisions(p, AllowStep(p, s, key, t).0, events[1..])
      case Forget(key) => Decisions(p, ResetStep(s, key), events[1..])
  }

  function DecisionsFull(p: Policy, full: Logs, events: seq<Event>): seq<bool>
    decreases |events|
  {
    if events == [] then []
    else match events[0]
      case Attempt(key, t) => [AllowFull(p, full, key, t).1] + DecisionsFull(p, AllowFull(p, full, key, t).0, events[1..])
      case Forget(key) => DecisionsFull(p, full - {key}, events[1..])
  }

  /** The times of `key`'s admitted attempts since its last reset, by the limiter's own answers. */
  function Admitted(p: Policy, s: State, events: seq<Event>, key: string, sofar: seq<Time>): seq<Time>
    decreases |events|
  {
    if events == [] then sofar
    else match events[0]
      case Attempt(k, t) =>
        var (next, ok) := AllowStep(p, s, k, t);
        Admitted(p, next, events[1..], key, if k == key && ok then sofar + [t] else sofar)
      case Forget(k) =>
        Admitted(p, ResetStep(s, k), events[1..], key, if k == key then [] else sofar)
  }

  /** The clock never runs backwards, starting from `now`. */
  predicate Ordered(events: seq<Event>, now: Time) {
    events != [] ==>
      match events[0]
      case Attempt(_, t) => now <= t && Ordered(events[1..], t)
      case Forget(_) => Ordered(events[1..], now)
  }

  // ------------------------------------------------------------------ refinement

  predicate SortedUpTo(log: seq<Time>, now: Time) {
    && (forall i, j :: 0 <= i < j < |log| ==> log[i] <= log[j])
    && (forall i :: 0 <= i < |log| ==> log[i] <= now)
  }

  /** Two logs of one key hold the same entries after any instant the clock may still ask about. */
  ghost predicate AgreeOn(p: Policy, pruned: seq<Time>, full: seq<Time>, now: Time) {
    && SortedUpTo(pruned, now) && SortedUpTo(full, now)
    && forall cut :: cut >= now - p.window ==> Recent(pruned, cut) == Recent(full, cut)
  }

  ghost predicate Agree(p: Policy, hits: Logs, full: Logs, now: Time) {
    forall key :: AgreeOn(p, LogOf(hits, key), LogOf(full, key), now)
  }

  lemma {:induction false} RecentOfRecent(log: seq<Time>, early: Time, late: Time)
    requires early <= late
    ensures Recent(Recent(log, early), late) == Recent(log, late)
  {
    if log != [] {
      var rest, last := log[..|log| - 1], log[|log| - 1];
      RecentOfRecent(rest, early, late);
      if last > early {
        assert (Recent(rest, early) + [last])[..|Recent(rest, early)|] == Recent(rest, early);
      }
    }
  }

  lemma {:induction false} RecentSorted(log: seq<Time>, cut: Time, now: Time)
    requires SortedUpTo(log, now)
    ensures SortedUpTo(Recent(log, cut), now)
    ensures forall i :: 0 <= i < |Recent(log, cut)| ==> Recent(log, cut)[i] in log && Recent(log, cut)[i] > cut
  {
    if log != [] {
      RecentSorted(log[..|log| - 1], cut, now);
    }
  }

  lemma {:induction false} StaleHasNothingRecent(log: seq<Time>, cut: Time, now: Time)
    requires SortedUpTo(log, now) && Stale(log, cut)
    ensures Recent(log, cut) == []
  {
    if log != [] {
      var rest := log[..|log| - 1];
      assert rest != [] ==> rest[|rest| - 1] == log[|rest| - 1] <= log[|log| - 1];
      StaleHasNothingRecent(rest, cut, now);
    }
  }

  lemma StaleAgreesWithEmpty(p: Policy, pruned: seq<Time>, full: seq<Time>, now: Time, t: Time)
    requires AgreeOn(p, pruned, full, now) && now <= t && Stale(pruned, t - p.window)
    ensures AgreeOn(p, [], full, t)
  {
    StaleHasNothingRecent(pruned, t - p.window, now);
    forall cut | cut >= t - p.window
      ensures Recent(full, cut) == []
    {
      RecentOfRecent(full, t - p.window, cut);
    }
  }

  /** The sweep forgets nothing that can still count. */
  lemma SweepKeepsAgreement(p: Policy, s: State, full: Logs, now: Time, t: Time)
    requires Agree(p, s.hits, full, now) && now <= t
    ensures Agree(p, Swept(p, s, t).hits, full, t)
  {
    var swept := Swept(p, s, t).hits;
    forall key
      ensures AgreeOn(p, LogOf(swept, key), LogOf(full, key), t)
    {
      assert AgreeOn(p, LogOf(s.hits, key), LogOf(full, key), now);
      if LogOf(swept, key) != LogOf(s.hits, key) {
        StaleAgreesWithEmpty(p, LogOf(s.hits, key), LogOf(full, key), now, t);
      }
    }
  }

  lemma RecentOfAppend(log: seq<Time>, t: Time, cut: Time)
    ensures Recent(log + [t], cut) == if t > cut then Recent(log, cut) + [t] else Recent(log, cut)
  {
    assert (log + [t])[..|log|] == log;
  }

  lemma SortedAppend(log: seq<Time>, t: Time)
    requires SortedUpTo(log, t)
    ensures SortedUpTo(log + [t], t)
  {
  }

  lemma CompactAgreesAt(pruned: seq<Time>, full: seq<Time>, t: Time, cut: Time, late: Time)
    requires cut <= late && Recent(pruned, late) == Recent(full, late)
    ensures Recent(Recent(pruned, cut), late) == Recent(full, late)
    ensures Recent(Recent(pruned, cut) + [t], late) == Recent(full + [t], late)
  {
    RecentOfRecent(pruned, cut, late);
    RecentOfAppend(Recent(pruned, cut), t, late);
    RecentOfAppend(full, t, late);
  }

  /** Compacting one key's log, and admitting the attempt if there is room, keeps the agreement. */
  lemma CompactKeepsAgreement(p: Policy, pruned: seq<Time>, full: seq<Time>, t: Time)
    requires AgreeOn(p, pruned, full, t)
    ensures AgreeOn(p, Recent(pruned, t - p.window), full, t)
    ensures AgreeOn(p, Recent(pruned, t - p.window) + [t], full + [t], t)
  {
    var cut := t - p.window;
    var kept := Recent(pruned, cut);
    RecentSorted(pruned, cut, t);
    SortedAppend(kept, t);
    SortedAppend(full, t);
    forall late | late >= cut
      ensures Recent(kept, late) == Recent(full, late)
      ensures Recent(kept + [t], late) == Recent(full + [t], late)
    {
      CompactAgreesAt(pruned, full, t, cut, late);
    }
  }

  /** What an attempt on `key` does to the log of each key. */
  lemma AllowStepLogs(p: Policy, s: State, key: string, t: Time, k: string)
    ensures var log := LogOf(Swept(p, s, t).hits, k);
            var kept := Recent(log, t - p.window);
            LogOf(AllowStep(p, s, key, t).0.hits, k) ==
            if k != key then log else if AllowStep(p, s, key, t).1 then kept + [t] else kept
    ensures k == key ==>
              (AllowStep(p, s, key, t).1 <==> |Recent(LogOf(Swept(p, s, t).hits, k), t - p.window)| < p.limit)
  {
  }

  /** One attempt: the same answer, and the logs still agree. */
  lemma AllowRefinesFull(p: Policy, s: State, full: Logs, now: Time, key: string, t: Time)
    requires Agree(p, s.hits, full, now) && now <= t
    ensures AllowStep(p, s, key, t).1 == AllowFull(p, full, key, t).1
    ensures Agree(p, AllowStep(p, s, key, t).0.hits, AllowFull(p, full, key, t).0, t)
  {
    SweepKeepsAgreement(p, s, full, now, t);
    var swept := Swept(p, s, t).hits;
    assert AllowStep(p, s, key, t).1 == AllowFull(p, full, key, t).1 by {
      AllowStepLogs(p, s, key, t, key);
      assert AgreeOn(p, LogOf(swept, key), LogOf(full, key), t);
    }
    var hits, grown := AllowStep(p, s, key, t).0.hits, AllowFull(p, full, key, t).0;
    forall k
      ensures AgreeOn(p, LogOf(hits, k), LogOf(grown, k), t)
    {
      assert AgreeOn(p, LogOf(swept, k), LogOf(full, k), t);
      AllowStepLogs(p, s, key, t, k);
      CompactKeepsAgreement(p, LogOf(swept, k), LogOf(full, k), t);
    }
  }

  lemma ResetRefinesFull(p: Policy, s: State, full: Logs, now: Time, key: string)
    requires Agree(p, s.hits, full, now)
    ensures Agree(p, ResetStep(s, key).hits, full - {key}, now)
  {
    forall k
      ensures AgreeOn(p, LogOf(ResetStep(s, key).hits, k), LogOf(full - {key}, k), now)
    {
      assert AgreeOn(p, LogOf(s.hits, k), LogOf(full, k), now);
    }
  }

  lemma {:induction false} RunsAgree(p: Policy, s: State, full: Logs, now: Time, events: seq<Event>)
    requires Agree(p, s.hits, full, now) && Ordered(events, now)
    ensures Decisions(p, s, events) == DecisionsFull(p, full, events)
    decreases |events|
  {
    if events != [] {
      match events[0]
      case Attempt(key, t) =>
        AllowRefinesFull(p, s, full, now, key, t);
        RunsAgree(p, AllowStep(p, s, key, t).0, AllowFull(p, full, key, t).0, t, events[1..]);
      case Forget(key) =>
        ResetRefinesFull(p, s, full, now, key);
        RunsAgree(p, ResetStep(s, key), full - {key}, now, events[1..]);
    }
  }

  /**
   From an empty start, and for a clock that never runs backwards, the compacting and
   sweeping limiter answers every series of attempts and resets as the full log does.
   */
  lemma PrunedDecidesAsFull(p: Policy, start: Time, gc: Time, events: seq<Event>)
    requires Ordered(events, start)
    ensures Decisions(p, State(map[], gc), events) == DecisionsFull(p, map[], events)
  {
    assert AgreeOn(p, [], [], start);
    RunsAgree(p, State(map[], gc), map[], start, events);
  }

  lemma RecentOfOne(t: Time, cut: Time)
    ensures Recent([t], cut) == if t > cut then [t] else []
  {
    RecentOfAppend([], t, cut);
    assert [] + [t] == [t];
  }

  // ---------------------------------------------------- what the limit guarantees

  /** Any `limit + 1` consecutive entries span at least the window. */
  predicate Spaced(p: Policy, log: seq<Time>) {
    forall i :: 0 <= i < |log| && 0 <= i + p.limit < |log| ==> log[i + p.limit] - log[i] >= p.window
  }

  /** If entry i is recent then so is every later one. */
  lemma {:induction false} RecentCount(log: seq<Time>, cut: Time, now: Time, i: nat)
    requires SortedUpTo(log, now) && i < |log| && log[i] > cut
    ensures |Recent(log, cut)| >= |log| - i
  {
    if i < |log| - 1 {
      assert log[|log| - 1] >= log[i];
      RecentCount(log[..|log| - 1], cut, now, i);
    }
  }

  lemma AdmittingKeepsSpacing(p: Policy, log: seq<Time>, now: Time, t: Time)
    requires SortedUpTo(log, now) && now <= t && Spaced(p, log)
    requires |Recent(log, t - p.window)| < p.limit
    ensures Spaced(p, log + [t]) && SortedUpTo(log + [t], t)
  {
    var i := |log| - p.limit;
    if 0 <= i && log[i] > t - p.window {
      RecentCount(log, t - p.window, now, i);
    }
  }

  lemma {:induction false} AdmittedStaysSpaced(p: Policy, s: State, full: Logs, now: Time, events: seq<Event>, key: string)
    requires Agree(p, s.hits, full, now) && Ordered(events, now) && Spaced(p, LogOf(full, key))
    ensures Spaced(p, Admitted(p, s, events, key, LogOf(full, key)))
    decreases |events|
  {
    if events != [] {
      match events[0]
      case Attempt(k, t) =>
        AllowRefinesFull(p, s, full, now, k, t);
        AttemptKeepsSpacing(p, s, full, now, k, t, key);
        AdmittedStaysSpaced(p, AllowStep(p, s, k, t).0, AllowFull(p, full, k, t).0, t, events[1..], key);
      case Forget(k) =>
        ResetRefinesFull(p, s, full, now, k);
        assert LogOf(full - {k}, key) == if k == key then [] else LogOf(full, key);
        AdmittedStaysSpaced(p, ResetStep(s, k), full - {k}, now, events[1..], key);
    }
  }

  lemma AttemptKeepsSpacing(p: Policy, s: State, full: Logs, now: Time, k: string, t: Time, key: string)
    requires Agree(p, s.hits, full, now) && now <= t && Spaced(p, LogOf(full, key))
    ensures var (grown, ok) := AllowFull(p, full, k, t);
            Spaced(p, LogOf(grown, key)) &&
            LogOf(grown, key) == if k == key && ok then LogOf(full, key) + [t] else LogOf(full, key)
  {
    assert AgreeOn(p, LogOf(s.hits, key), LogOf(full, key), now);
    if k == key && AllowFull(p, full, k, t).1 {
      AdmittingKeepsSpacing(p, LogOf(full, key), now, t);
    }
  }

  /**
   Between two resets, any `limit + 1` consecutive attempts the limiter admits for a key
   span at least the window: the limit is never exceeded inside any window.
   */
  lemma LimitHolds(p: Policy, start: Time, gc: Time, events: seq<Event>, key: string, i: nat)
    requires Ordered(events, start)
    ensures var times := Admitted(p, State(map[], gc), events, key, []);
            i < |times| && 0 <= i + p.limit < |times| ==> times[i + p.limit] - times[i] >= p.window
  {
    assert AgreeOn(p, [], [], start);
    assert LogOf(map[], key) == [];
    AdmittedStaysSpaced(p, State(map[], gc), map[], start, events, key);
  }

  // ------------------------------------- calls read the clock before they lock

  /**
   What overlapping calls do: read the clock, and later enter the locked part; `waiting` counts
   from the oldest call that has read the clock and not entered. Reset only locks.
   */
  datatype Step = ReadClock(t: Time) | Enter(waiting: nat, key: string) | ResetKey(key: string)

  function Without(times: seq<Time>, i: nat): seq<Time>
    requires i < |times|
  {
    times[..i] + times[i + 1..]
  }

  /** Only calls that have read the clock can enter. */
  predicate Possible(steps: seq<Step>, pending: seq<Time>)
    decreases |steps|
  {
    steps != [] ==>
      match steps[0]
      case ReadClock(t) => Possible(steps[1..], pending + [t])
      case Enter(i, _) => i < |pending| && Possible(steps[1..], Without(pending, i))
      case ResetKey(_) => Possible(steps[1..], pending)
  }

  /** The clock itself never runs backwards. */
  predicate ClockForward(steps: seq<Step>, now: Time)
    decreases |steps|
  {
    steps != [] ==>
      match steps[0]
      case ReadClock(t) => now <= t && ClockForward(steps[1..], t)
      case _ => ClockForward(steps[1..], now)
  }

  /** Calls enter the lock in the order in which they read the clock. */
  predicate EnterInReadOrder(steps: seq<Step>) {
    forall i :: 0 <= i < |steps| && steps[i].Enter? ==> steps[i].waiting == 0
  }

  /** What the locked part sees: attempts with the times read earlier, and resets. */
  function Seen(steps: seq<Step>, pending: seq<Time>): seq<Event>
    requires Possible(steps, pending)
    decreases |steps|
  {
    if steps == [] then []
    else match steps[0]
      case ReadClock(t) => Seen(steps[1..], pending + [t])
      case Enter(i, key) => [Attempt(key, pending[i])] + Seen(steps[1..], Without(pending, i))
      case ResetKey(key) => [Forget(key)] + Seen(steps[1..], pending)
  }

  lemma OrderedCons(e: Event, rest: seq<Event>, now: Time)
    ensures Ordered([e] + rest, now) <==> match e case Attempt(_, t) => now <= t && Ordered(rest, t) case Forget(_) => Ordered(rest, now)
  {
    assert ([e] + rest)[1..] == rest;
  }

  lemma {:induction false} SeenInOrder(steps: seq<Step>, pending: seq<Time>, last: Time, now: Time)
    requires Possible(steps, pending) && ClockForward(steps, now) && EnterInReadOrder(steps)
    requires SortedUpTo(pending, now) && last <= now && forall i :: 0 <= i < |pending| ==> last <= pending[i]
    ensures Ordered(Seen(steps, pending), last)
    decreases |steps|
  {
    if steps != [] {
      assert forall i :: 0 <= i < |steps[1..]| ==> steps[1..][i] == steps[i + 1];
      match steps[0]
      case ReadClock(t) => SeenInOrder(steps[1..], pending + [t], last, t);
      case Enter(i, key) =>
        assert pending[0] <= now;
        SeenInOrder(steps[1..], Without(pending, 0), pending[0], now);
        OrderedCons(Attempt(key, pending[0]), Seen(steps[1..], Without(pending, 0)), last);
      case ResetKey(key) =>
        SeenInOrder(steps[1..], pending, last, now);
        OrderedCons(Forget(key), Seen(steps[1..], pending), last);
    }
  }

  /**
   Overlapping calls that enter the lock in the order of their clock reads are answered as by
   the log that forgets nothing, and never exceed the limit in any window.
   */
  lemma CallsDecideAsFull(p: Policy, start: Time, gc: Time, steps: seq<Step>, key: string)
    requires Possible(steps, []) && ClockForward(steps, start) && EnterInReadOrder(steps)
    ensures Decisions(p, State(map[], gc), Seen(steps, [])) == DecisionsFull(p, map[], Seen(steps, []))
    ensures Spaced(p, Admitted(p, State(map[], gc), Seen(steps, []), key, []))
  {
    SeenInOrder(steps, [], start, start);
    PrunedDecidesAsFull(p, start, gc, Seen(steps, []));
    assert AgreeOn(p, [], [], start);
    assert LogOf(map[], key) == [];
    AdmittedStaysSpaced(p, State(map[], gc), map[], start, Seen(steps, []), key);
  }

  // -------------------------------------------------------------- the Go object

  /** A Go slice: a prefix of a backing array. */
  datatype Slice = Slice(data: array<Time>, len: nat)

  /** Keeps the entries after `cut`, moved to the front of the same backing array. */
  method Compact(s: Slice, cut: Time, ghost log: seq<Time>) returns (kept: Slice)
    requires s.len <= s.data.Length && s.data[..s.len] == log
    modifies s.data
    ensures kept.data == s.data && kept.len <= s.len
    ensures kept.data[..kept.len] == Recent(log, cut)
  {
    var n := 0;
    for i := 0 to s.len
      invariant n <= i
      invariant s.data[..n] == Recent(log[..i], cut)
      invariant forall j :: i <= j < s.len ==> s.data[j] == log[j]
    {
      assert log[..i + 1][..i] == log[..i];
      var ts := s.data[i];
      if ts > cut {
        s.data[n] := ts;
        n := n + 1;
      }
    }
    assert log[..s.len] == log;
    kept := Slice(s.data, n);
  }

  /** `append(s, t)`: in place while there is room, else into a larger copy. */
  method Append(s: Slice, t: Time, ghost log: seq<Time>) returns (longer: Slice)
    requires s.len <= s.data.Length && s.data[..s.len] == log
    modifies s.data
    ensures longer.data == s.data || fresh(longer.data)
    ensures longer.len == s.len + 1 <= longer.data.Length
    ensures longer.data[..longer.len] == log + [t]
  {
    if s.len < s.data.Length {
      s.data[s.len] := t;
      longer := Slice(s.data, s.len + 1);
    } else {
      var room: nat :| s.len < room;
      var bigger := new Time[room];
      forall i | 0 <= i < s.len {
        bigger[i] := s.data[i];
      }
      bigger[s.len] := t;
      longer := Slice(bigger, s.len + 1);
      assert bigger[..s.len] == log;
    }
  }

  predicate IsStale(s: Slice, cut: Time)
    requires s.len <= s.data.Length
    reads s.data
  {
    s.len == 0 || s.data[s.len - 1] < cut
  }

  lemma SweptIsDrop(p: Policy, s: State, t: Time, dropped: set<string>)
    requires Sub(t, s.lastGC) > p.window
    requires forall k :: k in s.hits ==> (k in dropped <==> Stale(s.hits[k], t - p.window))
    ensures Swept(p, s, t) == State(s.hits - dropped, t)
  {
  }

  class LoginLimiter {
    const policy: Policy
    var hits: map<string, Slice>
    var lastGC: Time
    /** The logs the slices hold, and the key each backing array was made for. */
    ghost var logs: Logs
    ghost var owner: map<array<Time>, string>

    ghost predicate Valid()
      reads this, owner.Keys
    {
      && logs.Keys == hits.Keys
      && (forall k :: k in hits ==> hits[k].data in owner && owner[hits[k].data] == k)
      && (forall k :: k in hits ==> hits[k].len <= hits[k].data.Length && logs[k] == hits[k].data[..hits[k].len])
    }

    ghost function View(): State
      reads this
    {
      State(logs, lastGC)
    }

    constructor (limit: int, window: int, zero: Time)
      ensures Valid() && policy == Policy(limit, window) && View() == State(map[], zero)
      ensures owner == map[]
    {
      policy := Policy(limit, window);
      hits := map[];
      lastGC := zero;
      logs, owner := map[], map[];
    }

    /** The sweep at the start of Allow: deletes the keys whose last attempt was before the cut. */
    method Sweep(t: Time)
      requires Valid()
      modifies this`hits, this`logs, this`lastGC
      ensures Valid() && View() == Swept(policy, old(View()), t)
    {
      if Sub(t, lastGC) > policy.window {
        var cut := t - policy.window;
        ghost var dropped := set k | k in hits && IsStale(hits[k], cut);
        SweptIsDrop(policy, View(), t, dropped);
        DropStale(cut, dropped);
        logs := logs - dropped;
        lastGC := t;
      }
    }

    /** The loop of the sweep, in any order of the keys. */
    method DropStale(cut: Time, ghost dropped: set<string>)
      requires forall k :: k in hits ==> hits[k].len <= hits[k].data.Length
      requires forall k :: k in hits ==> (k in dropped <==> IsStale(hits[k], cut))
      modifies this`hits
      ensures hits == old(hits) - dropped
    {
      ghost var before := hits;
      var rest := hits.Keys;
      while rest != {}
        invariant rest <= hits.Keys
        invariant forall k :: k in hits ==> k in before && hits[k] == before[k]
        invariant forall k :: k in before ==> (k in hits <==> k in rest || k !in dropped)
        decreases |rest|
      {
        var k :| k in rest;
        if IsStale(hits[k], cut) {
          hits := hits - {k};
        }
        rest := rest - {k};
      }
    }

    /** Every key but `key` is as Valid() says. */
    ghost predicate OthersValid(key: string)
      reads this, owner.Keys
    {
      && logs.Keys == hits.Keys
      && (forall k :: k in hits && k != key ==> hits[k].data in owner && owner[hits[k].data] == k)
      && (forall k :: k in hits && k != key ==> hits[k].len <= hits[k].data.Length && logs[k] == hits[k].data[..hits[k].len])
    }

    /** `hits[key] = s`. */
    method Put(key: string, s: Slice)
      requires OthersValid(key) && s.len <= s.data.Length
      requires s.data in owner ==> owner[s.data] == key
      modifies this`hits, this`logs, this`owner
      ensures Valid() && hits == old(hits)[key := s]
      ensures logs == old(logs)[key := s.data[..s.len]]
      ensures owner == old(owner)[s.data := key]
    {
      hits := hits[key := s];
      logs := logs[key := s.data[..s.len]];
      owner := owner[s.data := key];
    }

    /** The key's slice, or the empty slice Go gives for a missing key. */
    method Lookup(key: string) returns (s: Slice)
      requires Valid()
      ensures s.len <= s.data.Length && s.data[..s.len] == LogOf(logs, key)
      ensures if key in hits then s == hits[key] else fresh(s.data)
    {
      if key in hits {
        s := hits[key];
      } else {
        var none := new Time[0];
        s := Slice(none, 0);
      }
    }

    /** Compacts the key's slice in place and appends the attempt if there is room. */
    method Decide(key: string, t: Time) returns (ok: bool)
      requires Valid()
      modifies this`hits, this`logs, this`owner, owner.Keys
      ensures Valid() && fresh(owner.Keys - old(owner.Keys))
      ensures (logs, ok) == DecideStep(policy, old(logs), key, t)
    {
      ghost var recent := Recent(LogOf(logs, key), t - policy.window);
      var s := Lookup(key);
      var kept := Compact(s, t - policy.window, LogOf(logs, key));
      ok := kept.len < policy.limit;
      if ok {
        kept := Append(kept, t, recent);
      }
      Put(key, kept);
    }

    /** Records an attempt, with the time its caller has read, and reports whether it is within the limit. */
    method Allow(key: string, t: Time) returns (ok: bool)
      requires Valid()
      modifies this, owner.Keys
      ensures Valid() && fresh(owner.Keys - old(owner.Keys))
      ensures View() == AllowStep(policy, old(View()), key, t).0
      ensures ok == AllowStep(policy, old(View()), key, t).1
    {
      Sweep(t);
      ok := Decide(key, t);
    }

    /** Clears the attempt history of a key. */
    method Reset(key: string)
      requires Valid()
      modifies this`hits, this`logs
      ensures Valid() && View() == ResetStep(old(View()), key)
    {
      hits := hits - {key};
      logs := logs - {key};
    }
  }
}
