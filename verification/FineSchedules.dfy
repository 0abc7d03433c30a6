/**
 One unfinished scan per schedule at the grain of single database calls: it holds over every run in
 which the steps are safe, as FineSteps says, and those of the schedules orderly.
 */
module FineSchedules {
  import opened Wrappers
  import opened Scans
  import opened Schedules
  import opened FineSteps
  import opened FineResults
  import W = Worker

  /** The tick behind a request counts as enqueued with its scan. */
  ghost predicate TickOf(s: State, r: Request) {
    r.tick.Some? ==> r.tick.value in s.ticks && s.ticks[r.tick.value].Enqueued? && s.ticks[r.tick.value].scan == r.scan
  }

  ghost predicate FineScheduleInv(s: FineState) {
    FineInv(s) && ScheduleInv(s.base) && forall h :: h in s.requests ==> TickOf(s.base, s.requests[h])
  }

  ghost predicate FineOrderly(s: FineState, a: FineAction)
    requires FineEnabled(s, a)
  {
    a.Base? ==> OrderlyStep(s.base, a.step)
  }

  /** Every step is safe for rows and orderly for schedules. */
  ghost predicate AllSafeAndOrderly(s: FineState, actions: seq<FineAction>)
    requires FineCanRun(s, actions)
    decreases |actions|
  {
    actions != [] ==>
      Safe(s, actions[0]) && FineOrderly(s, actions[0]) && AllSafeAndOrderly(FineApply(s, actions[0]), actions[1..])
  }

  /** A step that makes no scan of a schedule active, and leaves ticks and schedules alone. */
  lemma FewerActive(s: State, t: State)
    requires ScheduleInv(s)
    requires t.origin == s.origin && t.nextScan >= s.nextScan && t.schedules == s.schedules && t.nextSchedule == s.nextSchedule
    requires t.ticks == s.ticks
    requires forall k: ScheduleId, x: ScanId :: ActiveOf(t, k, x) ==> ActiveOf(s, k, x)
    ensures ScheduleInv(t)
  {
    forall k: ScheduleId, x: ScanId | ActiveOf(t, k, x)
      ensures Tracked(t, k, x)
    {
      assert Tracked(s, k, x);
    }
  }

  /** The row a tick inserts becomes the one unfinished scan of its schedule. */
  lemma RowOfTick(s: State, t: TickId)
    requires ScheduleInv(s) && t in s.ticks && s.ticks[t].Checked?
    ensures AllTracked(WithRow(s, Some(t))) && OneActive(WithRow(s, Some(t)))
  {
    var next, k := WithRow(s, Some(t)), s.ticks[t].schedule;
    forall j: ScheduleId, x: ScanId | ActiveOf(next, j, x)
      ensures Tracked(next, j, x) && (j == k ==> x == s.nextScan) && (j != k ==> ActiveOf(s, j, x))
    {
      if x == s.nextScan {
        assert j == k && next.ticks[t] == Enqueued(k, x);
      } else {
        assert ActiveOf(s, j, x) && Tracked(s, j, x);
        CheckedSeesNone(s, t, x);
        NoTickKept(s, next, t, j);
      }
    }
  }

  lemma InsertSchedule(s: State, tick: Option<TickId>)
    requires ScheduleInv(s) && (tick.Some? ==> tick.value in s.ticks && s.ticks[tick.value].Checked?)
    ensures ScheduleInv(WithRow(s, tick))
  {
    if tick.Some? {
      RowOfTick(s, tick.value);
    } else {
      FewerActive(s, WithRow(s, tick));
    }
  }

  /** The end of a refused scan takes its tick along. */
  lemma FailSchedule(s: State, r: Request)
    requires ScheduleInv(s) && TickOf(s, r) && r.scan in s.scans && Active(s.scans[r.scan])
    ensures ScheduleInv(WithoutTick(Written(s, r.scan, Error), r.tick))
  {
    var written := Written(s, r.scan, Error);
    FewerActive(s, written);
    if r.tick.Some? {
      var t, next := r.tick.value, WithoutTick(written, r.tick);
      assert MadeFor(s, r.scan, s.ticks[t].schedule) && ActiveOf(s, s.ticks[t].schedule, r.scan);
      forall k: ScheduleId, x: ScanId | ActiveOf(next, k, x)
        ensures Tracked(next, k, x)
      {
        assert ActiveOf(written, k, x) && Tracked(written, k, x);
        if s.ticks[t].schedule != k {
          NoTickKept(written, next, t, k);
        }
      }
      assert forall k: ScheduleId, x: ScanId :: ActiveOf(next, k, x) ==> ActiveOf(written, k, x);
    }
  }

  /** Which ticks a step of the coarse system leaves: all but those it creates for or records. */
  lemma TickOfStep(s: FineState, step: Step, h: HandlerId)
    requires FineScheduleInv(s) && FineEnabled(s, Base(step)) && !IsRestart(step) && h in s.requests
    ensures TickOf(StepApply(s.base, step), s.requests[h])
  {
    assert TickOf(s.base, s.requests[h]);
    if step.Plain? {
      TicksAfter(s.base, step.a);
    }
  }

  lemma BaseSchedule(s: FineState, step: Step)
    requires FineScheduleInv(s) && FineEnabled(s, Base(step)) && OrderlyStep(s.base, step)
    ensures FineScheduleInv(FineApply(s, Base(step)))
  {
    SafeInv(s, Base(step));
    OrderlyStepInv(s.base, step);
    if !IsRestart(step) {
      forall h | h in s.requests
        ensures TickOf(StepApply(s.base, step), s.requests[h])
      {
        TickOfStep(s, step, h);
      }
    }
  }

  /** The calls of cancel handlers and tasks, and the enqueue, change no tick and make no row active. */
  lemma CallRows(s: FineState, a: FineAction)
    requires FineScheduleInv(s) && FineEnabled(s, a) && Safe(s, a)
    requires a.ReadScan? || a.WriteCanceled? || a.CheckScan? || a.StartScan?
    ensures ScheduleInv(FineApply(s, a).base) && FineApply(s, a).base.ticks == s.base.ticks
    ensures FineApply(s, a).requests == s.requests
  {
    match a
    case ReadScan(_, _) =>
    case WriteCanceled(h) => CanceledRow(s.base, s.read[h].0);
    case CheckScan(w, _) => CheckedRow(s.base, JobOf(s.base, w));
    case StartScan(w) =>
      StartIsCoarse(s.base, w);
      StartRow(s.base, w);
  }

  lemma CanceledRow(s: State, x: ScanId)
    requires ScheduleInv(s)
    ensures ScheduleInv(Written(s, x, Canceled))
  {
    FewerActive(s, Written(s, x, Canceled));
  }

  lemma CheckedRow(s: State, id: W.JobId)
    requires ScheduleInv(s)
    ensures ScheduleInv(s.(phases := s.phases[id := Ended(true)]))
  {
    FewerActive(s, s.(phases := s.phases[id := Ended(true)]));
  }

  lemma StartRow(s: State, w: W.WorkerId)
    requires ScheduleInv(s) && BeforeStart(s, w) && s.refs[JobOf(s, w)] in s.scans && Active(s.scans[s.refs[JobOf(s, w)]])
    ensures ScheduleInv(Started(s, w))
  {
    FewerActive(s, Started(s, w));
  }

  lemma EnqueueSchedule(s: FineState, h: HandlerId, result: W.EnqueueResult, wrote: bool)
    requires FineScheduleInv(s) && FineEnabled(s, EnqueueScan(h, result, wrote))
    ensures var next := FineApply(s, EnqueueScan(h, result, wrote));
            ScheduleInv(next.base) && forall g :: g in next.requests ==> TickOf(next.base, next.requests[g])
  {
    FewerActive(s.base, WithJob(s.base, s.requests[h].scan, result, wrote));
  }

  lemma InsertTicks(s: FineState, h: HandlerId, tick: Option<TickId>)
    requires FineScheduleInv(s) && FineEnabled(s, InsertScan(h, tick))
    ensures var next := FineApply(s, InsertScan(h, tick));
            forall g :: g in next.requests ==> TickOf(next.base, next.requests[g])
  {
    forall g | g in s.requests
      ensures TickOf(WithRow(s.base, tick), s.requests[g])
    {
      assert TickOf(s.base, s.requests[g]);
    }
  }

  lemma FailTicks(s: FineState, h: HandlerId)
    requires FineScheduleInv(s) && FineEnabled(s, FailScan(h))
    ensures var next := FineApply(s, FailScan(h));
            forall g :: g in next.requests ==> TickOf(next.base, next.requests[g])
  {
    var next := FineApply(s, FailScan(h));
    forall g | g in next.requests
      ensures TickOf(next.base, s.requests[g])
    {
      assert TickOf(s.base, s.requests[g]) && TickOf(s.base, s.requests[h]);
      assert s.requests[g].scan != s.requests[h].scan;
    }
  }

  lemma SafeAndOrderlyInv(s: FineState, a: FineAction)
    requires FineScheduleInv(s) && FineEnabled(s, a) && Safe(s, a) && FineOrderly(s, a)
    ensures FineScheduleInv(FineApply(s, a))
  {
    SafeInv(s, a);
    match a
    case Base(step) => BaseSchedule(s, step);
    case InsertScan(h, tick) =>
      InsertSchedule(s.base, tick);
      InsertTicks(s, h, tick);
    case EnqueueScan(h, result, wrote) => EnqueueSchedule(s, h, result, wrote);
    case FailScan(h) =>
      FailSchedule(s.base, s.requests[h]);
      FailTicks(s, h);
    case _ => CallTicks(s, a);
  }

  lemma CallTicks(s: FineState, a: FineAction)
    requires FineScheduleInv(s) && FineEnabled(s, a) && FineInv(FineApply(s, a))
    requires Safe(s, a) && (a.ReadScan? || a.WriteCanceled? || a.CheckScan? || a.StartScan?)
    ensures FineScheduleInv(FineApply(s, a))
  {
    CallRows(s, a);
  }

  lemma {:induction false} SafeAndOrderlyRunInv(s: FineState, actions: seq<FineAction>)
    requires FineScheduleInv(s) && FineCanRun(s, actions) && AllSafeAndOrderly(s, actions)
    ensures FineScheduleInv(FineRun(s, actions))
    decreases |actions|
  {
    if actions != [] {
      SafeAndOrderlyInv(s, actions[0]);
      SafeAndOrderlyRunInv(FineApply(s, actions[0]), actions[1..]);
    }
  }

  /** Single database calls take nothing from the result on schedules, as long as each is safe. */
  lemma OneActiveScanAtFineGrain(n: nat, actions: seq<FineAction>, k: ScheduleId, x: ScanId, y: ScanId)
    requires n >= 1 && FineCanRun(FineInitial(n), actions) && AllSafeAndOrderly(FineInitial(n), actions)
    requires var s := FineRun(FineInitial(n), actions).base; ActiveOf(s, k, x) && ActiveOf(s, k, y)
    ensures x == y
    ensures var s := FineRun(FineInitial(n), actions).base;
            NoTick(s, k) && k in s.schedules ==> s.schedules[k] == Some(x)
  {
    FineInitialInv(n);
    SafeAndOrderlyRunInv(FineInitial(n), actions);
    var s := FineRun(FineInitial(n), actions).base;
    assert Tracked(s, k, x);
  }
}
