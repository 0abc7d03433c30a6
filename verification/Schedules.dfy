/**
 internal/api/schedules.go: at most one unfinished scan per schedule, and what that needs.
 */
module Schedules {
  import opened Wrappers
  import opened Scans
  import W = Worker

  /** `x` was made for schedule `k` and is still queued or running. */
  predicate ActiveOf(s: State, k: ScheduleId, x: ScanId) {
    x in s.origin && s.origin[x] == k && x in s.scans && Active(s.scans[x])
  }

  predicate NoTick(s: State, k: ScheduleId) {
    forall t :: t in s.ticks ==> s.ticks[t].schedule != k
  }

  /** The unfinished scan of a schedule is the one its running tick made, else its recorded last run. */
  ghost predicate Tracked(s: State, k: ScheduleId, x: ScanId) {
    && (forall t :: t in s.ticks && s.ticks[t].schedule == k ==> s.ticks[t] == Enqueued(k, x))
    && (NoTick(s, k) && k in s.schedules ==> s.schedules[k] == Some(x))
  }

  /** Ids in use are below the next one. */
  predicate IdsInv(s: State) {
    && (forall x :: x in s.origin ==> x < s.nextScan && s.origin[x] < s.nextSchedule)
    && (forall k :: k in s.schedules ==> k < s.nextSchedule)
    && (forall t :: t in s.ticks ==> s.ticks[t].schedule < s.nextSchedule)
  }

  predicate OneTick(s: State) {
    forall t, u :: t in s.ticks && u in s.ticks && s.ticks[t].schedule == s.ticks[u].schedule ==> t == u
  }

  ghost predicate AllTracked(s: State) {
    forall k: ScheduleId, x: ScanId :: ActiveOf(s, k, x) ==> Tracked(s, k, x)
  }

  ghost predicate ScheduleInv(s: State) {
    IdsInv(s) && OneTick(s) && OriginInv(s) && AllTracked(s) && OneActive(s)
  }

  /** No schedule has two unfinished scans. */
  ghost predicate OneActive(s: State) {
    forall k: ScheduleId, x: ScanId, y: ScanId :: ActiveOf(s, k, x) && ActiveOf(s, k, y) ==> x == y
  }

  predicate MadeFor(s: State, x: ScanId, k: ScheduleId) {
    x in s.origin && s.origin[x] == k
  }

  /** The scan of an enqueued tick and the recorded last run were made for their schedule. */
  predicate OriginInv(s: State) {
    && (forall t :: t in s.ticks && s.ticks[t].Enqueued? ==> MadeFor(s, s.ticks[t].scan, s.ticks[t].schedule))
    && (forall k :: k in s.schedules && s.schedules[k].Some? ==> MadeFor(s, s.schedules[k].value, k))
  }

  /** The tick no longer matters: its schedule is gone, its scan has ended or is recorded. */
  predicate Settled(s: State, tick: Tick) {
    tick.Enqueued? && tick.schedule in s.schedules && tick.scan in s.scans && Active(s.scans[tick.scan]) ==>
      s.schedules[tick.schedule] == Some(tick.scan)
  }

  /**
   A run of runScheduledScan begins while no other one of its schedule is in flight, or is skipped
   at once; and a restart finds every tick settled.
   */
  predicate Orderly(s: State, a: Action)
    requires a.TickBegin? ==> a.schedule in s.schedules
  {
    match a
    case TickBegin(_, k) => NoTick(s, k) || LastRunActive(s, k)
    case WorkerStep(step) => step.Restart? ==> forall t :: t in s.ticks ==> Settled(s, s.ticks[t])
    case _ => true
  }

  /** A step makes at most one scan of a schedule active: the one its tick creates. */
  lemma ActiveOfBefore(s: State, a: Action, k: ScheduleId, x: ScanId)
    requires Inv(s) && ScheduleInv(s) && Enabled(s, a) && ActiveOf(Apply(s, a), k, x)
    ensures || (ActiveOf(s, k, x) && x != s.nextScan)
            || (a.TickCreate? && a.result.Accepted? && x == s.nextScan && k == s.ticks[a.tick].schedule)
  {
    ActiveBefore(s, a, x);
    OriginAfter(s, a);
  }

  lemma OriginAfter(s: State, a: Action)
    requires Enabled(s, a)
    ensures Apply(s, a).origin == if a.TickCreate? then s.origin[s.nextScan := s.ticks[a.tick].schedule] else s.origin
    ensures Apply(s, a).nextScan == if MakesScan(a) then s.nextScan + 1 else s.nextScan
    ensures Apply(s, a).nextSchedule == if a.AddSchedule? then s.nextSchedule + 1 else s.nextSchedule
  {
  }

  /** The ticks and the schedules table after a step. */
  lemma TicksAfter(s: State, a: Action)
    requires Enabled(s, a)
    ensures var next := Apply(s, a);
            && next.ticks ==
               (match a
                case TickBegin(t, k) => if LastRunActive(s, k) then s.ticks else s.ticks[t := Checked(k)]
                case TickCreate(t, result, _) =>
                  if result.Accepted? then s.ticks[t := Enqueued(s.ticks[t].schedule, s.nextScan)] else s.ticks - {t}
                case TickRecord(t) => s.ticks - {t}
                case WorkerStep(step) => if step.Restart? then map[] else s.ticks
                case _ => s.ticks)
            && next.schedules ==
               (match a
                case AddSchedule => s.schedules[s.nextSchedule := None]
                case DeleteSchedule(k) => s.schedules - {k}
                case TickRecord(t) =>
                  if s.ticks[t].schedule in s.schedules then s.schedules[s.ticks[t].schedule := Some(s.ticks[t].scan)]
                  else s.schedules
                case _ => s.schedules)
  {
  }

  /** A tick past its check sees no unfinished scan of its schedule. */
  lemma CheckedSeesNone(s: State, t: TickId, x: ScanId)
    requires ScheduleInv(s) && t in s.ticks && s.ticks[t].Checked?
    ensures !ActiveOf(s, s.ticks[t].schedule, x)
  {
  }

  lemma BeginSeesNone(s: State, k: ScheduleId, x: ScanId)
    requires ScheduleInv(s) && k in s.schedules && NoTick(s, k) && !LastRunActive(s, k)
    ensures !ActiveOf(s, k, x)
  {
  }

  /** A new scan is tracked by the tick that made it. */
  lemma NewIsTracked(s: State, t: TickId, wrote: bool)
    requires ScheduleInv(s) && Enabled(s, TickCreate(t, W.Accepted, wrote))
    ensures Tracked(Apply(s, TickCreate(t, W.Accepted, wrote)), s.ticks[t].schedule, s.nextScan)
  {
    var a, k := TickCreate(t, W.Accepted, wrote), s.ticks[t].schedule;
    TicksAfter(s, a);
    assert Apply(s, a).ticks[t] == Enqueued(k, s.nextScan);
  }

  lemma TrackedStep(s: State, a: Action, k: ScheduleId, x: ScanId)
    requires Inv(s) && ScheduleInv(s) && Enabled(s, a) && Orderly(s, a) && ActiveOf(Apply(s, a), k, x)
    ensures Tracked(Apply(s, a), k, x)
  {
    ActiveOfBefore(s, a, k, x);
    if ActiveOf(s, k, x) && x != s.nextScan {
      OldIsTracked(s, a, k, x);
    } else {
      NewIsTracked(s, a.tick, a.wrote);
    }
  }

  lemma OldIsTracked(s: State, a: Action, k: ScheduleId, x: ScanId)
    requires ScheduleInv(s) && Enabled(s, a) && Orderly(s, a) && ActiveOf(s, k, x)
    ensures Tracked(Apply(s, a), k, x)
  {
    var next := Apply(s, a);
    TicksAfter(s, a);
    assert Tracked(s, k, x);
    match a
    case TickBegin(t, j) =>
      if !LastRunActive(s, j) {
        if j == k {
          BeginSeesNone(s, k, x);
        }
        NoTickKept(s, next, t, k);
      }
    case TickCreate(t, _, _) =>
      CheckedSeesNone(s, t, x);
      NoTickKept(s, next, t, k);
    case TickRecord(t) =>
      if s.ticks[t].schedule != k {
        NoTickKept(s, next, t, k);
      }
    case _ =>
  }

  /** Ending or changing another schedule's tick does not free this one. */
  lemma NoTickKept(s: State, next: State, t: TickId, k: ScheduleId)
    requires t in s.ticks ==> s.ticks[t].schedule != k
    requires forall u :: u in s.ticks && u != t ==> u in next.ticks && next.ticks[u] == s.ticks[u]
    ensures NoTick(next, k) ==> NoTick(s, k)
  {
  }

  lemma OneActiveStep(s: State, a: Action, k: ScheduleId, x: ScanId, y: ScanId)
    requires Inv(s) && ScheduleInv(s) && Enabled(s, a)
    requires ActiveOf(Apply(s, a), k, x) && ActiveOf(Apply(s, a), k, y)
    ensures x == y
  {
    ActiveOfBefore(s, a, k, x);
    ActiveOfBefore(s, a, k, y);
    if a.TickCreate? {
      CheckedSeesNone(s, a.tick, x);
      CheckedSeesNone(s, a.tick, y);
    }
  }

  lemma IdsStep(s: State, a: Action)
    requires IdsInv(s) && Enabled(s, a)
    ensures IdsInv(Apply(s, a))
  {
    OriginAfter(s, a);
    TicksAfter(s, a);
  }

  lemma OneTickStep(s: State, a: Action)
    requires OneTick(s) && Enabled(s, a) && Orderly(s, a)
    ensures OneTick(Apply(s, a))
  {
    TicksAfter(s, a);
  }

  lemma OriginInvStep(s: State, a: Action)
    requires Enabled(s, a) && OriginInv(s) && forall x :: x in s.origin ==> x < s.nextScan
    ensures OriginInv(Apply(s, a))
  {
    OriginAfter(s, a);
    TicksAfter(s, a);
  }

  lemma ScheduleInvStep(s: State, a: Action)
    requires Inv(s) && ScheduleInv(s) && Enabled(s, a) && Orderly(s, a)
    ensures ScheduleInv(Apply(s, a))
  {
    var next := Apply(s, a);
    IdsStep(s, a);
    OneTickStep(s, a);
    OriginInvStep(s, a);
    forall k: ScheduleId, x: ScanId | ActiveOf(next, k, x)
      ensures Tracked(next, k, x)
    {
      TrackedStep(s, a, k, x);
    }
    forall k: ScheduleId, x: ScanId, y: ScanId | ActiveOf(next, k, x) && ActiveOf(next, k, y)
      ensures x == y
    {
      OneActiveStep(s, a, k, x, y);
    }
  }

  // ------------------------------------------- the steps of a schedule's run, with failures

  /**
   A step of Scans; a tick whose read of its last run's row fails, so that it goes on; or a tick
   whose record of its scan fails.
   */
  datatype Step = Plain(a: Action) | BlindBegin(tick: TickId, schedule: ScheduleId) | LoseRecord(tick: TickId)

  ghost predicate StepEnabled(s: State, step: Step) {
    match step
    case Plain(a) => Enabled(s, a)
    case BlindBegin(t, k) => Enabled(s, TickBegin(t, k))
    case LoseRecord(t) => Enabled(s, TickRecord(t))
  }

  ghost function StepApply(s: State, step: Step): State
    requires StepEnabled(s, step)
  {
    match step
    case Plain(a) => Apply(s, a)
    case BlindBegin(t, k) => s.(ticks := s.ticks[t := Checked(k)])
    case LoseRecord(t) => s.(ticks := s.ticks - {t})
  }

  ghost predicate StepsCanRun(s: State, steps: seq<Step>)
    decreases |steps|
  {
    steps != [] ==> StepEnabled(s, steps[0]) && StepsCanRun(StepApply(s, steps[0]), steps[1..])
  }

  ghost function RunSteps(s: State, steps: seq<Step>): State
    requires StepsCanRun(s, steps)
    decreases |steps|
  {
    if steps == [] then s else RunSteps(StepApply(s, steps[0]), steps[1..])
  }

  /**
   Which steps keep a schedule at one unfinished scan. A run that cannot read its last run's row
   must find it finished; one that cannot record its scan must find that settled.
   */
  ghost predicate OrderlyStep(s: State, step: Step)
    requires StepEnabled(s, step)
  {
    match step
    case Plain(a) => Orderly(s, a)
    case BlindBegin(_, k) => NoTick(s, k) && !LastRunActive(s, k)
    case LoseRecord(t) => Settled(s, s.ticks[t])
  }

  ghost predicate AllOrderly(s: State, steps: seq<Step>)
    requires StepsCanRun(s, steps)
    decreases |steps|
  {
    steps != [] ==> OrderlyStep(s, steps[0]) && AllOrderly(StepApply(s, steps[0]), steps[1..])
  }

  ghost predicate BothInv(s: State) {
    Inv(s) && ScheduleInv(s)
  }

  /** The ticks do not matter to rows and jobs. */
  lemma TicksDoNotMatter(s: State, ticks: map<TickId, Tick>)
    requires Inv(s)
    ensures Inv(s.(ticks := ticks))
  {
    var next := s.(ticks := ticks);
    forall id | id in next.refs
      ensures JobInv(next, id)
    {
      assert JobInv(s, id);
      SamePlaces(s, next, id);
    }
  }

  lemma BlindBeginTracked(s: State, t: TickId, k: ScheduleId)
    requires ScheduleInv(s) && Enabled(s, TickBegin(t, k)) && NoTick(s, k) && !LastRunActive(s, k)
    ensures AllTracked(s.(ticks := s.ticks[t := Checked(k)]))
  {
    var next := s.(ticks := s.ticks[t := Checked(k)]);
    forall j: ScheduleId, x: ScanId | ActiveOf(next, j, x)
      ensures Tracked(next, j, x)
    {
      assert ActiveOf(s, j, x) && Tracked(s, j, x);
      if j == k {
        BeginSeesNone(s, k, x);
      } else {
        NoTickKept(s, next, t, j);
      }
    }
  }

  lemma BlindBeginInv(s: State, t: TickId, k: ScheduleId)
    requires ScheduleInv(s) && Enabled(s, TickBegin(t, k)) && NoTick(s, k) && !LastRunActive(s, k)
    ensures ScheduleInv(s.(ticks := s.ticks[t := Checked(k)]))
  {
    var next := s.(ticks := s.ticks[t := Checked(k)]);
    BlindBeginTracked(s, t, k);
    assert forall j: ScheduleId, x: ScanId :: ActiveOf(next, j, x) ==> ActiveOf(s, j, x);
  }

  lemma LoseRecordInv(s: State, t: TickId)
    requires ScheduleInv(s) && Enabled(s, TickRecord(t)) && Settled(s, s.ticks[t])
    ensures ScheduleInv(s.(ticks := s.ticks - {t}))
  {
    var next := s.(ticks := s.ticks - {t});
    forall k: ScheduleId, x: ScanId | ActiveOf(next, k, x)
      ensures Tracked(next, k, x)
    {
      assert ActiveOf(s, k, x) && Tracked(s, k, x);
      if s.ticks[t].schedule != k {
        NoTickKept(s, next, t, k);
      }
    }
    assert forall k: ScheduleId, x: ScanId :: ActiveOf(next, k, x) ==> ActiveOf(s, k, x);
  }

  lemma OrderlyStepInv(s: State, step: Step)
    requires BothInv(s) && StepEnabled(s, step) && OrderlyStep(s, step)
    ensures BothInv(StepApply(s, step))
  {
    match step
    case Plain(a) =>
      InvStep(s, a);
      ScheduleInvStep(s, a);
    case BlindBegin(t, k) =>
      TicksDoNotMatter(s, s.ticks[t := Checked(k)]);
      BlindBeginInv(s, t, k);
    case LoseRecord(t) =>
      TicksDoNotMatter(s, s.ticks - {t});
      LoseRecordInv(s, t);
  }

  lemma {:induction false} OrderlyRunInv(s: State, steps: seq<Step>)
    requires BothInv(s) && StepsCanRun(s, steps) && AllOrderly(s, steps)
    ensures BothInv(RunSteps(s, steps))
    decreases |steps|
  {
    if steps != [] {
      OrderlyStepInv(s, steps[0]);
      OrderlyRunInv(StepApply(s, steps[0]), steps[1..]);
    }
  }

  /**
   Over any series of cron ticks, run-now requests, cancels, edits, restarts, failed enqueues and
   failed reads in which every step is orderly, a schedule has at most one queued or running scan;
   between its ticks that scan is its recorded last run.
   */
  lemma OneActiveScanPerSchedule(n: nat, steps: seq<Step>, k: ScheduleId, x: ScanId, y: ScanId)
    requires n >= 1 && StepsCanRun(Initial(n), steps) && AllOrderly(Initial(n), steps)
    requires var s := RunSteps(Initial(n), steps); ActiveOf(s, k, x) && ActiveOf(s, k, y)
    ensures x == y
    ensures var s := RunSteps(Initial(n), steps);
            NoTick(s, k) && k in s.schedules ==> s.schedules[k] == Some(x)
  {
    InitialInv(n);
    OrderlyRunInv(Initial(n), steps);
    var s := RunSteps(Initial(n), steps);
    assert Tracked(s, k, x);
  }
}
