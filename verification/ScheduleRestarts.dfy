/**
 What a restart leaves of scans and schedules. Startup reconciles the jobs table only: a scan row
 that says queued or running then has no job any more. Such a row is never touched again by a
 job; a queued one can still be canceled, a running one cannot be ended at all. A schedule that can
 read it waits for it.
 */
module ScheduleRestarts {
  import opened Wrappers
  import opened Scans
  import opened Schedules
  import W = Worker

  /** An unfinished scan that no job will ever update. */
  ghost predicate Parked(s: State, x: ScanId) {
    x in s.scans && Active(s.scans[x]) && Unattended(s, x)
  }

  /** A restart parks every unfinished scan. */
  lemma RestartParksScans(s: State, n: nat, wrote: bool, x: ScanId)
    requires Inv(s) && n >= 1 && x in s.scans && Active(s.scans[x])
    ensures Parked(Apply(s, WorkerStep(W.Restart(n, wrote))), x)
  {
  }

  predicate Cancels(a: Action, x: ScanId) {
    a.CancelScan? && a.scan == x
  }

  /** A step leaves a parked scan as it is, unless it cancels a queued one. */
  lemma ParkedStep(s: State, a: Action, x: ScanId)
    requires Inv(s) && Enabled(s, a) && Parked(s, x)
    requires s.scans[x] == Queued ==> !Cancels(a, x)
    ensures Parked(Apply(s, a), x) && Apply(s, a).scans[x] == s.scans[x]
  {
    var next := Apply(s, a);
    RefsStep(s, a);
    RowAfter(s, a, x);
    if a.CheckAndStart? {
      CheckedJob(s, a.w);
    }
    forall id | id in next.refs && next.refs[id] == x
      ensures !Ahead(next, id)
    {
      if Ahead(next, id) {
        AheadBefore(s, a, id);
      }
    }
  }

  /** The schedule's last run is parked and no tick of it is in flight. */
  ghost predicate Blocked(s: State, k: ScheduleId, x: ScanId) {
    && Parked(s, x) && NoTick(s, k) && k < s.nextSchedule
    && (k in s.schedules ==> s.schedules[k] == Some(x))
  }

  /** No scan was made for the schedule between two states. */
  predicate NoneMade(s: State, later: State, k: ScheduleId) {
    forall y :: y in later.origin && later.origin[y] == k ==> y in s.origin && s.origin[y] == k
  }

  lemma BlockedStep(s: State, a: Action, k: ScheduleId, x: ScanId)
    requires Inv(s) && Enabled(s, a) && Blocked(s, k, x)
    requires s.scans[x] == Queued ==> !Cancels(a, x)
    ensures Blocked(Apply(s, a), k, x) && Apply(s, a).scans[x] == s.scans[x]
    ensures NoneMade(s, Apply(s, a), k)
  {
    ParkedStep(s, a, x);
    TicksAfter(s, a);
    OriginAfter(s, a);
    if a.TickBegin? && a.schedule == k {
      assert LastRunActive(s, k);
    }
  }

  /**
   While its parked last run stays as it is, a schedule makes no scan: a running one stays over
   every run, a queued one over every run that does not cancel it.
   */
  lemma {:induction false} BlockedStays(s: State, actions: seq<Action>, k: ScheduleId, x: ScanId)
    requires Inv(s) && CanRun(s, actions) && Blocked(s, k, x)
    requires s.scans[x] == Queued ==> forall i :: 0 <= i < |actions| ==> !Cancels(actions[i], x)
    ensures Blocked(Run(s, actions), k, x) && Run(s, actions).scans[x] == s.scans[x]
    ensures NoneMade(s, Run(s, actions), k)
    decreases |actions|
  {
    if actions != [] {
      InvStep(s, actions[0]);
      BlockedStep(s, actions[0], k, x);
      assert forall i :: 0 <= i < |actions[1..]| ==> actions[1..][i] == actions[i + 1];
      BlockedStays(Apply(s, actions[0]), actions[1..], k, x);
    }
  }

  // ------------------------------------------------------- reached from the start

  lemma {:induction false} IdsHold(s: State, actions: seq<Action>)
    requires Inv(s) && IdsInv(s) && CanRun(s, actions)
    ensures Inv(Run(s, actions)) && IdsInv(Run(s, actions))
    decreases |actions|
  {
    if actions != [] {
      InvStep(s, actions[0]);
      IdsStep(s, actions[0]);
      IdsHold(Apply(s, actions[0]), actions[1..]);
    }
  }

  /** The state right after a restart that ends a run of the system. */
  ghost function Restarted(n: nat, actions: seq<Action>, m: nat, wrote: bool): State
    requires CanRun(Initial(n), actions) && m >= 1
  {
    Apply(Run(Initial(n), actions), WorkerStep(W.Restart(m, wrote)))
  }

  lemma RestartedInv(n: nat, actions: seq<Action>, m: nat, wrote: bool)
    requires n >= 1 && CanRun(Initial(n), actions) && m >= 1
    ensures var r := Restarted(n, actions, m, wrote);
            && Inv(r) && IdsInv(r) && r.ticks == map[] && r.worker.queue == [] && r.phases == map[]
  {
    InitialInv(n);
    IdsHold(Initial(n), actions);
    InvStep(Run(Initial(n), actions), WorkerStep(W.Restart(m, wrote)));
    IdsStep(Run(Initial(n), actions), WorkerStep(W.Restart(m, wrote)));
  }

  /** After any run that ends in a restart, a schedule whose last run is unfinished is blocked by it. */
  lemma RestartBlocks(n: nat, actions: seq<Action>, m: nat, wrote: bool, k: ScheduleId, x: ScanId)
    requires n >= 1 && CanRun(Initial(n), actions) && m >= 1
    requires var r := Restarted(n, actions, m, wrote);
             k in r.schedules && r.schedules[k] == Some(x) && x in r.scans && Active(r.scans[x])
    ensures Inv(Restarted(n, actions, m, wrote)) && Blocked(Restarted(n, actions, m, wrote), k, x)
  {
    RestartedInv(n, actions, m, wrote);
    InitialInv(n);
    InvHolds(Initial(n), actions);
    RestartParksScans(Run(Initial(n), actions), m, wrote, x);
  }

  /**
   A scan that says running after a restart says so forever: no later step, cancel included, can
   end it. If it is a schedule's last run, that schedule never makes another scan.
   */
  lemma StrandedForever(n: nat, actions: seq<Action>, m: nat, wrote: bool, later: seq<Action>, k: ScheduleId, x: ScanId)
    requires n >= 1 && CanRun(Initial(n), actions) && m >= 1
    requires var r := Restarted(n, actions, m, wrote);
             && k in r.schedules && r.schedules[k] == Some(x) && x in r.scans && r.scans[x] == Running
             && CanRun(r, later)
    ensures var r, end := Restarted(n, actions, m, wrote), Run(Restarted(n, actions, m, wrote), later);
            && x in end.scans && end.scans[x] == Running && NoneMade(r, end, k)
  {
    RestartBlocks(n, actions, m, wrote, k, x);
    BlockedStays(Restarted(n, actions, m, wrote), later, k, x);
  }

  /** A scan left queued by a restart stays queued, and its schedule skips every run, until the scan is canceled. */
  lemma QueuedUntilCanceled(n: nat, actions: seq<Action>, m: nat, wrote: bool, later: seq<Action>, k: ScheduleId, x: ScanId)
    requires n >= 1 && CanRun(Initial(n), actions) && m >= 1
    requires var r := Restarted(n, actions, m, wrote);
             && k in r.schedules && r.schedules[k] == Some(x) && x in r.scans && r.scans[x] == Queued
             && CanRun(r, later)
    requires forall i :: 0 <= i < |later| ==> !Cancels(later[i], x)
    ensures var r, end := Restarted(n, actions, m, wrote), Run(Restarted(n, actions, m, wrote), later);
            && x in end.scans && end.scans[x] == Queued && NoneMade(r, end, k)
  {
    RestartBlocks(n, actions, m, wrote, k, x);
    BlockedStays(Restarted(n, actions, m, wrote), later, k, x);
  }

  // ---------------------------------------------- a panic does the same

  lemma PanicNotAhead(s: State, w: W.WorkerId)
    requires Inv(s) && Enabled(s, ReturnScan(w, W.Panics))
    ensures !Ahead(Apply(s, ReturnScan(w, W.Panics)), JobOf(s, w))
  {
    var next, id := Apply(s, ReturnScan(w, W.Panics)), JobOf(s, w);
    assert W.Holds(s.worker, w, id);
    if Fresh(next, id) {
      FreshBeforeReturn(s, w, W.Panics, id);
      if id !in next.worker.queue {
        var v: W.WorkerId :| HoldsFresh(next, v, id);
        assert W.Holds(s.worker, v, id);
      }
    }
  }

  /** A task that panics leaves its scan's unfinished row to nobody. */
  lemma PanicParksScan(s: State, w: W.WorkerId)
    requires Inv(s) && Enabled(s, ReturnScan(w, W.Panics))
    requires var x := s.refs[JobOf(s, w)]; x in s.scans && Active(s.scans[x])
    ensures var next, x := Apply(s, ReturnScan(w, W.Panics)), s.refs[JobOf(s, w)];
            Parked(next, x) && next.scans[x] == s.scans[x]
  {
    PanicNotAhead(s, w);
  }

  /** The state right after the task in worker `w` has panicked. */
  ghost function Panicked(n: nat, actions: seq<Action>, w: W.WorkerId): State
    requires CanRun(Initial(n), actions) && Enabled(Run(Initial(n), actions), ReturnScan(w, W.Panics))
  {
    Apply(Run(Initial(n), actions), ReturnScan(w, W.Panics))
  }

  /**
   Without any restart: a scan whose task panics while the row says running says so forever. If it is
   the recorded last run of a schedule, that schedule never makes another scan.
   */
  lemma PanicStrands(n: nat, actions: seq<Action>, w: W.WorkerId, later: seq<Action>, k: ScheduleId, x: ScanId)
    requires n >= 1 && CanRun(Initial(n), actions) && Enabled(Run(Initial(n), actions), ReturnScan(w, W.Panics))
    requires var s := Run(Initial(n), actions); x == s.refs[JobOf(s, w)] && x in s.scans && s.scans[x] == Running
    requires var p := Panicked(n, actions, w);
             CanRun(p, later) && k in p.schedules && p.schedules[k] == Some(x) && NoTick(p, k)
    ensures var p, end := Panicked(n, actions, w), Run(Panicked(n, actions, w), later);
            x in end.scans && end.scans[x] == Running && NoneMade(p, end, k)
  {
    InitialInv(n);
    IdsHold(Initial(n), actions);
    var s, p := Run(Initial(n), actions), Panicked(n, actions, w);
    InvStep(s, ReturnScan(w, W.Panics));
    IdsStep(s, ReturnScan(w, W.Panics));
    PanicParksScan(s, w);
    BlockedStays(p, later, k, x);
  }

  // -------------------------------------- exactly which schedules can go on

  /** The later run makes scan `y` for the schedule. */
  ghost predicate MakesAnother(s: State, later: seq<Action>, k: ScheduleId, y: ScanId) {
    CanRun(s, later) && y !in s.origin && y in Run(s, later).origin && Run(s, later).origin[y] == k
  }

  predicate LastRunRunning(s: State, k: ScheduleId)
    requires k in s.schedules
  {
    var last := s.schedules[k];
    last.Some? && last.value in s.scans && s.scans[last.value] == Running
  }

  /** At most one job refers to a scan, so the running job of a scan is easily found. */
  lemma SomeRunningJob(s: State, x: ScanId) returns (job: Option<W.JobId>)
    requires Inv(s)
    ensures IsRunningJobFor(s, x, job)
  {
    if id: W.JobId :| RefersRunning(s, id, x) {
      job := Some(id);
    } else {
      job := None;
    }
  }

  /** With an idle queue and a finished last run, a tick makes a scan. */
  lemma TickMakesScan(s: State, before: seq<Action>, k: ScheduleId)
    requires CanRun(s, before) && IdsInv(s)
    requires var t := Run(s, before);
             k in t.schedules && !LastRunActive(t, k) && t.ticks == map[] && t.worker.queue == [] && t.origin == s.origin
             && t.nextScan == s.nextScan
    ensures MakesAnother(s, before + [TickBegin(0, k)] + [TickCreate(0, W.Accepted, true)], k, s.nextScan)
  {
    RunMore(s, before, TickBegin(0, k));
    var begun := before + [TickBegin(0, k)];
    assert Run(s, begun).ticks == map[0 := Checked(k)];
    assert Run(s, begun).worker == Run(s, before).worker;
    RunMore(s, begun, TickCreate(0, W.Accepted, true));
  }

  lemma CancelFrees(s: State, k: ScheduleId, x: ScanId) returns (later: seq<Action>)
    requires Inv(s) && IdsInv(s) && s.ticks == map[] && s.worker.queue == []
    requires k in s.schedules && s.schedules[k] == Some(x) && x in s.scans && s.scans[x] == Queued
    ensures MakesAnother(s, later, k, s.nextScan)
  {
    var job := SomeRunningJob(s, x);
    var a := CancelScan(x, job);
    RunMore(s, [], a);
    var t := Apply(s, a);
    assert t.scans[x] == Canceled && t.schedules == s.schedules && t.worker.queue == [];
    TickMakesScan(s, [] + [a], k);
    later := [] + [a] + [TickBegin(0, k)] + [TickCreate(0, W.Accepted, true)];
  }

  /**
   Right after a restart, a schedule can still get another scan exactly when its last run's row
   does not say running.
   */
  lemma SchedulesThatGoOn(n: nat, actions: seq<Action>, m: nat, wrote: bool, k: ScheduleId)
    requires n >= 1 && CanRun(Initial(n), actions) && m >= 1
    requires k in Restarted(n, actions, m, wrote).schedules
    ensures var r := Restarted(n, actions, m, wrote);
            (exists later, y :: MakesAnother(r, later, k, y)) <==> !LastRunRunning(r, k)
  {
    var r := Restarted(n, actions, m, wrote);
    RestartedInv(n, actions, m, wrote);
    if LastRunRunning(r, k) {
      forall later, y | MakesAnother(r, later, k, y)
        ensures false
      {
        StrandedForever(n, actions, m, wrote, later, k, r.schedules[k].value);
      }
    } else if LastRunActive(r, k) {
      var later := CancelFrees(r, k, r.schedules[k].value);
    } else {
      TickMakesScan(r, [], k);
    }
  }

  // ---------------------------------------------------- stopping without a crash

  /** Neither a crash nor a panic of a task. */
  predicate Peaceful(a: Action) {
    !(a.WorkerStep? && a.step.Restart?) && !(a.ReturnScan? && a.outcome == W.Panics)
  }

  ghost predicate RunningInv(s: State) {
    forall x :: x in s.scans && s.scans[x] == Running ==> HeldByTask(s, x)
  }

  lemma RunningRowStep(s: State, a: Action, x: ScanId)
    requires Inv(s) && RunningInv(s) && Enabled(s, a) && Peaceful(a)
    requires x in Apply(s, a).scans && Apply(s, a).scans[x] == Running
    ensures HeldByTask(Apply(s, a), x)
  {
    var next := Apply(s, a);
    if InTaskAction(a) && s.refs[JobOf(s, a.w)] == x {
      OwnRunningStep(s, a);
    } else {
      ActiveBefore(s, a, x);
      RowAfter(s, a, x);
      var id :| id in s.phases && id in s.refs && s.refs[id] == x && !s.phases[id].Ended?;
      PhaseStays(s, a, id);
      RefsKept(s, a, id);
      assert id in next.phases && next.refs[id] == x;
    }
  }

  lemma OwnRunningStep(s: State, a: Action)
    requires Inv(s) && RunningInv(s) && Enabled(s, a) && Peaceful(a) && InTaskAction(a)
    requires var x := s.refs[JobOf(s, a.w)]; x in Apply(s, a).scans && Apply(s, a).scans[x] == Running
    ensures HeldByTask(Apply(s, a), s.refs[JobOf(s, a.w)])
  {
    var next, id := Apply(s, a), JobOf(s, a.w);
    assert JobInv(s, id);
    RefsKept(s, a, id);
    if a.CheckAndStart? || a.CallScan? {
      assert id in next.phases && next.refs[id] == s.refs[id] && !next.phases[id].Ended?;
    }
  }

  lemma {:induction false} RunningHolds(s: State, actions: seq<Action>)
    requires Inv(s) && RunningInv(s) && CanRun(s, actions) && forall i :: 0 <= i < |actions| ==> Peaceful(actions[i])
    ensures Inv(Run(s, actions)) && RunningInv(Run(s, actions))
    decreases |actions|
  {
    if actions != [] {
      var a := actions[0];
      InvStep(s, a);
      forall x | x in Apply(s, a).scans && Apply(s, a).scans[x] == Running
        ensures HeldByTask(Apply(s, a), x)
      {
        RunningRowStep(s, a, x);
      }
      assert forall i :: 0 <= i < |actions[1..]| ==> actions[1..][i] == actions[i + 1];
      RunningHolds(Apply(s, a), actions[1..]);
    }
  }

  /** Once every worker has left, without a crash or a panic, no scan row says running. */
  lemma GracefulStopEndsScans(n: nat, actions: seq<Action>, x: ScanId)
    requires n >= 1 && CanRun(Initial(n), actions) && forall i :: 0 <= i < |actions| ==> Peaceful(actions[i])
    requires W.AllExited(Run(Initial(n), actions).worker) && x in Run(Initial(n), actions).scans
    ensures Run(Initial(n), actions).scans[x] != Running
  {
    InitialInv(n);
    RunningHolds(Initial(n), actions);
    var s := Run(Initial(n), actions);
    if s.scans[x] == Running {
      HeldNeedsWorker(s, x);
    }
  }

  lemma HeldNeedsWorker(s: State, x: ScanId)
    requires Inv(s) && HeldByTask(s, x)
    ensures !W.AllExited(s.worker)
  {
    var id :| id in s.phases && id in s.refs && s.refs[id] == x && !s.phases[id].Ended?;
    assert JobInv(s, id);
    var w: W.WorkerId :| InTask(s, w) && s.worker.workers[w].id == id;
  }
}
