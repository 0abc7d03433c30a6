/**
 internal/api/scans.go, internal/api/schedules.go and internal/db/scans.go: scan rows and
 schedules on top of the job queue. The cancel handler, runScan's check-and-start, and
 create-plus-enqueue are one step each here; FineSteps takes them apart.
 */
module Scans {
  import opened Wrappers
  import W = Worker

  type ScanId = nat
  type ScheduleId = nat
  type TickId = nat

  datatype Status = Queued | Running | Done | Error | Canceled

  /** Where the body of a scan job is, once it has looked at its row. */
  datatype Phase = Preparing | InScan | Ended(ok: bool)

  /** One run of runScheduledScan: past its check, or past the enqueue. */
  datatype Tick = Checked(schedule: ScheduleId) | Enqueued(schedule: ScheduleId, scan: ScanId)

  /**
   The worker's state, the scans table, the scan each job refers to, the schedules table
   with its last_run_id, and what is in flight. `reached` (scans handed to the scanner),
   `origin` (the schedule that made a scan) and `disturbed` (a shutdown, restart or task
   panic has happened) are history.
   */
  datatype State = State(
    worker: W.State,
    scans: map<ScanId, Status>,
    nextScan: ScanId,
    refs: map<W.JobId, ScanId>,
    phases: map<W.JobId, Phase>,
    schedules: map<ScheduleId, Option<ScanId>>,
    nextSchedule: ScheduleId,
    ticks: map<TickId, Tick>,
    reached: set<ScanId>,
    origin: map<ScanId, ScheduleId>,
    disturbed: bool)

  datatype Action =
    | ManualScan(result: W.EnqueueResult, wrote: bool)
    | WorkerStep(step: W.Action)
    | CheckAndStart(w: W.WorkerId)
    | CallScan(w: W.WorkerId)
    | FinishScan(w: W.WorkerId, status: Status)
    | ReturnScan(w: W.WorkerId, outcome: W.Outcome)
    | CancelScan(scan: ScanId, job: Option<W.JobId>)
    | AddSchedule
    | DeleteSchedule(schedule: ScheduleId)
    | TickBegin(tick: TickId, schedule: ScheduleId)
    | TickCreate(tick: TickId, result: W.EnqueueResult, wrote: bool)
    | TickRecord(tick: TickId)

  predicate Active(status: Status) {
    status == Queued || status == Running
  }

  /** The worker is inside the body of a scan job. */
  predicate InTask(s: State, w: W.WorkerId) {
    W.At(s.worker, w) && s.worker.workers[w].Started? && s.worker.workers[w].id in s.refs
  }

  predicate InPhase(s: State, w: W.WorkerId, phase: Phase) {
    InTask(s, w) && s.worker.workers[w].id in s.phases && s.phases[s.worker.workers[w].id] == phase
  }

  /** RunningJobForRef: the newest running job of the scan, if there is one. */
  ghost predicate IsRunningJobFor(s: State, scan: ScanId, job: Option<W.JobId>) {
    if job.Some? then
      && RefersRunning(s, job.value, scan)
      && forall id: W.JobId :: RefersRunning(s, id, scan) ==> id <= job.value
    else forall id: W.JobId :: !RefersRunning(s, id, scan)
  }

  predicate RefersRunning(s: State, id: W.JobId, scan: ScanId) {
    id in s.refs && s.refs[id] == scan && id in s.worker.rows && s.worker.rows[id] == W.Running
  }

  /** Is the schedule's recorded last run still queued or running? */
  predicate LastRunActive(s: State, k: ScheduleId)
    requires k in s.schedules
  {
    var last := s.schedules[k];
    last.Some? && last.value in s.scans && Active(s.scans[last.value])
  }

  /** A cancel whose lookup of the running job fails goes on without a job. */
  ghost predicate Enabled(s: State, a: Action) {
    match a
    case ManualScan(result, wrote) => W.CanEnqueue(s.worker, result)
    case WorkerStep(step) =>
      W.Enabled(s.worker, step) && (step.Return? ==> s.worker.workers[step.w].id !in s.refs)
    case CheckAndStart(w) => InTask(s, w) && s.worker.workers[w].id !in s.phases
    case CallScan(w) => InPhase(s, w, Preparing)
    case FinishScan(w, status) => InPhase(s, w, InScan) && !Active(status)
    case ReturnScan(w, outcome) =>
      && InTask(s, w)
      && (outcome == W.ReturnsNil ==> InPhase(s, w, Ended(true)))
      && (outcome == W.ReturnsError ==> InPhase(s, w, Ended(false)))
    case CancelScan(scan, job) =>
      scan in s.scans && Active(s.scans[scan]) && (job.Some? ==> IsRunningJobFor(s, scan, job))
    case AddSchedule => true
    case DeleteSchedule(k) => k in s.schedules
    case TickBegin(t, k) => t !in s.ticks && k in s.schedules
    case TickCreate(t, result, wrote) => t in s.ticks && s.ticks[t].Checked? && W.CanEnqueue(s.worker, result)
    case TickRecord(t) => t in s.ticks && s.ticks[t].Enqueued?
  }

  predicate MakesScan(a: Action) {
    a.ManualScan? || a.TickCreate?
  }

  /** A scan's job exists unless its row could not be inserted. */
  predicate MakesJob(a: Action) {
    MakesScan(a) && !a.result.NotCreated?
  }

  predicate InTaskAction(a: Action) {
    a.CheckAndStart? || a.CallScan? || a.FinishScan? || a.ReturnScan?
  }

  predicate Disturbs(a: Action) {
    match a
    case WorkerStep(step) => step.Stop? || step.Restart?
    case ReturnScan(_, outcome) => outcome == W.Panics
    case _ => false
  }

  function JobOf(s: State, w: W.WorkerId): W.JobId
    requires InTask(s, w)
  {
    s.worker.workers[w].id
  }

  // The parts of the state after a step

  ghost function NextWorker(s: State, a: Action): W.State
    requires Enabled(s, a)
  {
    match a
    case ManualScan(result, wrote) => W.EnqueueSteps(s.worker, result, wrote)
    case TickCreate(_, result, wrote) => W.EnqueueSteps(s.worker, result, wrote)
    case WorkerStep(step) => W.Apply(s.worker, step)
    case ReturnScan(w, outcome) => W.Apply(s.worker, W.Return(w, outcome))
    case CancelScan(_, job) => if job.Some? then W.Apply(s.worker, W.Cancel(job.value)) else s.worker
    case _ => s.worker
  }

  /** A new row is queued, or ended at once if its job was not accepted. */
  ghost function NextScans(s: State, a: Action): map<ScanId, Status>
    requires Enabled(s, a)
  {
    match a
    case ManualScan(result, _) => s.scans[s.nextScan := if result.Accepted? then Queued else Error]
    case TickCreate(_, result, _) => s.scans[s.nextScan := if result.Accepted? then Queued else Error]
    case CheckAndStart(w) =>
      var scan := s.refs[JobOf(s, w)];
      if scan in s.scans && s.scans[scan] == Canceled then s.scans else s.scans[scan := Running]
    case FinishScan(w, status) => s.scans[s.refs[JobOf(s, w)] := status]
    case CancelScan(scan, _) => if s.scans[scan] == Queued then s.scans[scan := Canceled] else s.scans
    case _ => s.scans
  }

  ghost function NextPhases(s: State, a: Action): map<W.JobId, Phase>
    requires Enabled(s, a)
  {
    match a
    case CheckAndStart(w) =>
      var scan := s.refs[JobOf(s, w)];
      s.phases[JobOf(s, w) := if scan in s.scans && s.scans[scan] == Canceled then Ended(true) else Preparing]
    case CallScan(w) => s.phases[JobOf(s, w) := InScan]
    case FinishScan(w, status) => s.phases[JobOf(s, w) := Ended(status == Done)]
    case ReturnScan(w, _) => s.phases - {JobOf(s, w)}
    case WorkerStep(step) => if step.Restart? then map[] else s.phases
    case _ => s.phases
  }

  function NextRefs(s: State, a: Action): map<W.JobId, ScanId> {
    if MakesJob(a) then s.refs[s.worker.nextId := s.nextScan] else s.refs
  }

  ghost function NextSchedules(s: State, a: Action): map<ScheduleId, Option<ScanId>>
    requires Enabled(s, a)
  {
    match a
    case AddSchedule => s.schedules[s.nextSchedule := None]
    case DeleteSchedule(k) => s.schedules - {k}
    case TickRecord(t) =>
      if s.ticks[t].schedule in s.schedules then s.schedules[s.ticks[t].schedule := Some(s.ticks[t].scan)] else s.schedules
    case _ => s.schedules
  }

  ghost function NextTicks(s: State, a: Action): map<TickId, Tick>
    requires Enabled(s, a)
  {
    match a
    case TickBegin(t, k) => if LastRunActive(s, k) then s.ticks else s.ticks[t := Checked(k)]
    case TickCreate(t, result, _) =>
      if result.Accepted? then s.ticks[t := Enqueued(s.ticks[t].schedule, s.nextScan)] else s.ticks - {t}
    case TickRecord(t) => s.ticks - {t}
    case WorkerStep(step) => if step.Restart? then map[] else s.ticks
    case _ => s.ticks
  }

  ghost function NextOrigin(s: State, a: Action): map<ScanId, ScheduleId>
    requires Enabled(s, a)
  {
    if a.TickCreate? then s.origin[s.nextScan := s.ticks[a.tick].schedule] else s.origin
  }

  ghost function Apply(s: State, a: Action): State
    requires Enabled(s, a)
  {
    State(NextWorker(s, a),
          NextScans(s, a),
          if MakesScan(a) then s.nextScan + 1 else s.nextScan,
          NextRefs(s, a),
          NextPhases(s, a),
          NextSchedules(s, a),
          if a.AddSchedule? then s.nextSchedule + 1 else s.nextSchedule,
          NextTicks(s, a),
          if a.CallScan? then s.reached + {s.refs[JobOf(s, a.w)]} else s.reached,
          NextOrigin(s, a),
          s.disturbed || Disturbs(a))
  }

  function Initial(n: nat): State {
    State(W.Initial(n), map[], 0, map[], map[], map[], 0, map[], {}, map[], false)
  }

  ghost predicate CanRun(s: State, actions: seq<Action>)
    decreases |actions|
  {
    actions != [] ==> Enabled(s, actions[0]) && CanRun(Apply(s, actions[0]), actions[1..])
  }

  ghost function Run(s: State, actions: seq<Action>): State
    requires CanRun(s, actions)
    decreases |actions|
  {
    if actions == [] then s else Run(Apply(s, actions[0]), actions[1..])
  }

  /** One step more at the end of a run. */
  lemma {:induction false} RunMore(s: State, actions: seq<Action>, a: Action)
    requires CanRun(s, actions) && Enabled(Run(s, actions), a)
    ensures CanRun(s, actions + [a]) && Run(s, actions + [a]) == Apply(Run(s, actions), a)
    decreases |actions|
  {
    if actions == [] {
      assert [] + [a] == [a] && [a][1..] == [];
    } else {
      assert (actions + [a])[0] == actions[0] && (actions + [a])[1..] == actions[1..] + [a];
      RunMore(Apply(s, actions[0]), actions[1..], a);
    }
  }

  // ------------------------------------------------------------------- invariants

  /** Every step of this system is a few steps of the worker's. */
  lemma WorkerInvStep(s: State, a: Action)
    requires W.Inv(s.worker) && Enabled(s, a)
    ensures W.Inv(Apply(s, a).worker)
  {
    match a
    case ManualScan(result, wrote) => EnqueueKeepsInv(s, result, wrote);
    case TickCreate(_, result, wrote) => EnqueueKeepsInv(s, result, wrote);
    case WorkerStep(step) => W.InvStep(s.worker, step);
    case ReturnScan(w, outcome) => W.InvStep(s.worker, W.Return(w, outcome));
    case CancelScan(_, job) =>
      if job.Some? {
        W.InvStep(s.worker, W.Cancel(job.value));
      }
    case _ =>
  }

  lemma EnqueueKeepsInv(s: State, result: W.EnqueueResult, wrote: bool)
    requires W.Inv(s.worker) && W.CanEnqueue(s.worker, result)
    ensures W.Inv(W.EnqueueSteps(s.worker, result, wrote))
  {
    if result.NotCreated? {
      return;
    }
    var made := W.Apply(s.worker, W.Create);
    W.InvStep(s.worker, W.Create);
    W.InvStep(made, if result.Accepted? then W.Send(s.worker.nextId) else W.Refuse(s.worker.nextId, wrote));
  }

  /** Worker w holds the job and its task has not looked at the scan's row yet. */
  predicate HoldsFresh(s: State, w: W.WorkerId, id: W.JobId) {
    W.Holds(s.worker, w, id) &&
    match s.worker.workers[w]
    case Received(_) => true
    case Registered(_) => true
    case Marked(_) => true
    case Started(_) => id !in s.phases
    case _ => false
  }

  ghost predicate Fresh(s: State, id: W.JobId) {
    id in s.worker.queue || exists w: W.WorkerId :: HoldsFresh(s, w, id)
  }

  ghost predicate HasTask(s: State, id: W.JobId) {
    exists w: W.WorkerId :: InTask(s, w) && s.worker.workers[w].id == id
  }

  /** What a scan job's progress says about its scan's row. */
  ghost predicate JobInv(s: State, id: W.JobId)
    requires id in s.refs
  {
    && id < s.worker.nextId && id !in s.worker.sending && s.refs[id] in s.scans
    && var row := s.scans[s.refs[id]];
    && (Fresh(s, id) ==> row == Queued || row == Canceled)
    && (id in s.phases ==>
          && HasTask(s, id)
          && (s.phases[id].Ended? ==> !Active(row))
          && (!s.phases[id].Ended? ==> row == Running))
  }

  ghost predicate ScanInv(s: State) {
    && (forall id :: id in s.refs ==> id < s.worker.nextId && s.refs[id] < s.nextScan)
    && (forall id :: id in s.refs ==> JobInv(s, id))
    && (forall i, j :: i in s.refs && j in s.refs && s.refs[i] == s.refs[j] ==> i == j)
    && (forall x: ScanId :: x in s.scans <==> x < s.nextScan)
    && s.phases.Keys <= s.refs.Keys
    && s.reached <= s.scans.Keys
  }

  ghost predicate Inv(s: State) {
    W.Inv(s.worker) && ScanInv(s)
  }

  /** Steps in which no worker moves and no job leaves the queue. */
  predicate WorkersStay(a: Action) {
    !a.WorkerStep? && !a.ReturnScan?
  }

  lemma WorkersAfter(s: State, a: Action)
    requires Enabled(s, a) && WorkersStay(a)
    ensures var next := Apply(s, a);
            && next.worker.workers == s.worker.workers
            && next.worker.rows.Keys >= s.worker.rows.Keys
            && next.worker.sending == s.worker.sending - (if MakesJob(a) then {s.worker.nextId} else {})
            && next.worker.nextId == s.worker.nextId + (if MakesJob(a) then 1 else 0)
            && next.worker.queue == s.worker.queue + (if MakesScan(a) && a.result.Accepted? then [s.worker.nextId] else [])
            && next.worker.stopped == s.worker.stopped
  {
  }

  lemma FreshBeforeWorker(s: State, step: W.Action, id: W.JobId)
    requires W.PlaceInv(s.worker) && Enabled(s, WorkerStep(step)) && id !in s.worker.sending
    requires Fresh(Apply(s, WorkerStep(step)), id)
    ensures Fresh(s, id)
  {
    var next := Apply(s, WorkerStep(step));
    if !step.Restart? {
      W.HoldsAfter(s.worker, step);
    }
    if id !in next.worker.queue {
      var w: W.WorkerId :| HoldsFresh(next, w, id);
      if id !in s.worker.queue {
        assert HoldsFresh(s, w, id);
      }
    }
  }

  lemma FreshBeforeReturn(s: State, w: W.WorkerId, outcome: W.Outcome, id: W.JobId)
    requires W.PlaceInv(s.worker) && Enabled(s, ReturnScan(w, outcome))
    requires Fresh(Apply(s, ReturnScan(w, outcome)), id)
    ensures Fresh(s, id)
  {
    var next := Apply(s, ReturnScan(w, outcome));
    W.HoldsAfter(s.worker, W.Return(w, outcome));
    assert W.Holds(s.worker, w, s.worker.workers[w].id);
    if id !in next.worker.queue {
      var v: W.WorkerId :| HoldsFresh(next, v, id);
      assert HoldsFresh(s, v, id);
    }
  }

  lemma FreshBeforeOther(s: State, a: Action, id: W.JobId)
    requires W.PlaceInv(s.worker) && Enabled(s, a) && WorkersStay(a) && id < s.worker.nextId
    requires Fresh(Apply(s, a), id)
    ensures Fresh(s, id)
    ensures a.CheckAndStart? ==> s.worker.workers[a.w].id != id
  {
    var next := Apply(s, a);
    WorkersAfter(s, a);
    if a.CheckAndStart? {
      assert W.Holds(s.worker, a.w, s.worker.workers[a.w].id);
    }
    if id !in next.worker.queue {
      var w: W.WorkerId :| HoldsFresh(next, w, id);
      HeldFreshBefore(s, a, w, id);
    }
  }

  lemma HeldFreshBefore(s: State, a: Action, w: W.WorkerId, id: W.JobId)
    requires Enabled(s, a) && WorkersStay(a) && HoldsFresh(Apply(s, a), w, id)
    ensures HoldsFresh(s, w, id)
  {
    WorkersAfter(s, a);
  }

  /** A job that is fresh after a step was fresh before it. */
  lemma FreshBefore(s: State, a: Action, id: W.JobId)
    requires W.PlaceInv(s.worker) && Enabled(s, a) && id < s.worker.nextId && id !in s.worker.sending
    requires Fresh(Apply(s, a), id)
    ensures Fresh(s, id)
    ensures a.CheckAndStart? ==> s.worker.workers[a.w].id != id
  {
    if a.WorkerStep? {
      FreshBeforeWorker(s, a.step, id);
    } else if a.ReturnScan? {
      FreshBeforeReturn(s, a.w, a.outcome, id);
    } else {
      FreshBeforeOther(s, a, id);
    }
  }

  lemma WorkerTaskStays(s: State, step: W.Action, w: W.WorkerId)
    requires Enabled(s, WorkerStep(step)) && InTask(s, w) && !step.Restart?
    ensures var worker := Apply(s, WorkerStep(step)).worker;
            W.At(worker, w) && worker.workers[w] == s.worker.workers[w]
  {
  }

  lemma ReturnTaskStays(s: State, v: W.WorkerId, outcome: W.Outcome, w: W.WorkerId)
    requires Enabled(s, ReturnScan(v, outcome)) && InTask(s, w) && v != w
    ensures var worker := Apply(s, ReturnScan(v, outcome)).worker;
            W.At(worker, w) && worker.workers[w] == s.worker.workers[w]
  {
  }

  lemma OtherTaskStays(s: State, a: Action, w: W.WorkerId)
    requires Enabled(s, a) && InTask(s, w)
    requires a.ReturnScan? ==> a.w != w
    requires a.WorkerStep? ==> !a.step.Restart?
    ensures W.At(Apply(s, a).worker, w) && Apply(s, a).worker.workers[w] == s.worker.workers[w]
  {
    match a
    case WorkerStep(step) => WorkerTaskStays(s, step, w);
    case ReturnScan(v, outcome) => ReturnTaskStays(s, v, outcome, w);
    case _ => WorkersAfter(s, a);
  }

  /** The worker is still inside the body of a job that keeps its phase. */
  lemma TaskStays(s: State, a: Action, id: W.JobId)
    requires W.PlaceInv(s.worker) && Enabled(s, a)
    requires id in s.refs && id in s.phases && id in Apply(s, a).phases && HasTask(s, id)
    ensures HasTask(Apply(s, a), id)
  {
    var next := Apply(s, a);
    var w: W.WorkerId :| InTask(s, w) && s.worker.workers[w].id == id;
    OtherTaskStays(s, a, w);
    RefsStep(s, a);
    assert InTask(next, w) && next.worker.workers[w].id == id;
  }

  /** The job of a scan that is made: queued with a queued row, or refused with an ended one. */
  lemma NewJobInv(s: State, a: Action)
    requires W.PlaceInv(s.worker) && Enabled(s, a) && MakesJob(a)
    requires s.worker.nextId !in s.phases
    ensures s.worker.nextId in Apply(s, a).refs && JobInv(Apply(s, a), s.worker.nextId)
  {
    var next, id := Apply(s, a), s.worker.nextId;
    WorkersAfter(s, a);
    if !a.result.Accepted? && Fresh(next, id) {
      assert id !in next.worker.queue;
      var w: W.WorkerId :| HoldsFresh(next, w, id);
      assert W.Holds(s.worker, w, id);
    }
  }

  lemma CheckedJob(s: State, w: W.WorkerId)
    requires Enabled(s, CheckAndStart(w))
    ensures HasTask(Apply(s, CheckAndStart(w)), s.worker.workers[w].id)
    ensures Fresh(s, s.worker.workers[w].id)
  {
    var next, id := Apply(s, CheckAndStart(w)), s.worker.workers[w].id;
    assert InTask(next, w) && next.worker.workers[w].id == id;
    assert HoldsFresh(s, w, id);
  }

  /** A step of another job, or of none, leaves a scan's row alone, except to cancel it while queued. */
  lemma RowAfter(s: State, a: Action, x: ScanId)
    requires Inv(s) && Enabled(s, a) && x in s.scans
    ensures x in Apply(s, a).scans
    ensures Apply(s, a).scans[x] == s.scans[x] || (a.CancelScan? && a.scan == x && s.scans[x] == Queued && Apply(s, a).scans[x] == Canceled)
            || ((a.CheckAndStart? || a.FinishScan?) && s.refs[s.worker.workers[a.w].id] == x)
  {
  }

  lemma JobPlaceStep(s: State, a: Action, id: W.JobId)
    requires Enabled(s, a) && id < s.worker.nextId && id !in s.worker.sending
    ensures id < Apply(s, a).worker.nextId && id !in Apply(s, a).worker.sending
  {
    if a.WorkerStep? {
      W.IdsAfter(s.worker, a.step);
    } else if a.ReturnScan? {
      W.IdsAfter(s.worker, W.Return(a.w, a.outcome));
    } else {
      WorkersAfter(s, a);
    }
  }

  lemma RefsKept(s: State, a: Action, id: W.JobId)
    requires ScanInv(s) && Enabled(s, a) && id in s.refs
    ensures id in Apply(s, a).refs && Apply(s, a).refs[id] == s.refs[id]
  {
  }

  lemma FreshRowStep(s: State, a: Action, id: W.JobId)
    requires Inv(s) && Enabled(s, a) && id in s.refs && Fresh(Apply(s, a), id)
    ensures s.refs[id] in Apply(s, a).scans
    ensures Apply(s, a).scans[s.refs[id]] == Queued || Apply(s, a).scans[s.refs[id]] == Canceled
  {
    assert JobInv(s, id);
    FreshBefore(s, a, id);
    RowAfter(s, a, s.refs[id]);
    if a.FinishScan? && s.worker.workers[a.w].id == id {
      assert s.phases[id] == InScan;
    }
  }

  /** What the job's phase says about the row. */
  predicate PhaseRow(s: State, id: W.JobId) {
    && id in s.phases && id in s.refs && s.refs[id] in s.scans
    && if s.phases[id].Ended? then !Active(s.scans[s.refs[id]]) else s.scans[s.refs[id]] == Running
  }

  lemma OwnPhaseStep(s: State, a: Action)
    requires Inv(s) && Enabled(s, a) && (a.CheckAndStart? || a.CallScan? || a.FinishScan?)
    ensures PhaseRow(Apply(s, a), s.worker.workers[a.w].id)
  {
    assert JobInv(s, s.worker.workers[a.w].id);
  }

  lemma PhaseAfter(s: State, a: Action, id: W.JobId)
    requires Enabled(s, a) && id in Apply(s, a).phases
    requires InTaskAction(a) ==> s.worker.workers[a.w].id != id
    ensures id in s.phases && Apply(s, a).phases[id] == s.phases[id]
  {
  }

  lemma OtherPhaseStep(s: State, a: Action, id: W.JobId)
    requires Inv(s) && Enabled(s, a) && id in s.refs && id in Apply(s, a).phases
    requires InTaskAction(a) ==> s.worker.workers[a.w].id != id
    ensures PhaseRow(Apply(s, a), id)
  {
    assert JobInv(s, id);
    PhaseAfter(s, a, id);
    RefsKept(s, a, id);
    RowAfter(s, a, s.refs[id]);
  }

  lemma PhaseTaskStep(s: State, a: Action, id: W.JobId)
    requires W.PlaceInv(s.worker) && Enabled(s, a) && id in s.refs && JobInv(s, id) && id in Apply(s, a).phases
    ensures HasTask(Apply(s, a), id)
  {
    if id in s.phases {
      TaskStays(s, a, id);
    } else {
      CheckedJob(s, a.w);
    }
  }

  lemma PhaseRowStep(s: State, a: Action, id: W.JobId)
    requires Inv(s) && Enabled(s, a) && id in s.refs && id in Apply(s, a).phases
    ensures PhaseRow(Apply(s, a), id)
  {
    if InTaskAction(a) && s.worker.workers[a.w].id == id {
      OwnPhaseStep(s, a);
    } else {
      OtherPhaseStep(s, a, id);
    }
  }

  lemma JobInvStep(s: State, a: Action, id: W.JobId)
    requires Inv(s) && Enabled(s, a) && id in s.refs
    ensures id in Apply(s, a).refs && JobInv(Apply(s, a), id)
  {
    RefsKept(s, a, id);
    assert JobInv(s, id);
    JobPlaceStep(s, a, id);
    RowAfter(s, a, s.refs[id]);
    if Fresh(Apply(s, a), id) {
      FreshRowStep(s, a, id);
    }
    if id in Apply(s, a).phases {
      PhaseTaskStep(s, a, id);
      PhaseRowStep(s, a, id);
    }
  }

  lemma RefsStep(s: State, a: Action)
    requires Enabled(s, a)
    ensures Apply(s, a).refs == if MakesJob(a) then s.refs[s.worker.nextId := s.nextScan] else s.refs
    ensures Apply(s, a).nextScan == if MakesScan(a) then s.nextScan + 1 else s.nextScan
  {
  }

  /** Which rows exist after a step. */
  lemma ScanKeysAfter(s: State, a: Action)
    requires Enabled(s, a)
    requires a.CheckAndStart? || a.FinishScan? ==> s.refs[s.worker.workers[a.w].id] in s.scans
    ensures Apply(s, a).scans.Keys == if MakesScan(a) then s.scans.Keys + {s.nextScan} else s.scans.Keys
  {
  }

  lemma ScanIdsStep(s: State, a: Action)
    requires Inv(s) && Enabled(s, a)
    ensures forall x: ScanId :: x in Apply(s, a).scans <==> x < Apply(s, a).nextScan
    ensures s.scans.Keys <= Apply(s, a).scans.Keys
  {
    if a.CheckAndStart? || a.FinishScan? {
      assert JobInv(s, s.worker.workers[a.w].id);
    }
    ScanKeysAfter(s, a);
    RefsStep(s, a);
    assert forall x: ScanId :: x in Apply(s, a).scans <==> x in Apply(s, a).scans.Keys;
  }

  lemma PhaseKeysStep(s: State, a: Action)
    requires s.phases.Keys <= s.refs.Keys && s.reached <= s.scans.Keys && Enabled(s, a)
    requires a.CallScan? ==> s.refs[s.worker.workers[a.w].id] in s.scans
    ensures Apply(s, a).phases.Keys <= s.refs.Keys
    ensures Apply(s, a).reached <= s.scans.Keys
  {
  }

  lemma JobsStep(s: State, a: Action, id: W.JobId)
    requires Inv(s) && Enabled(s, a) && id in Apply(s, a).refs
    ensures id < Apply(s, a).worker.nextId && JobInv(Apply(s, a), id)
  {
    RefsStep(s, a);
    if id in s.refs {
      JobInvStep(s, a, id);
    } else {
      NewJobInv(s, a);
    }
  }

  lemma ScanInvStep(s: State, a: Action)
    requires Inv(s) && Enabled(s, a)
    ensures ScanInv(Apply(s, a))
  {
    RefsStep(s, a);
    ScanIdsStep(s, a);
    if a.CallScan? {
      assert JobInv(s, s.worker.workers[a.w].id);
    }
    PhaseKeysStep(s, a);
    forall id | id in Apply(s, a).refs
      ensures id < Apply(s, a).worker.nextId && JobInv(Apply(s, a), id)
    {
      JobsStep(s, a, id);
    }
  }

  lemma InvStep(s: State, a: Action)
    requires Inv(s) && Enabled(s, a)
    ensures Inv(Apply(s, a))
  {
    WorkerInvStep(s, a);
    ScanInvStep(s, a);
  }

  lemma InitialInv(n: nat)
    requires n >= 1
    ensures Inv(Initial(n))
  {
    W.InitialInv(n);
  }

  lemma {:induction false} InvHolds(s: State, actions: seq<Action>)
    requires Inv(s) && CanRun(s, actions)
    ensures Inv(Run(s, actions))
    decreases |actions|
  {
    if actions != [] {
      InvStep(s, actions[0]);
      InvHolds(Apply(s, actions[0]), actions[1..]);
    }
  }

  /** Whether a job is fresh or has a task depends on the job queue and the phases only. */
  lemma SamePlaces(s: State, next: State, id: W.JobId)
    requires next.worker == s.worker && next.phases == s.phases && next.refs == s.refs
    ensures Fresh(next, id) <==> Fresh(s, id)
    ensures HasTask(next, id) <==> HasTask(s, id)
  {
    if w: W.WorkerId :| HoldsFresh(next, w, id) {
      assert HoldsFresh(s, w, id);
    }
    if w: W.WorkerId :| HoldsFresh(s, w, id) {
      assert HoldsFresh(next, w, id);
    }
    if w: W.WorkerId :| InTask(next, w) && next.worker.workers[w].id == id {
      assert InTask(s, w);
    }
    if w: W.WorkerId :| InTask(s, w) && s.worker.workers[w].id == id {
      assert InTask(next, w);
    }
  }

  // ------------------------------------------------------------ the scan's own status

  lemma TerminalStep(s: State, a: Action, x: ScanId)
    requires Inv(s) && Enabled(s, a) && x in s.scans && !Active(s.scans[x])
    ensures x in Apply(s, a).scans && Apply(s, a).scans[x] == s.scans[x]
  {
    RowAfter(s, a, x);
    if a.CheckAndStart? || a.FinishScan? {
      assert JobInv(s, s.worker.workers[a.w].id);
      if a.CheckAndStart? {
        CheckedJob(s, a.w);
      }
    }
  }

  lemma ReachedStep(s: State, a: Action, x: ScanId)
    requires Inv(s) && Enabled(s, a) && x in s.scans && s.scans[x] == Canceled && x !in s.reached
    ensures x !in Apply(s, a).reached
  {
    if a.CallScan? {
      assert JobInv(s, s.worker.workers[a.w].id);
    }
  }

  /** A scan's terminal status is absorbing, over every run; a scan canceled while queued never reaches the scanner. */
  lemma {:induction false} TerminalStatusStays(s: State, actions: seq<Action>, x: ScanId)
    requires Inv(s) && CanRun(s, actions) && x in s.scans && !Active(s.scans[x])
    ensures x in Run(s, actions).scans && Run(s, actions).scans[x] == s.scans[x]
    ensures s.scans[x] == Canceled && x !in s.reached ==> x !in Run(s, actions).reached
    decreases |actions|
  {
    if actions != [] {
      InvStep(s, actions[0]);
      TerminalStep(s, actions[0], x);
      if s.scans[x] == Canceled && x !in s.reached {
        ReachedStep(s, actions[0], x);
      }
      TerminalStatusStays(Apply(s, actions[0]), actions[1..], x);
    }
  }

  lemma CancelHoldsFrom(s: State, x: ScanId, job: Option<W.JobId>, later: seq<Action>)
    requires Inv(s) && Enabled(s, CancelScan(x, job)) && s.scans[x] == Queued && x !in s.reached
    requires CanRun(Apply(s, CancelScan(x, job)), later)
    ensures var end := Run(Apply(s, CancelScan(x, job)), later);
            x in end.scans && end.scans[x] == Canceled && x !in end.reached
  {
    InvStep(s, CancelScan(x, job));
    TerminalStatusStays(Apply(s, CancelScan(x, job)), later, x);
  }

  /** Canceling a queued scan, in any reachable state, keeps it from the scanner for good. */
  lemma CanceledScanNeverRuns(n: nat, before: seq<Action>, x: ScanId, job: Option<W.JobId>, later: seq<Action>)
    requires n >= 1 && CanRun(Initial(n), before)
    requires var s := Run(Initial(n), before);
             && Enabled(s, CancelScan(x, job)) && s.scans[x] == Queued && x !in s.reached
             && CanRun(Apply(s, CancelScan(x, job)), later)
    ensures var end := Run(Apply(Run(Initial(n), before), CancelScan(x, job)), later);
            x in end.scans && end.scans[x] == Canceled && x !in end.reached
  {
    InitialInv(n);
    InvHolds(Initial(n), before);
    CancelHoldsFrom(Run(Initial(n), before), x, job, later);
  }

  // -------------------------------------------------------- every active scan has a job

  /** The job's task is still to end: waiting, or running and not past its last row update. */
  ghost predicate Ahead(s: State, id: W.JobId) {
    Fresh(s, id) || (id in s.phases && !s.phases[id].Ended?)
  }

  /** No job will update the scan's row any more. */
  ghost predicate Unattended(s: State, x: ScanId) {
    forall id :: id in s.refs && s.refs[id] == x ==> !Ahead(s, id)
  }

  /** A running scan is in the hands of a task that will still update its row. */
  ghost predicate HeldByTask(s: State, x: ScanId) {
    exists id :: id in s.phases && id in s.refs && s.refs[id] == x && !s.phases[id].Ended?
  }

  ghost predicate HasJob(s: State, x: ScanId) {
    exists id :: id in s.refs && s.refs[id] == x && Ahead(s, id)
  }

  ghost predicate CalmInv(s: State) {
    && (s.worker.stopped ==> s.disturbed)
    && (!s.disturbed ==> forall x :: x in s.scans && Active(s.scans[x]) ==> HasJob(s, x))
  }

  lemma QueuedWorkerStep(s: State, step: W.Action, id: W.JobId)
    requires W.PlaceInv(s.worker) && Enabled(s, WorkerStep(step)) && id in s.worker.queue && !step.Restart?
    ensures Fresh(Apply(s, WorkerStep(step)), id)
  {
    var next := Apply(s, WorkerStep(step));
    if step.Receive? && id == s.worker.queue[0] {
      assert HoldsFresh(next, step.w, id);
    } else {
      assert id in next.worker.queue;
    }
  }

  lemma HeldWorkerStep(s: State, step: W.Action, w: W.WorkerId, id: W.JobId)
    requires Enabled(s, WorkerStep(step)) && HoldsFresh(s, w, id) && !step.Restart?
    requires id in s.refs && (id in s.phases ==> s.worker.workers[w].Started?)
    ensures Fresh(Apply(s, WorkerStep(step)), id)
  {
    assert HoldsFresh(Apply(s, WorkerStep(step)), w, id);
  }

  lemma FreshWorkerStep(s: State, step: W.Action, id: W.JobId)
    requires Inv(s) && Enabled(s, WorkerStep(step)) && id in s.refs && Fresh(s, id) && !step.Restart?
    ensures Fresh(Apply(s, WorkerStep(step)), id)
  {
    if id in s.worker.queue {
      QueuedWorkerStep(s, step, id);
    } else {
      var w: W.WorkerId :| HoldsFresh(s, w, id);
      assert JobInv(s, id);
      if id in s.phases {
        var v: W.WorkerId :| InTask(s, v) && s.worker.workers[v].id == id;
        assert W.Holds(s.worker, v, id);
      }
      HeldWorkerStep(s, step, w, id);
    }
  }

  lemma FreshOtherStep(s: State, a: Action, id: W.JobId)
    requires Inv(s) && Enabled(s, a) && id in s.refs && Fresh(s, id) && !a.WorkerStep?
    requires InTaskAction(a) ==> s.worker.workers[a.w].id != id
    ensures Fresh(Apply(s, a), id)
  {
    var next := Apply(s, a);
    if a.ReturnScan? {
      W.HoldsAfter(s.worker, W.Return(a.w, a.outcome));
    } else {
      WorkersAfter(s, a);
    }
    if id !in s.worker.queue {
      var w: W.WorkerId :| HoldsFresh(s, w, id);
      if a.ReturnScan? {
        assert W.Holds(s.worker, a.w, s.worker.workers[a.w].id);
      }
      assert HoldsFresh(next, w, id);
    }
  }

  /** A job's own task step leaves it ahead, or its row ended. */
  lemma OwnAheadStep(s: State, a: Action)
    requires Inv(s) && Enabled(s, a) && (a.CheckAndStart? || a.CallScan? || a.FinishScan?)
    ensures var id := s.worker.workers[a.w].id;
            Ahead(Apply(s, a), id) || (s.refs[id] in Apply(s, a).scans && !Active(Apply(s, a).scans[s.refs[id]]))
  {
    assert JobInv(s, s.worker.workers[a.w].id);
  }

  /** A task returns only after its last row update, unless it panics. */
  lemma ReturnNotAhead(s: State, w: W.WorkerId, outcome: W.Outcome)
    requires W.PlaceInv(s.worker) && Enabled(s, ReturnScan(w, outcome)) && outcome != W.Panics
    ensures !Ahead(s, s.worker.workers[w].id)
  {
    var id := s.worker.workers[w].id;
    assert W.Holds(s.worker, w, id);
    forall v: W.WorkerId
      ensures !HoldsFresh(s, v, id)
    {
    }
  }

  lemma AheadStep(s: State, a: Action, id: W.JobId)
    requires Inv(s) && Enabled(s, a) && id in s.refs && Ahead(s, id)
    requires !(a.WorkerStep? && a.step.Restart?) && !(a.ReturnScan? && a.outcome == W.Panics)
    ensures Ahead(Apply(s, a), id) || (s.refs[id] in Apply(s, a).scans && !Active(Apply(s, a).scans[s.refs[id]]))
  {
    if a.ReturnScan? {
      ReturnNotAhead(s, a.w, a.outcome);
    }
    if InTaskAction(a) && !a.ReturnScan? && s.worker.workers[a.w].id == id {
      OwnAheadStep(s, a);
    } else if Fresh(s, id) {
      if a.WorkerStep? {
        FreshWorkerStep(s, a.step, id);
      } else {
        FreshOtherStep(s, a, id);
      }
    } else {
      PhaseStays(s, a, id);
    }
  }

  lemma PhaseStays(s: State, a: Action, id: W.JobId)
    requires Enabled(s, a) && id in s.phases
    requires InTaskAction(a) ==> s.worker.workers[a.w].id != id
    requires !(a.WorkerStep? && a.step.Restart?)
    ensures id in Apply(s, a).phases && Apply(s, a).phases[id] == s.phases[id]
  {
  }

  lemma DisturbedStays(s: State, a: Action)
    requires Enabled(s, a) && (s.worker.stopped ==> s.disturbed)
    ensures s.disturbed ==> Apply(s, a).disturbed
    ensures Apply(s, a).worker.stopped ==> Apply(s, a).disturbed
    ensures a.WorkerStep? && a.step.Restart? ==> Apply(s, a).disturbed
    ensures a.ReturnScan? && a.outcome == W.Panics ==> Apply(s, a).disturbed
  {
    if a.WorkerStep? {
      W.StoppedAfter(s.worker, a.step);
    } else if !a.ReturnScan? {
      WorkersAfter(s, a);
    }
  }

  lemma NewScanHasJob(s: State, a: Action)
    requires Inv(s) && Enabled(s, a) && MakesScan(a) && a.result.Accepted?
    ensures HasJob(Apply(s, a), s.nextScan)
  {
    var next, id := Apply(s, a), s.worker.nextId;
    WorkersAfter(s, a);
    RefsStep(s, a);
    assert id in next.worker.queue;
    assert id in next.refs && next.refs[id] == s.nextScan && Ahead(next, id);
  }

  lemma NewRows(s: State, a: Action, x: ScanId)
    requires Enabled(s, a) && x in Apply(s, a).scans && x !in s.scans
    requires a.CheckAndStart? || a.FinishScan? ==> s.refs[s.worker.workers[a.w].id] in s.scans
    ensures MakesScan(a) && x == s.nextScan
    ensures Apply(s, a).scans[x] == if a.result.Accepted? then Queued else Error
  {
  }

  /** Which rows a step can make active: only a new one. */
  lemma ActiveBefore(s: State, a: Action, x: ScanId)
    requires Inv(s) && Enabled(s, a) && x in Apply(s, a).scans && Active(Apply(s, a).scans[x])
    ensures (x in s.scans && Active(s.scans[x])) || (MakesScan(a) && a.result.Accepted? && x == s.nextScan)
  {
    if a.CheckAndStart? || a.FinishScan? {
      assert JobInv(s, s.worker.workers[a.w].id);
    }
    if x in s.scans {
      if !Active(s.scans[x]) {
        TerminalStep(s, a, x);
      }
    } else {
      NewRows(s, a, x);
    }
  }

  lemma CalmStep(s: State, a: Action)
    requires Inv(s) && CalmInv(s) && Enabled(s, a)
    ensures CalmInv(Apply(s, a))
  {
    var next := Apply(s, a);
    DisturbedStays(s, a);
    if !next.disturbed {
      forall x | x in next.scans && Active(next.scans[x])
        ensures HasJob(next, x)
      {
        ActiveBefore(s, a, x);
        if x in s.scans && Active(s.scans[x]) {
          assert HasJob(s, x);
          var id :| id in s.refs && s.refs[id] == x && Ahead(s, id);
          AheadStep(s, a, id);
          RefsKept(s, a, id);
        } else {
          NewScanHasJob(s, a);
        }
      }
    }
  }

  lemma {:induction false} CalmHolds(s: State, actions: seq<Action>)
    requires Inv(s) && CalmInv(s) && CanRun(s, actions)
    ensures Inv(Run(s, actions)) && CalmInv(Run(s, actions))
    decreases |actions|
  {
    if actions != [] {
      InvStep(s, actions[0]);
      CalmStep(s, actions[0]);
      CalmHolds(Apply(s, actions[0]), actions[1..]);
    }
  }

  /** A job that is ahead after a step was ahead before it, or is new. */
  lemma AheadBefore(s: State, a: Action, id: W.JobId)
    requires Inv(s) && Enabled(s, a) && id in s.refs && Ahead(Apply(s, a), id)
    ensures Ahead(s, id)
  {
    assert JobInv(s, id);
    if Fresh(Apply(s, a), id) {
      FreshBefore(s, a, id);
    } else if InTaskAction(a) && s.worker.workers[a.w].id == id {
      if a.CheckAndStart? {
        CheckedJob(s, a.w);
      }
    } else {
      PhaseAfter(s, a, id);
    }
  }

  lemma AheadIsLive(s: State, id: W.JobId)
    requires Inv(s) && id in s.refs && Ahead(s, id)
    ensures W.Live(s.worker, id)
  {
    assert JobInv(s, id);
    if !Fresh(s, id) {
      var w: W.WorkerId :| InTask(s, w) && s.worker.workers[w].id == id;
      assert W.Holds(s.worker, w, id) && !s.worker.workers[w].Finished?;
    } else if id !in s.worker.queue {
      var w: W.WorkerId :| HoldsFresh(s, w, id);
      assert W.Holds(s.worker, w, id) && !s.worker.workers[w].Finished?;
    }
  }

  /**
   Within one process life, before any shutdown and without task panics, every queued or
   running scan has exactly one job, and that job is waiting or being run.
   */
  lemma ActiveScanHasOneJob(n: nat, actions: seq<Action>, x: ScanId) returns (id: W.JobId)
    requires n >= 1 && CanRun(Initial(n), actions) && !Run(Initial(n), actions).disturbed
    requires x in Run(Initial(n), actions).scans && Active(Run(Initial(n), actions).scans[x])
    ensures var s := Run(Initial(n), actions);
            && id in s.refs && s.refs[id] == x && W.Live(s.worker, id) && Ahead(s, id)
            && forall other :: other in s.refs && s.refs[other] == x ==> other == id
  {
    InitialInv(n);
    CalmHolds(Initial(n), actions);
    var s := Run(Initial(n), actions);
    assert HasJob(s, x);
    id :| id in s.refs && s.refs[id] == x && Ahead(s, id);
    AheadIsLive(s, id);
  }
}
