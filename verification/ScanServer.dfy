/**
 The scan and schedule handlers as the object they belong to, on top of the job manager and the
 tables. Each method changes the tables step by step and is proved to be the steps of Scans, taken
 without another goroutine in between.
 */
module ScanServer {
  import opened Wrappers
  import opened Paths
  import S = Scans
  import C = Schedules
  import F = FineSteps
  import W = Worker

  datatype Reply = Accepted | BadRequest | NotFound | Conflict | Unavailable | InternalError

  /** The body of a scan job from its look at the row to its last row update. */
  ghost function ScanTask(s: S.State, w: W.WorkerId, status: S.Status): S.State
    requires S.InTask(s, w) && s.worker.workers[w].id !in s.phases && !S.Active(status)
  {
    var started := S.Apply(s, S.CheckAndStart(w));
    if S.InPhase(started, w, S.Preparing) then
      S.Apply(S.Apply(started, S.CallScan(w)), S.FinishScan(w, status))
    else started
  }

  /** A look at the row that fails, and the start that follows. */
  ghost function BlindlyStarted(s: S.State, w: W.WorkerId): S.State
    requires S.InTask(s, w) && s.worker.workers[w].id !in s.phases
  {
    F.FineApply(F.FineApply(F.FineState(s, map[], {}, map[]), F.CheckScan(w, false)), F.StartScan(w)).base
  }

  /** The same when the row cannot be read: it starts whatever the row says. */
  ghost function BlindScanTask(s: S.State, w: W.WorkerId, status: S.Status): S.State
    requires S.InTask(s, w) && s.worker.workers[w].id !in s.phases && !S.Active(status)
  {
    var started := BlindlyStarted(s, w);
    S.Apply(S.Apply(started, S.CallScan(w)), S.FinishScan(w, status))
  }

  /** The part of a schedule's run after its check: create, enqueue and record, if that succeeds. */
  ghost function CheckedRun(s: S.State, t: S.TickId, result: W.EnqueueResult, wrote: bool, recorded: bool): S.State
    requires t in s.ticks && s.ticks[t].Checked? && W.CanEnqueue(s.worker, result)
  {
    var made := S.Apply(s, S.TickCreate(t, result, wrote));
    if t in made.ticks then C.StepApply(made, if recorded then C.Plain(S.TickRecord(t)) else C.LoseRecord(t)) else made
  }

  function BeginStep(t: S.TickId, k: S.ScheduleId, readable: bool): C.Step {
    if readable then C.Plain(S.TickBegin(t, k)) else C.BlindBegin(t, k)
  }

  /** One run of a schedule: skipped while its last scan is unfinished, unless that scan cannot be read. */
  ghost function ScheduleRun(s: S.State, t: S.TickId, k: S.ScheduleId, readable: bool, result: W.EnqueueResult, wrote: bool,
                             recorded: bool): S.State
    requires t !in s.ticks && k in s.schedules && W.CanEnqueue(s.worker, result)
  {
    var begun := C.StepApply(s, BeginStep(t, k, readable));
    if t in begun.ticks then CheckedRun(begun, t, result, wrote, recorded) else begun
  }

  lemma CanceledScanTask(s: S.State, w: W.WorkerId, status: S.Status, id: W.JobId, scan: S.ScanId)
    requires S.InTask(s, w) && s.worker.workers[w].id == id && id !in s.phases && !S.Active(status) && s.refs[id] == scan
    requires scan in s.scans && s.scans[scan] == S.Canceled
    ensures ScanTask(s, w, status) == s.(phases := s.phases[id := S.Ended(true)])
  {
    var started := S.Apply(s, S.CheckAndStart(w));
    assert started.phases[id] == S.Ended(true);
    assert !S.InPhase(started, w, S.Preparing);
  }

  lemma FullScanTask(s: S.State, w: W.WorkerId, status: S.Status, id: W.JobId, scan: S.ScanId)
    requires S.InTask(s, w) && s.worker.workers[w].id == id && id !in s.phases && !S.Active(status) && s.refs[id] == scan
    requires !(scan in s.scans && s.scans[scan] == S.Canceled)
    ensures ScanTask(s, w, status) ==
            s.(scans := s.scans[scan := status], phases := s.phases[id := S.Ended(status == S.Done)],
               reached := s.reached + {scan})
  {
    var started := S.Apply(s, S.CheckAndStart(w));
    assert started == s.(scans := s.scans[scan := S.Running], phases := s.phases[id := S.Preparing]);
    assert S.InPhase(started, w, S.Preparing);
    var scanning := S.Apply(started, S.CallScan(w));
    assert scanning == started.(phases := started.phases[id := S.InScan], reached := s.reached + {scan});
    assert S.InPhase(scanning, w, S.InScan);
    assert scanning.scans[scan := status] == s.scans[scan := status];
    assert scanning.phases[id := S.Ended(status == S.Done)] == s.phases[id := S.Ended(status == S.Done)];
  }

  lemma BlindScanTaskChanges(s: S.State, w: W.WorkerId, status: S.Status, id: W.JobId, scan: S.ScanId)
    requires S.InTask(s, w) && s.worker.workers[w].id == id && id !in s.phases && !S.Active(status) && s.refs[id] == scan
    ensures BlindScanTask(s, w, status) ==
            s.(scans := s.scans[scan := status], phases := s.phases[id := S.Ended(status == S.Done)],
               reached := s.reached + {scan})
  {
    var started := BlindlyStarted(s, w);
    assert started == s.(scans := s.scans[scan := S.Running], phases := s.phases[id := S.Preparing]);
    var scanning := S.Apply(started, S.CallScan(w));
    assert scanning == started.(phases := started.phases[id := S.InScan], reached := s.reached + {scan});
    assert scanning.scans[scan := status] == s.scans[scan := status];
    assert scanning.phases[id := S.Ended(status == S.Done)] == s.phases[id := S.Ended(status == S.Done)];
  }

  /** What a run of a schedule changes in all, past its check. */
  lemma ScheduleRunChanges(s: S.State, t: S.TickId, k: S.ScheduleId, readable: bool, result: W.EnqueueResult, wrote: bool,
                           recorded: bool)
    requires t !in s.ticks && k in s.schedules && W.CanEnqueue(s.worker, result) && !(readable && S.LastRunActive(s, k))
    ensures var made := S.Apply(s, S.ManualScan(result, wrote)).(origin := s.origin[s.nextScan := k]);
            ScheduleRun(s, t, k, readable, result, wrote, recorded) ==
            if result.Accepted? && recorded then made.(schedules := s.schedules[k := Some(s.nextScan)]) else made
  {
    var begun := s.(ticks := s.ticks[t := S.Checked(k)]);
    assert begun.ticks - {t} == s.ticks && begun.ticks[t := S.Enqueued(k, s.nextScan)] - {t} == s.ticks;
    CheckedRunChanges(begun, t, k, result, wrote, recorded);
  }

  lemma CheckedRunChanges(s: S.State, t: S.TickId, k: S.ScheduleId, result: W.EnqueueResult, wrote: bool, recorded: bool)
    requires t in s.ticks && s.ticks[t] == S.Checked(k) && k in s.schedules && W.CanEnqueue(s.worker, result)
    ensures var made := S.Apply(s, S.ManualScan(result, wrote)).(origin := s.origin[s.nextScan := k]);
            CheckedRun(s, t, result, wrote, recorded) ==
            (if result.Accepted? && recorded then made.(schedules := s.schedules[k := Some(s.nextScan)]) else made)
              .(ticks := s.ticks - {t})
  {
    var made := S.Apply(s, S.TickCreate(t, result, wrote));
    assert s.ticks[t := S.Enqueued(k, s.nextScan)] - {t} == s.ticks - {t};
  }

  lemma CheckedRunKeepsInvariants(s: S.State, t: S.TickId, result: W.EnqueueResult, wrote: bool, recorded: bool)
    requires C.BothInv(s) && t in s.ticks && s.ticks[t].Checked? && W.CanEnqueue(s.worker, result)
    requires recorded || !result.Accepted?
    ensures C.BothInv(CheckedRun(s, t, result, wrote, recorded))
  {
    var create := C.Plain(S.TickCreate(t, result, wrote));
    C.OrderlyStepInv(s, create);
    var made := C.StepApply(s, create);
    if t in made.ticks {
      C.OrderlyStepInv(made, C.Plain(S.TickRecord(t)));
    }
  }

  /**
   A whole run of a schedule keeps every invariant, so that it leaves at most one unfinished scan, if
   it begins in order and records the scan it made.
   */
  lemma ScheduleRunKeepsInvariants(s: S.State, t: S.TickId, k: S.ScheduleId, readable: bool, result: W.EnqueueResult,
                                   wrote: bool, recorded: bool)
    requires C.BothInv(s) && t !in s.ticks && k in s.schedules && W.CanEnqueue(s.worker, result)
    requires C.OrderlyStep(s, BeginStep(t, k, readable))
    requires recorded || !result.Accepted? || S.LastRunActive(s, k)
    ensures C.BothInv(ScheduleRun(s, t, k, readable, result, wrote, recorded))
  {
    var begun := C.StepApply(s, BeginStep(t, k, readable));
    C.OrderlyStepInv(s, BeginStep(t, k, readable));
    if t in begun.ticks {
      CheckedRunKeepsInvariants(begun, t, result, wrote, recorded);
    }
  }

  lemma ManualScanChanges(s: S.State, result: W.EnqueueResult, wrote: bool)
    requires W.CanEnqueue(s.worker, result)
    ensures S.Apply(s, S.ManualScan(result, wrote)) ==
            s.(worker := W.EnqueueSteps(s.worker, result, wrote),
               scans := s.scans[s.nextScan := if result.Accepted? then S.Queued else S.Error],
               nextScan := s.nextScan + 1,
               refs := if result.NotCreated? then s.refs else s.refs[s.worker.nextId := s.nextScan])
  {
  }

  class Server {
    const jobs: W.Manager
    const browseRoot: string
    var scans: map<S.ScanId, S.Status>
    var nextScan: S.ScanId
    var refs: map<W.JobId, S.ScanId>
    var schedules: map<S.ScheduleId, Option<S.ScanId>>
    var nextSchedule: S.ScheduleId
    ghost var phases: map<W.JobId, S.Phase>
    ghost var ticks: map<S.TickId, S.Tick>
    ghost var reached: set<S.ScanId>
    ghost var origin: map<S.ScanId, S.ScheduleId>
    ghost var disturbed: bool

    ghost function View(): S.State
      reads this, jobs
    {
      S.State(jobs.View(), scans, nextScan, refs, phases, schedules, nextSchedule, ticks, reached, origin, disturbed)
    }

    constructor (jobs: W.Manager, browseRoot: string)
      ensures this.jobs == jobs && this.browseRoot == browseRoot
      ensures View() == S.State(jobs.View(), map[], 0, map[], map[], map[], 0, map[], {}, map[], false)
    {
      this.jobs, this.browseRoot := jobs, browseRoot;
      scans, nextScan, refs, schedules, nextSchedule := map[], 0, map[], map[], 0;
      phases, ticks, reached, origin, disturbed := map[], map[], {}, map[], false;
    }

    /** CreateScan of the database: a queued row, if it can be inserted. */
    method InsertScan(inserts: bool) returns (scan: Option<S.ScanId>)
      modifies this`scans, this`nextScan
      ensures scan.Some? <==> inserts
      ensures scan.Some? ==> scan.value == old(nextScan) && nextScan == old(nextScan) + 1 && scans == old(scans)[old(nextScan) := S.Queued]
      ensures scan.None? ==> scans == old(scans) && nextScan == old(nextScan)
    {
      if !inserts {
        return None;
      }
      scan := Some(nextScan);
      scans, nextScan := scans[nextScan := S.Queued], nextScan + 1;
    }

    /** Creates the row, enqueues its job, and ends the row at once if that fails. */
    method CreateAndEnqueue(inserts: bool) returns (scan: Option<S.ScanId>, result: W.EnqueueResult, ghost wrote: bool)
      requires |jobs.ch| <= W.QUEUE_DEPTH
      modifies this`scans, this`nextScan, this`refs, jobs
      ensures scan.Some? <==> inserts
      ensures scan.None? ==> View() == old(View())
      ensures scan.Some? ==> scan.value == old(nextScan) && W.CanEnqueue(old(View()).worker, result)
                             && View() == S.Apply(old(View()), S.ManualScan(result, wrote))
    {
      result, wrote := W.NotCreated, true;
      scan := InsertScan(inserts);
      if scan.Some? {
        var job;
        job, result, wrote := jobs.Enqueue();
        Settle(scan.value, job, result);
        ManualScanChanges(old(View()), result, wrote);
      }
    }

    /** The job's reference to its scan, and the end of a scan whose job was not accepted. */
    method Settle(scan: S.ScanId, job: W.JobId, result: W.EnqueueResult)
      modifies this`scans, this`refs
      ensures refs == if result.NotCreated? then old(refs) else old(refs)[job := scan]
      ensures scans == if result.Accepted? then old(scans) else old(scans)[scan := S.Error]
    {
      refs := if result.NotCreated? then refs else refs[job := scan];
      scans := if result.Accepted? then scans else scans[scan := S.Error];
    }

    method HandleCreateScan(paths: seq<string>, inserts: bool) returns (reply: Reply, ghost result: W.EnqueueResult, ghost wrote: bool)
      requires |jobs.ch| <= W.QUEUE_DEPTH
      modifies this, jobs
      ensures reply in {Accepted, BadRequest, InternalError, Unavailable}
      ensures reply == BadRequest <==> exists e :: SanitizedAs(paths, browseRoot, Err(e))
      ensures reply == InternalError <==> !inserts && reply != BadRequest
      ensures reply in {BadRequest, InternalError} ==> View() == old(View())
      ensures reply in {Accepted, Unavailable} ==> && S.Enabled(old(View()), S.ManualScan(result, wrote))
                                                   && View() == S.Apply(old(View()), S.ManualScan(result, wrote))
                                                   && (reply == Accepted <==> result.Accepted?)
    {
      result, wrote := W.NotCreated, true;
      var checked := SanitizeScanPaths(paths, browseRoot);
      if checked.Err? {
        assert SanitizedAs(paths, browseRoot, Err(checked.error));
        reply := BadRequest;
        return;
      }
      OneVerdict(paths, browseRoot, checked.value);
      var scan, r;
      scan, r, wrote := CreateAndEnqueue(inserts);
      result := r;
      reply := if scan.None? then InternalError else if r.Accepted? then Accepted else Unavailable;
    }

    /** GetScan's status column: None when the read fails or there is no such row. */
    method ReadStatus(scan: S.ScanId, readable: bool) returns (status: Option<S.Status>)
      ensures status == if readable && scan in scans then Some(scans[scan]) else None
    {
      status := if readable && scan in scans then Some(scans[scan]) else None;
    }

    /** The body of a scan job; `status` is how the scanner run ends. True stands for a nil error. */
    method RunScan(ghost w: W.WorkerId, ghost job: W.JobId, scan: S.ScanId, status: S.Status, readable: bool)
      returns (ok: bool)
      requires S.InTask(View(), w) && View().worker.workers[w].id == job
      requires job !in phases && refs[job] == scan && !S.Active(status)
      modifies this`scans, this`phases, this`reached
      ensures View() == if readable then ScanTask(old(View()), w, status) else BlindScanTask(old(View()), w, status)
      ensures ok <==> (readable && scan in old(scans) && old(scans)[scan] == S.Canceled) || status == S.Done
    {
      ghost var before := View();
      var current := ReadStatus(scan, readable);
      if current == Some(S.Canceled) {
        phases := phases[job := S.Ended(true)];
        CanceledScanTask(before, w, status, job, scan);
        ok := true;
        return;
      }
      if readable {
        FullScanTask(before, w, status, job, scan);
      } else {
        BlindScanTaskChanges(before, w, status, job, scan);
      }
      StartAndFinish(scan, job, status);
      ok := status == S.Done;
    }

    /** The row and task updates of a scan that is not canceled before it starts. */
    method StartAndFinish(scan: S.ScanId, ghost job: W.JobId, status: S.Status)
      modifies this`scans, this`phases, this`reached
      ensures scans == old(scans)[scan := status] && phases == old(phases)[job := S.Ended(status == S.Done)]
      ensures reached == old(reached) + {scan}
    {
      scans := scans[scan := S.Running];
      reached := reached + {scan};
      scans := scans[scan := status];
      phases := phases[job := S.Ended(status == S.Done)];
    }

    /** The newest running job linked to a scan. */
    method RunningJobForRef(scan: S.ScanId) returns (job: Option<W.JobId>)
      requires forall id :: id in jobs.rows ==> id < jobs.nextId
      ensures S.IsRunningJobFor(View(), scan, job)
    {
      var id: int := jobs.nextId;
      while id > 0
        invariant 0 <= id <= jobs.nextId
        invariant forall later: W.JobId :: id <= later ==> !S.RefersRunning(View(), later, scan)
      {
        id := id - 1;
        if id in refs && refs[id] == scan && id in jobs.rows && jobs.rows[id] == W.Running {
          return Some(id);
        }
      }
      job := None;
    }

    /** A failing lookup of the running job is ignored, as if there were none. */
    method HandleCancelScan(scan: S.ScanId, readable: bool, looks: bool) returns (reply: Reply, ghost job: Option<W.JobId>)
      requires forall id :: id in jobs.rows ==> id < jobs.nextId
      modifies this`scans, jobs`canceled
      ensures reply == InternalError <==> !readable
      ensures reply == NotFound <==> readable && scan !in old(scans)
      ensures reply == Conflict <==> readable && scan in old(scans) && !S.Active(old(scans)[scan])
      ensures reply in {NotFound, Conflict, Accepted, InternalError}
      ensures reply != Accepted ==> View() == old(View())
      ensures reply == Accepted ==> && S.Enabled(old(View()), S.CancelScan(scan, job))
                                    && View() == S.Apply(old(View()), S.CancelScan(scan, job))
                                    && (if looks then S.IsRunningJobFor(old(View()), scan, job) else job.None?)
    {
      job := None;
      if !readable {
        reply := InternalError;
        return;
      }
      if scan !in scans {
        reply := NotFound;
        return;
      }
      if scans[scan] != S.Running && scans[scan] != S.Queued {
        reply := Conflict;
        return;
      }
      if scans[scan] == S.Queued {
        scans := scans[scan := S.Canceled];
      }
      if looks {
        var found := RunningJobForRef(scan);
        job := found;
        assert S.IsRunningJobFor(old(View()), scan, job) by {
          assert forall id: W.JobId :: S.RefersRunning(View(), id, scan) <==> S.RefersRunning(old(View()), id, scan);
        }
        if found.Some? {
          var _ := jobs.Cancel(found.value);
        }
      }
      reply := Accepted;
    }

    /**
     The scheduler's callback and the run-now handler; `t` names this run. The other parameters say
     whether the schedule and its last scan can be read, the row inserted, and the scan recorded.
     */
    method RunScheduledScan(k: S.ScheduleId, ghost t: S.TickId, loads: bool, readable: bool, inserts: bool, records: bool)
      returns (started: bool, ghost result: W.EnqueueResult, ghost wrote: bool)
      requires |jobs.ch| <= W.QUEUE_DEPTH && t !in ticks
      modifies this, jobs
      ensures !loads || k !in old(schedules) || (readable && S.LastRunActive(old(View()), k)) || !inserts ==>
                !started && View() == old(View())
      ensures loads && k in old(schedules) && !(readable && S.LastRunActive(old(View()), k)) && inserts ==>
                && W.CanEnqueue(old(View()).worker, result)
                && View() == ScheduleRun(old(View()), t, k, readable, result, wrote, records)
                && (started <==> result.Accepted?)
    {
      started, result, wrote := false, W.NotCreated, true;
      if !loads || k !in schedules {
        return;
      }
      var last := schedules[k];
      if last.Some? {
        var status := ReadStatus(last.value, readable);
        if status == Some(S.Queued) || status == Some(S.Running) {
          return;
        }
      }
      var scan, r;
      scan, r, wrote := CreateAndEnqueue(inserts);
      result := r;
      if scan.None? {
        return;
      }
      origin := origin[scan.value := k];
      started := r.Accepted?;
      if started && records {
        schedules := schedules[k := scan];
      }
      ScheduleRunChanges(old(View()), t, k, readable, result, wrote, records);
    }

    /** Adds a schedule that has not run yet, if its row can be inserted. */
    method CreateSchedule(inserts: bool) returns (k: Option<S.ScheduleId>)
      modifies this`schedules, this`nextSchedule
      ensures k == if inserts then Some(old(nextSchedule)) else None
      ensures View() == if inserts then S.Apply(old(View()), S.AddSchedule) else old(View())
    {
      if !inserts {
        return None;
      }
      k := Some(nextSchedule);
      schedules, nextSchedule := schedules[nextSchedule := None], nextSchedule + 1;
    }

    method HandleDeleteSchedule(k: S.ScheduleId) returns (reply: Reply)
      modifies this`schedules
      ensures reply == if k in old(schedules) then Accepted else NotFound
      ensures k in old(schedules) ==> View() == S.Apply(old(View()), S.DeleteSchedule(k))
      ensures k !in old(schedules) ==> View() == old(View())
    {
      if k !in schedules {
        return NotFound;
      }
      schedules := schedules - {k};
      reply := Accepted;
    }
  }

  /** A request is either accepted or refused. */
  lemma OneVerdict(paths: seq<string>, browseRoot: string, out: seq<string>)
    requires SanitizedAs(paths, browseRoot, Ok(out))
    ensures forall e :: !SanitizedAs(paths, browseRoot, Err(e))
  {
  }
}
