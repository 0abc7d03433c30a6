/**
 What the finer grain of FineSteps leaves of the results on scans: exactly the safe steps keep every
 ended scan and keep canceled ones from the scanner, and in safe runs every unfinished scan still
 has one request or job that will take care of it.
 */
module FineResults {
  import opened Wrappers
  import opened Scans
  import opened Schedules
  import opened FineSteps
  import W = Worker

  // ------------------------------------------------------- requests across a step

  /** A step of the coarse system leaves the scan of a request to it. */
  lemma RequestStep(s: State, a: Action, r: Request)
    requires Inv(s) && Enabled(s, a) && RequestInv(s, r) && !(a.WorkerStep? && a.step.Restart?)
    ensures RequestInv(Apply(s, a), r)
  {
    var next, x := Apply(s, a), r.scan;
    RefsStep(s, a);
    RowAfter(s, a, x);
    forall id | id in next.refs && next.refs[id] == x
      ensures !Ahead(next, id) && id in s.refs
    {
      if Ahead(next, id) {
        AheadBefore(s, a, id);
      }
    }
    if a.CheckAndStart? {
      CheckedJob(s, a.w);
    }
  }

  /** Rows, ticks and history do not matter to whether a scan is unattended. */
  lemma UnattendedSame(s: State, next: State, x: ScanId)
    requires next.worker == s.worker && next.phases == s.phases && next.refs == s.refs
    ensures Unattended(next, x) <==> Unattended(s, x)
  {
    forall id
      ensures Ahead(next, id) <==> Ahead(s, id)
    {
      SamePlaces(s, next, id);
    }
  }

  /** A job made for one request is none of another's, and a refused one is none at all. */
  lemma RequestAfterJob(s: State, r: Request, result: W.EnqueueResult, wrote: bool, other: Request)
    requires Inv(s) && RequestInv(s, r) && r.Inserted? && W.CanEnqueue(s.worker, result)
    requires RequestInv(s, other) && other.scan != r.scan
    ensures RequestInv(WithJob(s, r.scan, result, wrote), other)
  {
    var next := WithJob(s, r.scan, result, wrote);
    forall id | id in next.refs && next.refs[id] == other.scan
      ensures !Ahead(next, id)
    {
      PlacesAfterJob(s, r.scan, result, wrote, id);
    }
  }

  lemma RefusedRequest(s: State, r: Request, result: W.EnqueueResult, wrote: bool)
    requires Inv(s) && RequestInv(s, r) && r.Inserted? && W.CanEnqueue(s.worker, result) && !result.Accepted?
    ensures RequestInv(WithJob(s, r.scan, result, wrote), Refused(r.scan, r.tick))
  {
    var next := WithJob(s, r.scan, result, wrote);
    forall id | id in next.refs && next.refs[id] == r.scan
      ensures !Ahead(next, id)
    {
      PlacesAfterJob(s, r.scan, result, wrote, id);
    }
  }

  // -------------------------------------------------- safe steps keep the invariant

  /** Starting a row that is not canceled, or seeing a canceled one, is the coarse check-and-start. */
  lemma StartIsCoarse(s: State, w: W.WorkerId)
    requires Inv(s) && BeforeStart(s, w)
    ensures Enabled(s, CheckAndStart(w)) && s.refs[JobOf(s, w)] in s.scans
    ensures s.scans[s.refs[JobOf(s, w)]] in {Queued, Canceled}
    ensures var x := s.refs[JobOf(s, w)];
            Apply(s, CheckAndStart(w)) ==
            if s.scans[x] == Canceled then s.(phases := s.phases[JobOf(s, w) := Ended(true)]) else Started(s, w)
  {
    assert JobInv(s, JobOf(s, w));
    CheckedJob(s, w);
  }

  lemma BaseInv(s: FineState, step: Step)
    requires FineInv(s) && FineEnabled(s, Base(step))
    ensures FineInv(FineApply(s, Base(step)))
  {
    match step
    case Plain(a) =>
      if IsRestart(step) {
        InvStep(s.base, a);
      } else {
        CoarseInv(s, a);
      }
    case BlindBegin(t, k) => TicksChange(s, s.base.ticks[t := Checked(k)]);
    case LoseRecord(t) => TicksChange(s, s.base.ticks - {t});
  }

  lemma TicksChange(s: FineState, ticks: map<TickId, Tick>)
    requires FineInv(s)
    ensures FineInv(s.(base := s.base.(ticks := ticks)))
  {
    TicksDoNotMatter(s.base, ticks);
    forall h | h in s.requests
      ensures RequestInv(s.base.(ticks := ticks), s.requests[h])
    {
      UnattendedSame(s.base, s.base.(ticks := ticks), s.requests[h].scan);
    }
  }

  /** Ending a row by a write of its own, as far as requests are concerned. */
  lemma WriteChange(s: FineState, x: ScanId, status: Status, requests: map<HandlerId, Request>)
    requires FineInv(s) && x in s.base.scans && !Active(status) && !HeldByTask(s.base, x)
    requires status == Canceled || Unattended(s.base, x)
    requires forall h :: h in requests ==> h in s.requests && requests[h] == s.requests[h]
    requires forall h :: h in requests && requests[h].scan == x ==> status == Canceled
    ensures FineInv(s.(base := Written(s.base, x, status), requests := requests))
  {
    WrittenInv(s.base, x, status);
    forall h | h in requests
      ensures RequestInv(Written(s.base, x, status), requests[h])
    {
      UnattendedSame(s.base, Written(s.base, x, status), requests[h].scan);
    }
  }

  lemma CancelInv(s: FineState, h: HandlerId)
    requires FineInv(s) && FineEnabled(s, WriteCanceled(h)) && Safe(s, WriteCanceled(h))
    ensures FineInv(FineApply(s, WriteCanceled(h)))
  {
    var x := s.read[h].0;
    if s.base.scans[x] != Running {
      QueuedNotHeld(s.base, x);
    }
    WriteChange(s, x, Canceled, s.requests);
  }

  lemma FailInv(s: FineState, h: HandlerId)
    requires FineInv(s) && FineEnabled(s, FailScan(h))
    ensures FineInv(FineApply(s, FailScan(h)))
  {
    var r := s.requests[h];
    QueuedNotHeld(s.base, r.scan);
    WriteChange(s, r.scan, Error, s.requests - {h});
    var written := s.(base := Written(s.base, r.scan, Error), requests := s.requests - {h});
    if r.tick.Some? {
      TicksChange(written, written.base.ticks - {r.tick.value});
    }
  }

  lemma TaskInv(s: FineState, a: FineAction)
    requires FineInv(s) && FineEnabled(s, a) && Safe(s, a) && (a.CheckScan? || a.StartScan?)
    ensures FineInv(FineApply(s, a))
  {
    TaskIsCoarse(s, a);
    CoarseInv(s, CheckAndStart(a.w));
  }

  /** A coarse step keeps what FineInv says of the base, the reads and the requests. */
  lemma CoarseInv(s: FineState, a: Action)
    requires FineInv(s) && Enabled(s.base, a) && !(a.WorkerStep? && a.step.Restart?)
    ensures FineInv(s.(base := Apply(s.base, a)))
  {
    InvStep(s.base, a);
    ScanIdsStep(s.base, a);
    forall h | h in s.requests
      ensures RequestInv(Apply(s.base, a), s.requests[h])
    {
      RequestStep(s.base, a, s.requests[h]);
    }
  }

  lemma InsertInv(s: FineState, h: HandlerId, tick: Option<TickId>)
    requires FineInv(s) && FineEnabled(s, InsertScan(h, tick))
    ensures FineInv(FineApply(s, InsertScan(h, tick)))
  {
    var next := FineApply(s, InsertScan(h, tick));
    WithRowInv(s.base, tick);
    forall g | g in next.requests
      ensures RequestInv(next.base, next.requests[g])
    {
      UnattendedSame(s.base, next.base, next.requests[g].scan);
    }
  }

  lemma EnqueueInv(s: FineState, h: HandlerId, result: W.EnqueueResult, wrote: bool)
    requires FineInv(s) && FineEnabled(s, EnqueueScan(h, result, wrote))
    ensures FineInv(FineApply(s, EnqueueScan(h, result, wrote)))
  {
    var next, r := FineApply(s, EnqueueScan(h, result, wrote)), s.requests[h];
    WithJobInv(s.base, r, result, wrote);
    forall g | g in next.requests
      ensures RequestInv(next.base, next.requests[g])
    {
      if g == h {
        RefusedRequest(s.base, r, result, wrote);
      } else {
        RequestAfterJob(s.base, r, result, wrote, s.requests[g]);
      }
    }
  }

  lemma SafeInv(s: FineState, a: FineAction)
    requires FineInv(s) && FineEnabled(s, a) && Safe(s, a)
    ensures FineInv(FineApply(s, a))
  {
    match a
    case Base(step) => BaseInv(s, step);
    case ReadScan(_, _) =>
    case WriteCanceled(h) => CancelInv(s, h);
    case CheckScan(_, _) => TaskInv(s, a);
    case StartScan(_) => TaskInv(s, a);
    case InsertScan(h, tick) => InsertInv(s, h, tick);
    case EnqueueScan(h, result, wrote) => EnqueueInv(s, h, result, wrote);
    case FailScan(h) => FailInv(s, h);
  }

  // ------------------------------------------------------------- ended scans stay

  /** Every ended scan keeps its status, and a canceled one that has not reached the scanner still has not. */
  predicate Keeps(s: State, t: State) {
    forall x :: x in s.scans && !Active(s.scans[x]) ==>
      x in t.scans && t.scans[x] == s.scans[x] && (s.scans[x] == Canceled && x !in s.reached ==> x !in t.reached)
  }

  lemma CoarseKeeps(s: State, a: Action)
    requires Inv(s) && Enabled(s, a)
    ensures Keeps(s, Apply(s, a))
  {
    forall x | x in s.scans && !Active(s.scans[x])
      ensures x in Apply(s, a).scans && Apply(s, a).scans[x] == s.scans[x]
      ensures s.scans[x] == Canceled && x !in s.reached ==> x !in Apply(s, a).reached
    {
      TerminalStep(s, a, x);
      if s.scans[x] == Canceled && x !in s.reached {
        ReachedStep(s, a, x);
      }
    }
  }

  /** A safe step of a task is the coarse check-and-start, or changes no row. */
  lemma TaskIsCoarse(s: FineState, a: FineAction)
    requires FineInv(s) && FineEnabled(s, a) && Safe(s, a) && (a.CheckScan? || a.StartScan?)
    ensures Enabled(s.base, CheckAndStart(a.w))
    ensures FineApply(s, a).base in {s.base, Apply(s.base, CheckAndStart(a.w))}
    ensures FineApply(s, a).read == s.read && FineApply(s, a).requests == s.requests
  {
    StartIsCoarse(s.base, a.w);
  }

  /** A write to an unfinished row, or of what the row says already, keeps the ended ones. */
  lemma WrittenKeeps(s: State, x: ScanId, status: Status, tick: Option<TickId>)
    requires x in s.scans && (Active(s.scans[x]) || s.scans[x] == status)
    ensures Keeps(s, WithoutTick(Written(s, x, status), tick))
  {
  }

  lemma CallKeeps(s: FineState, a: FineAction)
    requires FineInv(s) && FineEnabled(s, a) && (a.InsertScan? || a.EnqueueScan?)
    ensures Keeps(s.base, FineApply(s, a).base)
  {
    assert s.base.nextScan !in s.base.scans;
  }

  lemma SafeKeeps(s: FineState, a: FineAction)
    requires FineInv(s) && FineEnabled(s, a) && Safe(s, a)
    ensures Keeps(s.base, FineApply(s, a).base)
  {
    match a
    case Base(step) =>
      if step.Plain? {
        CoarseKeeps(s.base, step.a);
      }
    case ReadScan(_, _) =>
    case WriteCanceled(h) => WrittenKeeps(s.base, s.read[h].0, Canceled, None);
    case CheckScan(w, _) =>
      TaskIsCoarse(s, a);
      CoarseKeeps(s.base, CheckAndStart(w));
    case StartScan(w) =>
      TaskIsCoarse(s, a);
      CoarseKeeps(s.base, CheckAndStart(w));
    case InsertScan(_, _) => CallKeeps(s, a);
    case EnqueueScan(_, _, _) => CallKeeps(s, a);
    case FailScan(h) => WrittenKeeps(s.base, s.requests[h].scan, Error, s.requests[h].tick);
  }

  lemma {:induction false} SafeRunKeeps(s: FineState, actions: seq<FineAction>)
    requires FineInv(s) && FineCanRun(s, actions) && AllSafe(s, actions)
    ensures FineInv(FineRun(s, actions)) && Keeps(s.base, FineRun(s, actions).base)
    decreases |actions|
  {
    if actions != [] {
      SafeInv(s, actions[0]);
      SafeKeeps(s, actions[0]);
      SafeRunKeeps(FineApply(s, actions[0]), actions[1..]);
    }
  }

  /** The step, and every safe run after it, keeps every scan that has ended by then. */
  ghost predicate KeepsEnded(s: FineState, a: FineAction)
    requires FineEnabled(s, a)
  {
    var next := FineApply(s, a);
    && Keeps(s.base, next.base)
    && forall later :: FineCanRun(next, later) && AllSafe(next, later) ==> Keeps(next.base, FineRun(next, later).base)
  }

  /** A canceled row whose task goes on: the task finishes the scan over it. */
  lemma TaskOverwrites(s: FineState, x: ScanId, id: W.JobId, w: W.WorkerId) returns (later: seq<FineAction>)
    requires x in s.base.scans && s.base.scans[x] == Canceled
    requires InTask(s.base, w) && JobOf(s.base, w) == id && id in s.base.phases && s.base.refs[id] == x && !s.base.phases[id].Ended?
    ensures FineCanRun(s, later) && AllSafe(s, later)
    ensures x in FineRun(s, later).base.scans && FineRun(s, later).base.scans[x] == Done
  {
    later := [];
    var call, finish := Base(Plain(CallScan(w))), Base(Plain(FinishScan(w, Done)));
    if s.base.phases[id] == Preparing {
      FineRunMore(s, later, call);
      later := later + [call];
    }
    FineRunMore(s, later, finish);
    later := later + [finish];
  }

  /** The job and the worker that hold a scan. */
  lemma Holder(s: State, x: ScanId) returns (id: W.JobId, w: W.WorkerId)
    requires Inv(s) && HeldByTask(s, x)
    ensures InTask(s, w) && JobOf(s, w) == id && id in s.phases && s.refs[id] == x && !s.phases[id].Ended?
  {
    id :| id in s.phases && id in s.refs && s.refs[id] == x && !s.phases[id].Ended?;
    assert JobInv(s, id);
    w :| InTask(s, w) && s.worker.workers[w].id == id;
  }

  /** A cancel written over a running row whose task goes on is overwritten. */
  lemma HeldCancelBreaks(s: FineState, h: HandlerId, x: ScanId)
    requires FineInv(s) && FineEnabled(s, WriteCanceled(h)) && x == s.read[h].0 && HeldByTask(s.base, x)
    ensures !KeepsEnded(s, WriteCanceled(h))
  {
    var next := FineApply(s, WriteCanceled(h));
    var id, w := Holder(s.base, x);
    var later := TaskOverwrites(next, x, id, w);
    assert !Keeps(next.base, FineRun(next, later).base);
  }

  lemma UnsafeCancelBreaks(s: FineState, h: HandlerId)
    requires FineInv(s) && FineEnabled(s, WriteCanceled(h)) && !Safe(s, WriteCanceled(h))
    ensures !KeepsEnded(s, WriteCanceled(h))
  {
    var x := s.read[h].0;
    if s.base.scans[x] == Running {
      HeldCancelBreaks(s, h, x);
    } else {
      assert !Keeps(s.base, FineApply(s, WriteCanceled(h)).base);
    }
  }

  lemma UnsafeBreaks(s: FineState, a: FineAction)
    requires FineInv(s) && FineEnabled(s, a) && !Safe(s, a)
    ensures !KeepsEnded(s, a)
  {
    if a.WriteCanceled? {
      UnsafeCancelBreaks(s, a.h);
    } else {
      if a.StartScan? {
        StartIsCoarse(s.base, a.w);
      }
      assert !Keeps(s.base, FineApply(s, a).base);
    }
  }

  /**
   Exactly the safe steps keep ended scans: a step is safe if and only if it changes no ended scan
   and hands no canceled one to the scanner, now or in any safe run after it.
   */
  lemma SafeExactly(s: FineState, a: FineAction)
    requires FineInv(s) && FineEnabled(s, a)
    ensures Safe(s, a) <==> KeepsEnded(s, a)
  {
    if Safe(s, a) {
      SafeInv(s, a);
      SafeKeeps(s, a);
      forall later | FineCanRun(FineApply(s, a), later) && AllSafe(FineApply(s, a), later)
        ensures Keeps(FineApply(s, a).base, FineRun(FineApply(s, a), later).base)
      {
        SafeRunKeeps(FineApply(s, a), later);
      }
    } else {
      UnsafeBreaks(s, a);
    }
  }

  ghost predicate AllKeepEnded(s: FineState, actions: seq<FineAction>)
    requires FineCanRun(s, actions)
    decreases |actions|
  {
    actions != [] ==> KeepsEnded(s, actions[0]) && AllKeepEnded(FineApply(s, actions[0]), actions[1..])
  }

  lemma {:induction false} SafeRunsFrom(s: FineState, actions: seq<FineAction>)
    requires FineInv(s) && FineCanRun(s, actions)
    ensures AllSafe(s, actions) <==> AllKeepEnded(s, actions)
    decreases |actions|
  {
    if actions != [] {
      SafeExactly(s, actions[0]);
      if Safe(s, actions[0]) {
        SafeInv(s, actions[0]);
        SafeRunsFrom(FineApply(s, actions[0]), actions[1..]);
      }
    }
  }

  lemma FineInitialInv(n: nat)
    requires n >= 1
    ensures FineInv(FineInitial(n))
  {
    InitialInv(n);
  }

  /** The same for runs from the start. */
  lemma SafeRunsExactly(n: nat, actions: seq<FineAction>)
    requires n >= 1 && FineCanRun(FineInitial(n), actions)
    ensures AllSafe(FineInitial(n), actions) <==> AllKeepEnded(FineInitial(n), actions)
  {
    FineInitialInv(n);
    SafeRunsFrom(FineInitial(n), actions);
  }

  lemma SafeCancelHoldsFrom(s: FineState, h: HandlerId, later: seq<FineAction>)
    requires FineInv(s) && FineEnabled(s, WriteCanceled(h)) && Safe(s, WriteCanceled(h)) && s.read[h].0 !in s.base.reached
    requires FineCanRun(FineApply(s, WriteCanceled(h)), later) && AllSafe(FineApply(s, WriteCanceled(h)), later)
    ensures var x, end := s.read[h].0, FineRun(FineApply(s, WriteCanceled(h)), later).base;
            x in end.scans && end.scans[x] == Canceled && x !in end.reached
  {
    SafeInv(s, WriteCanceled(h));
    SafeRunKeeps(FineApply(s, WriteCanceled(h)), later);
  }

  lemma SafeRunInv(n: nat, actions: seq<FineAction>)
    requires n >= 1 && FineCanRun(FineInitial(n), actions) && AllSafe(FineInitial(n), actions)
    ensures FineInv(FineRun(FineInitial(n), actions))
  {
    FineInitialInv(n);
    SafeRunKeeps(FineInitial(n), actions);
  }

  /** A cancel whose write is safe, and finds the scan not yet handed to the scanner, keeps it from there for good. */
  lemma SafeCancelHolds(n: nat, before: seq<FineAction>, h: HandlerId, later: seq<FineAction>)
    requires n >= 1 && FineCanRun(FineInitial(n), before) && AllSafe(FineInitial(n), before)
    requires var s := FineRun(FineInitial(n), before);
             && FineEnabled(s, WriteCanceled(h)) && Safe(s, WriteCanceled(h)) && s.read[h].0 !in s.base.reached
             && FineCanRun(FineApply(s, WriteCanceled(h)), later) && AllSafe(FineApply(s, WriteCanceled(h)), later)
    ensures var s := FineRun(FineInitial(n), before);
            var x, end := s.read[h].0, FineRun(FineApply(s, WriteCanceled(h)), later).base;
            x in end.scans && end.scans[x] == Canceled && x !in end.reached
  {
    SafeRunInv(n, before);
    SafeCancelHoldsFrom(FineRun(FineInitial(n), before), h, later);
  }

  // ------------------------------------- every unfinished scan is taken care of

  ghost predicate OnItsWay(s: FineState, x: ScanId) {
    exists h :: h in s.requests && s.requests[h].scan == x
  }

  /** Before any restart, shutdown or panic every unfinished scan has a job ahead, or is on its way to one. */
  ghost predicate FineCalm(s: FineState) {
    && (s.base.worker.stopped ==> s.base.disturbed)
    && (!s.base.disturbed ==> forall x :: x in s.base.scans && Active(s.base.scans[x]) ==> HasJob(s.base, x) || OnItsWay(s, x))
  }

  lemma HasJobStays(s: State, a: Action, x: ScanId)
    requires Inv(s) && Enabled(s, a) && HasJob(s, x) && !(a.WorkerStep? && a.step.Restart?) && !(a.ReturnScan? && a.outcome == W.Panics)
    requires x in Apply(s, a).scans && Active(Apply(s, a).scans[x])
    ensures HasJob(Apply(s, a), x)
  {
    var id :| id in s.refs && s.refs[id] == x && Ahead(s, id);
    AheadStep(s, a, id);
    RefsKept(s, a, id);
  }

  lemma CoarseCalm(s: FineState, a: Action, checked: set<W.JobId>)
    requires FineInv(s) && FineCalm(s) && Enabled(s.base, a) && !(a.WorkerStep? && a.step.Restart?)
    ensures FineCalm(s.(base := Apply(s.base, a), checked := checked))
  {
    var next := s.(base := Apply(s.base, a), checked := checked);
    DisturbedStays(s.base, a);
    if !next.base.disturbed {
      forall x | x in next.base.scans && Active(next.base.scans[x])
        ensures HasJob(next.base, x) || OnItsWay(next, x)
      {
        ActiveBefore(s.base, a, x);
        if x in s.base.scans && Active(s.base.scans[x]) {
          if HasJob(s.base, x) {
            HasJobStays(s.base, a, x);
          } else {
            var h :| h in s.requests && s.requests[h].scan == x;
            assert h in next.requests;
          }
        } else {
          NewScanHasJob(s.base, a);
        }
      }
    }
  }

  lemma HasJobSame(s: State, next: State, x: ScanId)
    requires next.worker == s.worker && next.phases == s.phases && next.refs == s.refs && HasJob(s, x)
    ensures HasJob(next, x)
  {
    var id :| id in s.refs && s.refs[id] == x && Ahead(s, id);
    SamePlaces(s, next, id);
    assert id in next.refs && next.refs[id] == x && Ahead(next, id);
  }

  /** A step that leaves jobs alone, and every request whose scan is still unfinished, stays calm. */
  lemma RowsCalm(s: FineState, next: FineState)
    requires FineCalm(s) && next.base.worker == s.base.worker && next.base.phases == s.base.phases && next.base.refs == s.base.refs
    requires next.base.disturbed == s.base.disturbed
    requires forall x :: x in next.base.scans && Active(next.base.scans[x]) ==>
               (x in s.base.scans && Active(s.base.scans[x])) || OnItsWay(next, x)
    requires forall h :: h in s.requests ==> var x := s.requests[h].scan;
               (x in next.base.scans && Active(next.base.scans[x]) ==> h in next.requests && next.requests[h].scan == x)
    ensures FineCalm(next)
  {
    if !next.base.disturbed {
      forall x | x in next.base.scans && Active(next.base.scans[x])
        ensures HasJob(next.base, x) || OnItsWay(next, x)
      {
        if HasJob(s.base, x) {
          HasJobSame(s.base, next.base, x);
        } else if h: HandlerId :| h in s.requests && s.requests[h].scan == x {
          assert h in next.requests && next.requests[h].scan == x;
        }
      }
    }
  }

  lemma InsertCalm(s: FineState, h: HandlerId, tick: Option<TickId>)
    requires FineInv(s) && FineCalm(s) && FineEnabled(s, InsertScan(h, tick))
    ensures FineCalm(FineApply(s, InsertScan(h, tick)))
  {
    var next := FineApply(s, InsertScan(h, tick));
    assert h in next.requests && next.requests[h].scan == s.base.nextScan;
    assert OnItsWay(next, s.base.nextScan);
    RowsCalm(s, next);
  }

  lemma HasJobAfterJob(s: State, x: ScanId, result: W.EnqueueResult, wrote: bool, y: ScanId)
    requires Inv(s) && W.CanEnqueue(s.worker, result)
    requires HasJob(s, y) || (y == x && result.Accepted?)
    ensures HasJob(WithJob(s, x, result, wrote), y)
  {
    var next := WithJob(s, x, result, wrote);
    if HasJob(s, y) {
      var id :| id in s.refs && s.refs[id] == y && Ahead(s, id);
      PlacesAfterJob(s, x, result, wrote, id);
      assert id in next.refs && next.refs[id] == y && Ahead(next, id);
    } else {
      var id := s.worker.nextId;
      PlacesAfterJob(s, x, result, wrote, id);
      assert id in next.refs && next.refs[id] == y && Ahead(next, id);
    }
  }

  lemma EnqueueCalm(s: FineState, h: HandlerId, result: W.EnqueueResult, wrote: bool)
    requires FineInv(s) && FineCalm(s) && FineEnabled(s, EnqueueScan(h, result, wrote))
    ensures FineCalm(FineApply(s, EnqueueScan(h, result, wrote)))
  {
    var next, r := FineApply(s, EnqueueScan(h, result, wrote)), s.requests[h];
    WorkersAfter(s.base, ManualScan(result, wrote));
    if !next.base.disturbed {
      forall x | x in next.base.scans && Active(next.base.scans[x])
        ensures HasJob(next.base, x) || OnItsWay(next, x)
      {
        if HasJob(s.base, x) || (x == r.scan && result.Accepted?) {
          HasJobAfterJob(s.base, r.scan, result, wrote, x);
        } else {
          var g :| g in s.requests && s.requests[g].scan == x;
          assert g in next.requests && next.requests[g].scan == x;
        }
      }
    }
  }

  lemma BaseCalm(s: FineState, step: Step)
    requires FineInv(s) && FineCalm(s) && FineEnabled(s, Base(step))
    ensures FineCalm(FineApply(s, Base(step)))
  {
    if IsRestart(step) {
      DisturbedStays(s.base, step.a);
    } else if step.Plain? {
      CoarseCalm(s, step.a, s.checked);
    } else {
      RowsCalm(s, FineApply(s, Base(step)));
    }
  }

  lemma HandlerCalm(s: FineState, a: FineAction)
    requires FineInv(s) && FineCalm(s) && FineEnabled(s, a) && (a.ReadScan? || a.WriteCanceled?)
    ensures FineCalm(FineApply(s, a))
  {
    RowsCalm(s, FineApply(s, a));
  }

  lemma FailCalm(s: FineState, h: HandlerId)
    requires FineInv(s) && FineCalm(s) && FineEnabled(s, FailScan(h))
    ensures FineCalm(FineApply(s, FailScan(h)))
  {
    var r := s.requests[h];
    var written := s.(base := Written(s.base, r.scan, Error), requests := s.requests - {h});
    RowsCalm(s, written);
    RowsCalm(written, written.(base := WithoutTick(written.base, r.tick)));
  }

  lemma SafeCalm(s: FineState, a: FineAction)
    requires FineInv(s) && FineCalm(s) && FineEnabled(s, a) && Safe(s, a)
    ensures FineCalm(FineApply(s, a))
  {
    match a
    case Base(step) => BaseCalm(s, step);
    case CheckScan(_, _) => TaskCalm(s, a);
    case StartScan(_) => TaskCalm(s, a);
    case InsertScan(h, tick) => InsertCalm(s, h, tick);
    case EnqueueScan(h, result, wrote) => EnqueueCalm(s, h, result, wrote);
    case FailScan(h) => FailCalm(s, h);
    case _ => HandlerCalm(s, a);
  }

  lemma TaskCalm(s: FineState, a: FineAction)
    requires FineInv(s) && FineCalm(s) && FineEnabled(s, a) && Safe(s, a) && (a.CheckScan? || a.StartScan?)
    ensures FineCalm(FineApply(s, a))
  {
    TaskIsCoarse(s, a);
    var next := FineApply(s, a);
    if next.base == s.base {
      RowsCalm(s, next);
    } else {
      CoarseCalm(s, CheckAndStart(a.w), next.checked);
    }
  }

  lemma {:induction false} SafeRunCalm(s: FineState, actions: seq<FineAction>)
    requires FineInv(s) && FineCalm(s) && FineCanRun(s, actions) && AllSafe(s, actions)
    ensures FineInv(FineRun(s, actions)) && FineCalm(FineRun(s, actions))
    decreases |actions|
  {
    if actions != [] {
      SafeInv(s, actions[0]);
      SafeCalm(s, actions[0]);
      SafeRunCalm(FineApply(s, actions[0]), actions[1..]);
    }
  }

  /**
   In a safe run without restart, shutdown or panic every unfinished scan has exactly one job that is
   waiting or being run, or is on its way into the queue by exactly one request; never both.
   */
  lemma ActiveScanIsTakenCareOf(n: nat, actions: seq<FineAction>, x: ScanId)
    requires n >= 1 && FineCanRun(FineInitial(n), actions) && AllSafe(FineInitial(n), actions)
    requires var s := FineRun(FineInitial(n), actions);
             !s.base.disturbed && x in s.base.scans && Active(s.base.scans[x])
    ensures var s := FineRun(FineInitial(n), actions);
            && (HasJob(s.base, x) <==> !OnItsWay(s, x))
            && (forall i, j :: i in s.base.refs && j in s.base.refs && s.base.refs[i] == x && s.base.refs[j] == x ==> i == j)
            && (forall g, h :: g in s.requests && h in s.requests && s.requests[g].scan == x && s.requests[h].scan == x ==> g == h)
  {
    FineInitialInv(n);
    SafeRunCalm(FineInitial(n), actions);
    if OnItsWay(FineRun(FineInitial(n), actions), x) {
      NotBoth(FineRun(FineInitial(n), actions), x);
    }
  }

  lemma NotBoth(s: FineState, x: ScanId)
    requires FineInv(s) && OnItsWay(s, x)
    ensures !HasJob(s.base, x)
  {
    var h :| h in s.requests && s.requests[h].scan == x;
    assert RequestInv(s.base, s.requests[h]);
  }
}
