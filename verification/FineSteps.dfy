/**
 Scan rows at the grain of single database calls. Scans takes the cancel handler, the check and the
 start of a scan, and the creation of a row and its job as one step each; here other goroutines may
 step in between, and reads may fail. The results on ended scans then hold exactly as long as every
 write is what `Safe` calls safe, and runs from the start show how the others break them.
 */
module FineSteps {
  import opened Wrappers
  import opened Scans
  import opened Schedules
  import W = Worker

  type HandlerId = nat

  /**
   A scan whose row is inserted and whose job is not enqueued yet, or was refused; `tick` asked for
   it, or a user. The tick counts as enqueued from the insert on, but cannot record its scan yet.
   */
  datatype Request = Inserted(scan: ScanId, tick: Option<TickId>) | Refused(scan: ScanId, tick: Option<TickId>)

  /**
   `read` holds what the cancel handlers in progress have read, `checked` the jobs past the look at
   their scan's row, `requests` the scans on their way into the queue.
   */
  datatype FineState = FineState(base: State, read: map<HandlerId, (ScanId, Status)>, checked: set<W.JobId>,
                                 requests: map<HandlerId, Request>)

  datatype FineAction =
    | Base(step: Step)
    | ReadScan(h: HandlerId, scan: ScanId)
    | WriteCanceled(h: HandlerId)
    | CheckScan(w: W.WorkerId, readable: bool)
    | StartScan(w: W.WorkerId)
    | InsertScan(h: HandlerId, tick: Option<TickId>)
    | EnqueueScan(h: HandlerId, result: W.EnqueueResult, wrote: bool)
    | FailScan(h: HandlerId)

  predicate Requested(s: FineState, t: TickId) {
    exists h :: h in s.requests && s.requests[h].tick == Some(t)
  }

  /** A step of the coarse system that would repeat, or overtake, what has begun in single calls. */
  predicate Begun(s: FineState, step: Step) {
    match step
    case Plain(a) =>
      || (a.CheckAndStart? && InTask(s.base, a.w) && JobOf(s.base, a.w) in s.checked)
      || (a.TickRecord? && Requested(s, a.tick))
    case LoseRecord(t) => Requested(s, t)
    case BlindBegin(_, _) => false
  }

  /** The task has not written its scan's row, or ended, yet. */
  predicate BeforeStart(s: State, w: W.WorkerId) {
    InTask(s, w) && JobOf(s, w) !in s.phases
  }

  ghost predicate FineEnabled(s: FineState, a: FineAction) {
    match a
    case Base(step) => StepEnabled(s.base, step) && !Begun(s, step)
    case ReadScan(h, x) => h !in s.read && x in s.base.scans
    case WriteCanceled(h) => h in s.read && s.read[h].1 == Queued
    case CheckScan(w, _) => BeforeStart(s.base, w) && JobOf(s.base, w) !in s.checked
    case StartScan(w) => BeforeStart(s.base, w) && JobOf(s.base, w) in s.checked
    case InsertScan(h, tick) =>
      h !in s.requests &&
      (tick.Some? ==> tick.value in s.base.ticks && s.base.ticks[tick.value].Checked?)
    case EnqueueScan(h, result, _) => h in s.requests && s.requests[h].Inserted? && W.CanEnqueue(s.base.worker, result)
    case FailScan(h) => h in s.requests && s.requests[h].Refused?
  }

  predicate IsRestart(step: Step) {
    step.Plain? && step.a.WorkerStep? && step.a.step.Restart?
  }

  /** A row read as canceled ends the task; otherwise, or if the read fails, it goes on. */
  predicate SeesCanceled(s: State, w: W.WorkerId, readable: bool)
    requires BeforeStart(s, w)
  {
    var x := s.refs[JobOf(s, w)];
    readable && x in s.scans && s.scans[x] == Canceled
  }

  // The rows, jobs and ticks after each call

  function Written(s: State, x: ScanId, status: Status): State {
    s.(scans := s.scans[x := status])
  }

  function Started(s: State, w: W.WorkerId): State
    requires BeforeStart(s, w)
  {
    Written(s, s.refs[JobOf(s, w)], Running).(phases := s.phases[JobOf(s, w) := Preparing])
  }

  predicate AtTick(s: State, tick: Option<TickId>) {
    tick.Some? && tick.value in s.ticks
  }

  function WithRow(s: State, tick: Option<TickId>): State {
    var x := s.nextScan;
    s.(scans := s.scans[x := Queued],
       nextScan := x + 1,
       origin := if AtTick(s, tick) then s.origin[x := s.ticks[tick.value].schedule] else s.origin,
       ticks := if AtTick(s, tick) then s.ticks[tick.value := Enqueued(s.ticks[tick.value].schedule, x)] else s.ticks)
  }

  function WithJob(s: State, x: ScanId, result: W.EnqueueResult, wrote: bool): State
    requires W.CanEnqueue(s.worker, result)
  {
    s.(worker := W.EnqueueSteps(s.worker, result, wrote),
       refs := if result.NotCreated? then s.refs else s.refs[s.worker.nextId := x])
  }

  function WithoutTick(s: State, tick: Option<TickId>): State {
    if tick.Some? then s.(ticks := s.ticks - {tick.value}) else s
  }

  ghost function FineApply(s: FineState, a: FineAction): FineState
    requires FineEnabled(s, a)
  {
    match a
    case Base(step) =>
      if IsRestart(step) then FineState(StepApply(s.base, step), map[], {}, map[]) else s.(base := StepApply(s.base, step))
    case ReadScan(h, x) => s.(read := s.read[h := (x, s.base.scans[x])])
    case WriteCanceled(h) => s.(base := Written(s.base, s.read[h].0, Canceled), read := s.read - {h})
    case CheckScan(w, readable) =>
      var id := JobOf(s.base, w);
      if SeesCanceled(s.base, w, readable) then s.(base := s.base.(phases := s.base.phases[id := Ended(true)]))
      else s.(checked := s.checked + {id})
    case StartScan(w) => s.(base := Started(s.base, w), checked := s.checked - {JobOf(s.base, w)})
    case InsertScan(h, tick) =>
      s.(base := WithRow(s.base, tick), requests := s.requests[h := Inserted(s.base.nextScan, tick)])
    case EnqueueScan(h, result, wrote) =>
      var r := s.requests[h];
      s.(base := WithJob(s.base, r.scan, result, wrote),
         requests := if result.Accepted? then s.requests - {h} else s.requests[h := Refused(r.scan, r.tick)])
    case FailScan(h) =>
      s.(base := WithoutTick(Written(s.base, s.requests[h].scan, Error), s.requests[h].tick), requests := s.requests - {h})
  }

  function FineInitial(n: nat): FineState {
    FineState(Initial(n), map[], {}, map[])
  }

  // ---------------------------------------------------------------- safe steps

  /**
   The steps that overwrite no ended row, at once or by what they lead to: a late write of "canceled"
   must not meet an ended row of another status, or a running one that a task will still end; a
   start and a failure must not meet a canceled one.
   */
  ghost predicate Safe(s: FineState, a: FineAction)
    requires FineEnabled(s, a)
  {
    match a
    case WriteCanceled(h) =>
      var x := s.read[h].0;
      x in s.base.scans && (s.base.scans[x] in {Queued, Canceled} || (s.base.scans[x] == Running && !HeldByTask(s.base, x)))
    case StartScan(w) =>
      var x := s.base.refs[JobOf(s.base, w)];
      x in s.base.scans && s.base.scans[x] != Canceled
    case FailScan(h) =>
      var x := s.requests[h].scan;
      x in s.base.scans && s.base.scans[x] != Canceled
    case _ => true
  }

  ghost predicate FineCanRun(s: FineState, actions: seq<FineAction>)
    decreases |actions|
  {
    actions != [] ==> FineEnabled(s, actions[0]) && FineCanRun(FineApply(s, actions[0]), actions[1..])
  }

  ghost function FineRun(s: FineState, actions: seq<FineAction>): FineState
    requires FineCanRun(s, actions)
    decreases |actions|
  {
    if actions == [] then s else FineRun(FineApply(s, actions[0]), actions[1..])
  }

  ghost predicate AllSafe(s: FineState, actions: seq<FineAction>)
    requires FineCanRun(s, actions)
    decreases |actions|
  {
    actions != [] ==> Safe(s, actions[0]) && AllSafe(FineApply(s, actions[0]), actions[1..])
  }

  lemma {:induction false} FineRunMore(s: FineState, actions: seq<FineAction>, a: FineAction)
    requires FineCanRun(s, actions) && FineEnabled(FineRun(s, actions), a)
    ensures FineCanRun(s, actions + [a]) && FineRun(s, actions + [a]) == FineApply(FineRun(s, actions), a)
    ensures AllSafe(s, actions + [a]) <==> AllSafe(s, actions) && Safe(FineRun(s, actions), a)
    decreases |actions|
  {
    if actions == [] {
      assert [] + [a] == [a] && [a][1..] == [];
    } else {
      assert (actions + [a])[0] == actions[0] && (actions + [a])[1..] == actions[1..] + [a];
      FineRunMore(FineApply(s, actions[0]), actions[1..], a);
    }
  }

  // ---------------------------------------------------------------- the invariant

  /** The row of a scan on its way is queued or canceled, and no job will touch it. */
  ghost predicate RequestInv(s: State, r: Request) {
    && r.scan in s.scans && s.scans[r.scan] in {Queued, Canceled} && Unattended(s, r.scan)
    && (r.Inserted? ==> forall id :: id in s.refs ==> s.refs[id] != r.scan)
  }

  predicate DistinctRequests(requests: map<HandlerId, Request>) {
    forall g, h :: g in requests && h in requests && requests[g].scan == requests[h].scan ==> g == h
  }

  ghost predicate FineInv(s: FineState) {
    && Inv(s.base)
    && (forall h :: h in s.read ==> s.read[h].0 in s.base.scans)
    && (forall h :: h in s.requests ==> RequestInv(s.base, s.requests[h]))
    && DistinctRequests(s.requests)
  }

  /** A row no task will end may be ended by another write, if its job does not look at it any more or sees "canceled". */
  lemma WrittenInv(s: State, x: ScanId, status: Status)
    requires Inv(s) && x in s.scans && !Active(status) && !HeldByTask(s, x)
    requires status == Canceled || Unattended(s, x)
    ensures Inv(Written(s, x, status))
  {
    var next := Written(s, x, status);
    forall id | id in next.refs
      ensures JobInv(next, id)
    {
      assert JobInv(s, id);
      SamePlaces(s, next, id);
      assert id in s.phases && s.refs[id] == x ==> s.phases[id].Ended?;
      assert Fresh(s, id) ==> Ahead(s, id);
    }
  }

  lemma QueuedNotHeld(s: State, x: ScanId)
    requires Inv(s) && x in s.scans && s.scans[x] != Running
    ensures !HeldByTask(s, x)
  {
    forall id | id in s.phases && id in s.refs && s.refs[id] == x
      ensures s.phases[id].Ended?
    {
      assert JobInv(s, id);
    }
  }

  lemma WithRowInv(s: State, tick: Option<TickId>)
    requires Inv(s)
    ensures Inv(WithRow(s, tick))
  {
    var next := WithRow(s, tick);
    forall id | id in next.refs
      ensures JobInv(next, id)
    {
      assert JobInv(s, id);
      SamePlaces(s, next, id);
    }
  }

  lemma WithoutTickInv(s: State, tick: Option<TickId>)
    requires Inv(s)
    ensures Inv(WithoutTick(s, tick))
  {
    if tick.Some? {
      TicksDoNotMatter(s, s.ticks - {tick.value});
    }
  }

  /** What an enqueue does to places of jobs: a new job in the queue, if accepted, and nothing else. */
  lemma PlacesAfterJob(s: State, x: ScanId, result: W.EnqueueResult, wrote: bool, id: W.JobId)
    requires W.PlaceInv(s.worker) && W.CanEnqueue(s.worker, result) && s.phases.Keys <= s.refs.Keys
    requires forall j :: j in s.refs ==> j < s.worker.nextId
    ensures var next := WithJob(s, x, result, wrote);
            && (id != s.worker.nextId ==> (Fresh(next, id) <==> Fresh(s, id)))
            && (HasTask(next, id) <== HasTask(s, id))
            && (id == s.worker.nextId ==> (Fresh(next, id) <==> result.Accepted?) && id !in s.phases)
  {
    var next, a := WithJob(s, x, result, wrote), ManualScan(result, wrote);
    WorkersAfter(s, a);
    assert next.worker == Apply(s, a).worker;
    assert forall w: W.WorkerId :: HoldsFresh(next, w, id) <==> HoldsFresh(s, w, id);
    if id == s.worker.nextId {
      assert forall w: W.WorkerId :: W.Holds(s.worker, w, id) ==> id < s.worker.nextId;
    }
    if w: W.WorkerId :| InTask(s, w) && s.worker.workers[w].id == id {
      assert InTask(next, w);
    }
  }

  lemma WithJobInv(s: State, r: Request, result: W.EnqueueResult, wrote: bool)
    requires Inv(s) && RequestInv(s, r) && r.Inserted? && W.CanEnqueue(s.worker, result)
    ensures Inv(WithJob(s, r.scan, result, wrote))
  {
    var next := WithJob(s, r.scan, result, wrote);
    EnqueueKeepsInv(s, result, wrote);
    WorkersAfter(s, ManualScan(result, wrote));
    forall id | id in next.refs
      ensures id < next.worker.nextId && JobInv(next, id)
    {
      if id != s.worker.nextId {
        assert JobInv(s, id);
      }
      PlacesAfterJob(s, r.scan, result, wrote, id);
    }
  }
}
