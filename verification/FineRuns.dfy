/**
 Runs from the start in which one database call comes at the wrong time: each step before it is
 safe, it is not, and a scan that had ended does not stay as it was.
 */
module FineRuns {
  import opened Wrappers
  import opened Scans
  import opened Schedules
  import opened FineSteps
  import W = Worker

  /** Safe steps from the start, one step that is not, and safe steps after it. */
  ghost predicate RunsBy(n: nat, before: seq<FineAction>, a: FineAction, later: seq<FineAction>) {
    && FineCanRun(FineInitial(n), before) && AllSafe(FineInitial(n), before)
    && var s := FineRun(FineInitial(n), before);
    && FineEnabled(s, a) && !Safe(s, a)
    && FineCanRun(FineApply(s, a), later) && AllSafe(FineApply(s, a), later)
  }

  /** Where such a run gets to. */
  ghost function EndOf(n: nat, before: seq<FineAction>, a: FineAction, later: seq<FineAction>): State
    requires RunsBy(n, before, a, later)
  {
    FineRun(FineApply(FineRun(FineInitial(n), before), a), later).base
  }

  predicate Row(s: State, x: ScanId, status: Status) {
    x in s.scans && s.scans[x] == status
  }

  // ------------------------------------------------------------ the first scan

  /** The first scan's row is inserted. */
  lemma FirstInserted(n: nat) returns (actions: seq<FineAction>)
    requires n >= 1
    ensures FineCanRun(FineInitial(n), actions) && AllSafe(FineInitial(n), actions)
    ensures FineRun(FineInitial(n), actions) ==
            FineState(Initial(n).(scans := map[0 := Queued], nextScan := 1), map[], {}, map[0 := Inserted(0, None)])
  {
    FineRunMore(FineInitial(n), [], InsertScan(0, None));
    actions := [] + [InsertScan(0, None)];
  }

  /** The first scan is queued; worker 0 has its job and is at `pc`. */
  ghost predicate FirstScanAt(s: FineState, n: nat, pc: W.Pc, row: W.Status)
    requires n >= 1
  {
    && s.base.worker.workers == W.Initial(n).workers[0 := pc] && s.base.worker.queue == []
    && s.base.worker.rows == map[0 := row] && s.base.refs == map[0 := 0] && s.base.scans == map[0 := Queued]
    && s.base.phases == map[] && s.base.reached == {} && s.read == map[] && s.checked == {}
  }

  function Move(step: W.Action): FineAction {
    Base(Plain(WorkerStep(step)))
  }

  lemma WorkerMoves(s: FineState, actions: seq<FineAction>, n: nat, pc: W.Pc, row: W.Status, step: W.Action, next: W.Pc, newRow: W.Status)
    requires n >= 1 && FineCanRun(s, actions) && AllSafe(s, actions) && FirstScanAt(FineRun(s, actions), n, pc, row)
    requires || (step == W.Register(0) && pc == W.Received(0) && next == W.Registered(0) && newRow == row)
             || (step == W.Mark(0, true) && pc == W.Registered(0) && next == W.Marked(0) && newRow == W.Running)
             || (step == W.Start(0) && pc == W.Marked(0) && next == W.Started(0) && newRow == row)
    ensures FineCanRun(s, actions + [Move(step)]) && AllSafe(s, actions + [Move(step)])
    ensures FirstScanAt(FineRun(s, actions + [Move(step)]), n, next, newRow)
  {
    FineRunMore(s, actions, Move(step));
    var t, u := FineRun(s, actions).base, FineRun(s, actions + [Move(step)]).base;
    assert t.worker.workers[0] == pc;
    assert u.worker.workers == W.Initial(n).workers[0 := next];
    assert t.worker.rows[0 := W.Running] == map[0 := W.Running];
  }

  lemma FirstEnqueue(n: nat)
    requires n >= 1
    ensures W.CanEnqueue(W.Initial(n), W.Accepted)
    ensures W.EnqueueSteps(W.Initial(n), W.Accepted, true) == W.Initial(n).(rows := map[0 := W.Queued], nextId := 1, queue := [0])
  {
  }

  lemma FirstReceived(n: nat) returns (actions: seq<FineAction>)
    requires n >= 1
    ensures FineCanRun(FineInitial(n), actions) && AllSafe(FineInitial(n), actions)
    ensures FirstScanAt(FineRun(FineInitial(n), actions), n, W.Received(0), W.Queued)
  {
    var s := FineInitial(n);
    actions := FirstInserted(n);
    FirstEnqueue(n);
    FineRunMore(s, actions, EnqueueScan(0, W.Accepted, true));
    actions := actions + [EnqueueScan(0, W.Accepted, true)];
    assert FineRun(s, actions).base.worker == W.Initial(n).(rows := map[0 := W.Queued], nextId := 1, queue := [0]);
    FineRunMore(s, actions, Move(W.Receive(0)));
    actions := actions + [Move(W.Receive(0))];
  }

  /** The job of the first scan has started, and its row has not been looked at. */
  lemma FirstScanStarts(n: nat) returns (actions: seq<FineAction>)
    requires n >= 1
    ensures FineCanRun(FineInitial(n), actions) && AllSafe(FineInitial(n), actions)
    ensures FirstScanAt(FineRun(FineInitial(n), actions), n, W.Started(0), W.Running)
  {
    var s := FineInitial(n);
    actions := FirstReceived(n);
    WorkerMoves(s, actions, n, W.Received(0), W.Queued, W.Register(0), W.Registered(0), W.Queued);
    actions := actions + [Move(W.Register(0))];
    WorkerMoves(s, actions, n, W.Registered(0), W.Queued, W.Mark(0, true), W.Marked(0), W.Running);
    actions := actions + [Move(W.Mark(0, true))];
    WorkerMoves(s, actions, n, W.Marked(0), W.Running, W.Start(0), W.Started(0), W.Running);
    actions := actions + [Move(W.Start(0))];
  }

  // ------------------------------------------------ what the steps do to the first scan

  /** The first scan's job is in worker 0, its row says `row`, and its task is at `phase`, if it has started. */
  ghost predicate FirstTask(s: FineState, row: Status, phase: Option<Phase>, checked: bool) {
    && InTask(s.base, 0) && JobOf(s.base, 0) == 0 && s.base.refs[0] == 0 && Row(s.base, 0, row)
    && (if phase.Some? then 0 in s.base.phases && s.base.phases[0] == phase.value else 0 !in s.base.phases)
    && (0 in s.checked <==> checked) && s.base.reached == {}
  }

  lemma ReadStep(s: FineState, actions: seq<FineAction>, row: Status, phase: Option<Phase>, checked: bool)
    requires FineCanRun(s, actions) && AllSafe(s, actions)
    requires FirstTask(FineRun(s, actions), row, phase, checked) && FineRun(s, actions).read == map[]
    ensures FineCanRun(s, actions + [ReadScan(0, 0)]) && AllSafe(s, actions + [ReadScan(0, 0)])
    ensures FirstTask(FineRun(s, actions + [ReadScan(0, 0)]), row, phase, checked)
    ensures FineRun(s, actions + [ReadScan(0, 0)]).read == map[0 := (0, row)]
  {
    FineRunMore(s, actions, ReadScan(0, 0));
  }

  lemma WriteStep(s: FineState, actions: seq<FineAction>, phase: Option<Phase>, checked: bool)
    requires FineCanRun(s, actions) && AllSafe(s, actions)
    requires FirstTask(FineRun(s, actions), Queued, phase, checked) && FineRun(s, actions).read == map[0 := (0, Queued)]
    ensures FineCanRun(s, actions + [WriteCanceled(0)]) && AllSafe(s, actions + [WriteCanceled(0)])
    ensures FirstTask(FineRun(s, actions + [WriteCanceled(0)]), Canceled, phase, checked)
  {
    FineRunMore(s, actions, WriteCanceled(0));
  }

  lemma CheckStep(s: FineState, actions: seq<FineAction>, row: Status, readable: bool)
    requires FineCanRun(s, actions) && AllSafe(s, actions)
    requires FirstTask(FineRun(s, actions), row, None, false) && (readable ==> row != Canceled)
    ensures FineCanRun(s, actions + [CheckScan(0, readable)]) && AllSafe(s, actions + [CheckScan(0, readable)])
    ensures FirstTask(FineRun(s, actions + [CheckScan(0, readable)]), row, None, true)
    ensures FineRun(s, actions + [CheckScan(0, readable)]).read == FineRun(s, actions).read
  {
    FineRunMore(s, actions, CheckScan(0, readable));
  }

  /** From its start on the scan goes through the scanner and ends as done. */
  lemma ScanGoesOn(s: FineState, row: Status) returns (later: seq<FineAction>)
    requires FirstTask(s, row, Some(Preparing), false)
    ensures FineCanRun(s, later) && AllSafe(s, later)
    ensures var end := FineRun(s, later).base; Row(end, 0, Done) && 0 in end.reached
  {
    var call, finish := Base(Plain(CallScan(0))), Base(Plain(FinishScan(0, Done)));
    FineRunMore(s, [], call);
    later := [] + [call];
    assert InPhase(FineRun(s, later).base, 0, InScan);
    FineRunMore(s, later, finish);
    later := later + [finish];
  }

  lemma UnsafeStart(s: FineState)
    requires FirstTask(s, Canceled, None, true)
    ensures FineEnabled(s, StartScan(0)) && !Safe(s, StartScan(0))
    ensures FirstTask(FineApply(s, StartScan(0)), Running, Some(Preparing), false)
  {
  }

  /**
   The scan reads "queued"; a cancel handler reads "queued" and writes "canceled" while that is still
   so; the scan writes "running", reaches the scanner and ends as done.
   */
  lemma StartOverCancelCounterexample(n: nat) returns (before: seq<FineAction>, later: seq<FineAction>)
    requires n >= 1
    ensures RunsBy(n, before, StartScan(0), later)
    ensures Row(FineRun(FineInitial(n), before).base, 0, Canceled) && 0 !in FineRun(FineInitial(n), before).base.reached
    ensures var end := EndOf(n, before, StartScan(0), later); Row(end, 0, Done) && 0 in end.reached
  {
    var s := FineInitial(n);
    before := FirstScanStarts(n);
    CheckStep(s, before, Queued, true);
    before := before + [CheckScan(0, true)];
    ReadStep(s, before, Queued, None, true);
    before := before + [ReadScan(0, 0)];
    WriteStep(s, before, None, true);
    before := before + [WriteCanceled(0)];
    UnsafeStart(FineRun(s, before));
    later := ScanGoesOn(FineApply(FineRun(s, before), StartScan(0)), Running);
  }

  /** The same when the scan cannot read its row, although that was canceled before. */
  lemma UnreadableScanCounterexample(n: nat) returns (before: seq<FineAction>, later: seq<FineAction>)
    requires n >= 1
    ensures RunsBy(n, before, StartScan(0), later) && before != [] && before[|before| - 1] == CheckScan(0, false)
    ensures Row(FineRun(FineInitial(n), before).base, 0, Canceled) && 0 !in FineRun(FineInitial(n), before).base.reached
    ensures var end := EndOf(n, before, StartScan(0), later); Row(end, 0, Done) && 0 in end.reached
  {
    var s := FineInitial(n);
    before := FirstScanStarts(n);
    ReadStep(s, before, Queued, None, false);
    before := before + [ReadScan(0, 0)];
    WriteStep(s, before, None, false);
    before := before + [WriteCanceled(0)];
    CheckStep(s, before, Canceled, false);
    before := before + [CheckScan(0, false)];
    UnsafeStart(FineRun(s, before));
    later := ScanGoesOn(FineApply(FineRun(s, before), StartScan(0)), Running);
  }

  lemma StartStep(s: FineState, actions: seq<FineAction>)
    requires FineCanRun(s, actions) && AllSafe(s, actions) && FirstTask(FineRun(s, actions), Queued, None, true)
    ensures FineCanRun(s, actions + [StartScan(0)]) && AllSafe(s, actions + [StartScan(0)])
    ensures FirstTask(FineRun(s, actions + [StartScan(0)]), Running, Some(Preparing), false)
    ensures FineRun(s, actions + [StartScan(0)]).read == FineRun(s, actions).read
  {
    FineRunMore(s, actions, StartScan(0));
  }

  lemma UnsafeCancel(s: FineState)
    requires FirstTask(s, Running, Some(Preparing), false) && s.read == map[0 := (0, Queued)]
    ensures FineEnabled(s, WriteCanceled(0)) && !Safe(s, WriteCanceled(0))
    ensures FirstTask(FineApply(s, WriteCanceled(0)), Canceled, Some(Preparing), false)
  {
    assert 0 in s.base.phases && 0 in s.base.refs && s.base.refs[0] == 0;
    assert HeldByTask(s.base, 0);
  }

  /**
   A cancel handler reads "queued"; the scan checks and starts; the handler writes "canceled". The
   scan then still reaches the scanner, and its terminal status changes to done.
   */
  lemma LateCancelCounterexample(n: nat) returns (before: seq<FineAction>, later: seq<FineAction>)
    requires n >= 1
    ensures RunsBy(n, before, WriteCanceled(0), later)
    ensures var s := FineApply(FineRun(FineInitial(n), before), WriteCanceled(0)).base; Row(s, 0, Canceled) && 0 !in s.reached
    ensures var end := EndOf(n, before, WriteCanceled(0), later); Row(end, 0, Done) && 0 in end.reached
  {
    var s := FineInitial(n);
    before := FirstScanStarts(n);
    ReadStep(s, before, Queued, None, false);
    before := before + [ReadScan(0, 0)];
    CheckStep(s, before, Queued, true);
    before := before + [CheckScan(0, true)];
    StartStep(s, before);
    before := before + [StartScan(0)];
    UnsafeCancel(FineRun(s, before));
    later := ScanGoesOn(FineApply(FineRun(s, before), WriteCanceled(0)), Canceled);
  }

  /** A scan is canceled before it is enqueued; the enqueue fails, and the row ends as an error. */
  lemma FailOverCancelCounterexample(n: nat) returns (before: seq<FineAction>)
    requires n >= 1
    ensures RunsBy(n, before, FailScan(0), [])
    ensures Row(FineRun(FineInitial(n), before).base, 0, Canceled)
    ensures Row(EndOf(n, before, FailScan(0), []), 0, Error)
  {
    var s := FineInitial(n);
    before := FirstInserted(n);
    FineRunMore(s, before, ReadScan(0, 0));
    before := before + [ReadScan(0, 0)];
    assert FineRun(s, before).read == map[0 := (0, Queued)];
    FineRunMore(s, before, WriteCanceled(0));
    before := before + [WriteCanceled(0)];
    FineRunMore(s, before, EnqueueScan(0, W.NotCreated, true));
    before := before + [EnqueueScan(0, W.NotCreated, true)];
  }
}
