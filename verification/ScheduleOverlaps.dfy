/**
 Exactly which steps keep every schedule at one unfinished scan: those that Schedules calls orderly.
 After any other step, some orderly steps lead to a schedule with two. Runs from the start show
 each way in which that happens.
 */
module ScheduleOverlaps {
  import opened Wrappers
  import opened Scans
  import opened Schedules
  import W = Worker

  lemma {:induction false} StepsMore(s: State, steps: seq<Step>, step: Step)
    requires StepsCanRun(s, steps) && StepEnabled(RunSteps(s, steps), step)
    ensures StepsCanRun(s, steps + [step]) && RunSteps(s, steps + [step]) == StepApply(RunSteps(s, steps), step)
    ensures AllOrderly(s, steps + [step]) <==> AllOrderly(s, steps) && OrderlyStep(RunSteps(s, steps), step)
    decreases |steps|
  {
    if steps == [] {
      assert [] + [step] == [step] && [step][1..] == [];
    } else {
      assert (steps + [step])[0] == steps[0] && (steps + [step])[1..] == steps[1..] + [step];
      StepsMore(StepApply(s, steps[0]), steps[1..], step);
    }
  }

  /** The orderly steps lead to two unfinished scans of one schedule. */
  ghost predicate Breaks(s: State, later: seq<Step>) {
    StepsCanRun(s, later) && AllOrderly(s, later) && !OneActive(RunSteps(s, later))
  }

  /** Every orderly continuation of the step keeps each schedule at one unfinished scan. */
  ghost predicate KeepsOneActive(s: State, step: Step)
    requires StepEnabled(s, step)
  {
    forall later :: !Breaks(StepApply(s, step), later)
  }

  function Create(t: TickId): Step {
    Plain(TickCreate(t, W.Accepted, true))
  }

  // -------------------------------------------- how two unfinished scans come about

  lemma CreateAfter(s: State, t: TickId)
    requires t in s.ticks && s.ticks[t].Checked? && |s.worker.queue| < W.QUEUE_DEPTH
    ensures StepEnabled(s, Create(t))
    ensures var next, k := StepApply(s, Create(t)), s.ticks[t].schedule;
            && next.scans == s.scans[s.nextScan := Queued] && next.origin == s.origin[s.nextScan := k]
            && next.nextScan == s.nextScan + 1 && |next.worker.queue| == |s.worker.queue| + 1
            && next.ticks == s.ticks[t := Enqueued(k, s.nextScan)] && next.schedules == s.schedules
  {
  }

  /** A tick past its check makes a second scan of its schedule. */
  lemma CreateBreaks(s: State, before: seq<Step>, t: TickId, x: ScanId)
    requires StepsCanRun(s, before) && AllOrderly(s, before)
    requires var u := RunSteps(s, before);
             && t in u.ticks && u.ticks[t].Checked? && |u.worker.queue| < W.QUEUE_DEPTH
             && ActiveOf(u, u.ticks[t].schedule, x) && x < u.nextScan
    ensures Breaks(s, before + [Create(t)])
  {
    var u := RunSteps(s, before);
    CreateAfter(u, t);
    StepsMore(s, before, Create(t));
    var next, k := StepApply(u, Create(t)), u.ticks[t].schedule;
    assert ActiveOf(next, k, x) && ActiveOf(next, k, u.nextScan);
  }

  lemma TwoCheckedBreak(s: State, t: TickId, u: TickId)
    requires t != u && t in s.ticks && u in s.ticks && s.ticks[t].Checked? && s.ticks[u] == s.ticks[t]
    requires |s.worker.queue| + 2 <= W.QUEUE_DEPTH
    ensures Breaks(s, [Create(u)] + [Create(t)])
  {
    CreateAfter(s, u);
    StepsMore(s, [], Create(u));
    assert [] + [Create(u)] == [Create(u)];
    CreateBreaks(s, [Create(u)], t, s.nextScan);
  }

  /** With no tick in flight and no unfinished last run, a new run of the schedule passes its check. */
  lemma BeginBreaks(s: State, before: seq<Step>, t: TickId, k: ScheduleId, x: ScanId)
    requires StepsCanRun(s, before) && AllOrderly(s, before)
    requires var u := RunSteps(s, before);
             && t !in u.ticks && k in u.schedules && NoTick(u, k) && !LastRunActive(u, k)
             && |u.worker.queue| < W.QUEUE_DEPTH && ActiveOf(u, k, x) && x < u.nextScan
    ensures Breaks(s, before + [Plain(TickBegin(t, k))] + [Create(t)])
  {
    StepsMore(s, before, Plain(TickBegin(t, k)));
    CreateBreaks(s, before + [Plain(TickBegin(t, k))], t, x);
  }

  /** The steps in which an older tick records its ended scan over the newer one of tick `t`. */
  function LateRecord(t: TickId, u: TickId): seq<Step> {
    [Create(t)] + [Plain(TickRecord(t))] + [Plain(TickRecord(u))]
  }

  lemma RecordAfter(s: State, t: TickId)
    requires t in s.ticks && s.ticks[t].Enqueued? && s.ticks[t].schedule in s.schedules
    ensures StepEnabled(s, Plain(TickRecord(t))) && OrderlyStep(s, Plain(TickRecord(t)))
    ensures StepApply(s, Plain(TickRecord(t))) ==
            s.(ticks := s.ticks - {t}, schedules := s.schedules[s.ticks[t].schedule := Some(s.ticks[t].scan)])
  {
  }

  lemma LateRecordRuns(s: State, t: TickId, u: TickId)
    requires t != u && t in s.ticks && u in s.ticks && s.ticks[t].Checked? && s.ticks[u].Enqueued?
    requires s.ticks[u].schedule == s.ticks[t].schedule && s.ticks[t].schedule in s.schedules
    requires |s.worker.queue| < W.QUEUE_DEPTH
    ensures StepsCanRun(s, LateRecord(t, u)) && AllOrderly(s, LateRecord(t, u))
    ensures var end, k := RunSteps(s, LateRecord(t, u)), s.ticks[t].schedule;
            && end.scans == s.scans[s.nextScan := Queued] && end.origin == s.origin[s.nextScan := k]
            && end.nextScan == s.nextScan + 1 && |end.worker.queue| == |s.worker.queue| + 1
            && end.ticks == s.ticks - {t, u} && end.schedules == s.schedules[k := Some(s.ticks[u].scan)]
  {
    CreateAfter(s, t);
    StepsMore(s, [], Create(t));
    assert [] + [Create(t)] == [Create(t)];
    var made := StepApply(s, Create(t));
    RecordAfter(made, t);
    StepsMore(s, [Create(t)], Plain(TickRecord(t)));
    var recorded := StepApply(made, Plain(TickRecord(t)));
    RecordAfter(recorded, u);
    StepsMore(s, [Create(t)] + [Plain(TickRecord(t))], Plain(TickRecord(u)));
    assert s.ticks[t := made.ticks[t]] - {t} - {u} == s.ticks - {t, u};
    var k := s.ticks[t].schedule;
    assert s.schedules[k := Some(s.nextScan)][k := Some(s.ticks[u].scan)] == s.schedules[k := Some(s.ticks[u].scan)];
  }

  lemma LateRecordBreaks(s: State, t: TickId, u: TickId)
    requires t != u && t in s.ticks && u in s.ticks && s.ticks[t].Checked? && s.ticks[u].Enqueued?
    requires s.ticks[u].schedule == s.ticks[t].schedule && s.ticks[t].schedule in s.schedules
    requires forall v :: v in s.ticks && v != t && v != u ==> s.ticks[v].schedule != s.ticks[t].schedule
    requires s.ticks[u].scan < s.nextScan && s.ticks[u].scan in s.scans && !Active(s.scans[s.ticks[u].scan])
    requires |s.worker.queue| + 2 <= W.QUEUE_DEPTH
    ensures Breaks(s, LateRecord(t, u) + [Plain(TickBegin(t, s.ticks[t].schedule))] + [Create(t)])
  {
    LateRecordRuns(s, t, u);
    BeginBreaks(s, LateRecord(t, u), t, s.ticks[t].schedule, s.nextScan);
  }

  // ---------------------------------------------------- exactly the orderly steps

  /** A second tick of the schedule past its check breaks the result, whatever the first one is at. */
  lemma SecondTickBreaks(s: State, t: TickId, u: TickId) returns (later: seq<Step>)
    requires ScanInv(s) && OriginInv(s)
    requires t != u && t in s.ticks && u in s.ticks && s.ticks[t].Checked? && s.ticks[u].schedule == s.ticks[t].schedule
    requires s.ticks[t].schedule in s.schedules && (forall x :: x in s.origin ==> x < s.nextScan)
    requires forall v :: v in s.ticks && v != t && v != u ==> s.ticks[v].schedule != s.ticks[t].schedule
    requires |s.worker.queue| + 2 <= W.QUEUE_DEPTH
    ensures Breaks(s, later)
  {
    if s.ticks[u].Checked? {
      TwoCheckedBreak(s, t, u);
      later := [Create(u)] + [Create(t)];
    } else {
      var k, x := s.ticks[t].schedule, s.ticks[u].scan;
      assert MadeFor(s, x, k) && x in s.scans;
      if Active(s.scans[x]) {
        CreateBreaks(s, [], t, x);
        later := [] + [Create(t)];
      } else {
        LateRecordBreaks(s, t, u);
        later := LateRecord(t, u) + [Plain(TickBegin(t, k))] + [Create(t)];
      }
    }
  }

  /** A run that passes its check although another one is in flight, or its last run is unfinished. */
  lemma BadBeginBreaks(s: State, t: TickId, k: ScheduleId) returns (later: seq<Step>)
    requires BothInv(s) && Enabled(s, TickBegin(t, k)) && |s.worker.queue| + 2 <= W.QUEUE_DEPTH
    requires !NoTick(s, k) || LastRunActive(s, k)
    ensures Breaks(s.(ticks := s.ticks[t := Checked(k)]), later)
  {
    var next := s.(ticks := s.ticks[t := Checked(k)]);
    if !NoTick(s, k) {
      TicksDoNotMatter(s, next.ticks);
      var u :| u in s.ticks && s.ticks[u].schedule == k;
      later := SecondTickBreaks(next, t, u);
    } else {
      var x := s.schedules[k].value;
      assert MadeFor(s, x, k);
      CreateBreaks(next, [], t, x);
      later := [] + [Create(t)];
    }
  }

  /** Once the tick of an unfinished, unrecorded scan is gone, the schedule can begin another one. */
  lemma LostTickBreaks(s: State, next: State, t: TickId, u: TickId) returns (later: seq<Step>)
    requires BothInv(s) && t in s.ticks && !Settled(s, s.ticks[t])
    requires next.scans == s.scans && next.origin == s.origin && next.nextScan == s.nextScan && next.schedules == s.schedules
    requires u !in next.ticks && NoTick(next, s.ticks[t].schedule) && |next.worker.queue| < W.QUEUE_DEPTH
    ensures Breaks(next, later)
  {
    var k, x := s.ticks[t].schedule, s.ticks[t].scan;
    assert MadeFor(s, x, k) && ActiveOf(s, k, x);
    if LastRunActive(s, k) {
      assert MadeFor(s, s.schedules[k].value, k) && ActiveOf(s, k, s.schedules[k].value);
    }
    BeginBreaks(next, [], u, k, x);
    later := [] + [Plain(TickBegin(u, k))] + [Create(u)];
  }

  lemma DisorderlyBreaks(s: State, step: Step) returns (later: seq<Step>)
    requires BothInv(s) && StepEnabled(s, step) && !OrderlyStep(s, step) && |s.worker.queue| + 2 <= W.QUEUE_DEPTH
    ensures Breaks(StepApply(s, step), later)
  {
    match step
    case BlindBegin(t, k) => later := BadBeginBreaks(s, t, k);
    case LoseRecord(t) => later := LostTickBreaks(s, StepApply(s, step), t, t);
    case Plain(a) =>
      TicksAfter(s, a);
      if a.TickBegin? {
        assert StepApply(s, step) == s.(ticks := s.ticks[a.tick := Checked(a.schedule)]);
        later := BadBeginBreaks(s, a.tick, a.schedule);
      } else {
        var t :| t in s.ticks && !Settled(s, s.ticks[t]);
        later := LostTickBreaks(s, StepApply(s, step), t, 0);
      }
  }

  /**
   A step keeps every schedule at one unfinished scan, over all orderly steps that may follow, if
   and only if it is orderly; given room for two more jobs in the queue.
   */
  lemma OrderlyExactly(s: State, step: Step)
    requires BothInv(s) && StepEnabled(s, step) && |s.worker.queue| + 2 <= W.QUEUE_DEPTH
    ensures OrderlyStep(s, step) <==> KeepsOneActive(s, step)
  {
    if OrderlyStep(s, step) {
      OrderlyStepInv(s, step);
      forall later
        ensures !Breaks(StepApply(s, step), later)
      {
        if StepsCanRun(StepApply(s, step), later) && AllOrderly(StepApply(s, step), later) {
          OrderlyRunInv(StepApply(s, step), later);
        }
      }
    } else {
      var later := DisorderlyBreaks(s, step);
    }
  }

  /** There is room in the queue before every step, and every step keeps one active. */
  ghost predicate AllKeepOneActive(s: State, steps: seq<Step>)
    requires StepsCanRun(s, steps)
    decreases |steps|
  {
    steps != [] ==> KeepsOneActive(s, steps[0]) && AllKeepOneActive(StepApply(s, steps[0]), steps[1..])
  }

  ghost predicate RoomThroughout(s: State, steps: seq<Step>)
    requires StepsCanRun(s, steps)
    decreases |steps|
  {
    |s.worker.queue| + 2 <= W.QUEUE_DEPTH && (steps != [] ==> RoomThroughout(StepApply(s, steps[0]), steps[1..]))
  }

  /** The same for runs: every step keeps one active exactly when every step is orderly. */
  lemma {:induction false} OrderlyRunsExactly(s: State, steps: seq<Step>)
    requires BothInv(s) && StepsCanRun(s, steps) && RoomThroughout(s, steps)
    ensures AllOrderly(s, steps) <==> AllKeepOneActive(s, steps)
    decreases |steps|
  {
    if steps != [] {
      OrderlyExactly(s, steps[0]);
      if OrderlyStep(s, steps[0]) {
        OrderlyStepInv(s, steps[0]);
        OrderlyRunsExactly(StepApply(s, steps[0]), steps[1..]);
      }
    }
  }

  // ----------------------------------------------------------- runs from the start

  /** Orderly steps from the start, one step that is not, and orderly steps to two unfinished scans. */
  ghost predicate BrokenBy(n: nat, before: seq<Step>, step: Step, later: seq<Step>) {
    && StepsCanRun(Initial(n), before) && AllOrderly(Initial(n), before)
    && StepEnabled(RunSteps(Initial(n), before), step)
    && Breaks(StepApply(RunSteps(Initial(n), before), step), later)
  }

  lemma BrokenByDisorder(n: nat, before: seq<Step>, step: Step) returns (later: seq<Step>)
    requires n >= 1 && StepsCanRun(Initial(n), before) && AllOrderly(Initial(n), before)
    requires var s := RunSteps(Initial(n), before);
             StepEnabled(s, step) && !OrderlyStep(s, step) && |s.worker.queue| + 2 <= W.QUEUE_DEPTH
    ensures BrokenBy(n, before, step, later)
  {
    InitialInv(n);
    OrderlyRunInv(Initial(n), before);
    later := DisorderlyBreaks(RunSteps(Initial(n), before), step);
  }

  /** A schedule, and a first run of it past its check. */
  lemma FirstBegun(n: nat) returns (steps: seq<Step>)
    requires n >= 1
    ensures StepsCanRun(Initial(n), steps) && AllOrderly(Initial(n), steps)
    ensures RunSteps(Initial(n), steps) ==
            Initial(n).(schedules := map[0 := None], nextSchedule := 1, ticks := map[0 := Checked(0)])
  {
    StepsMore(Initial(n), [], Plain(AddSchedule));
    steps := [] + [Plain(AddSchedule)];
    assert RunSteps(Initial(n), steps) == Initial(n).(schedules := map[0 := None], nextSchedule := 1);
    StepsMore(Initial(n), steps, Plain(TickBegin(0, 0)));
    steps := steps + [Plain(TickBegin(0, 0))];
  }

  /** That run has made its scan, which is queued. */
  lemma FirstMade(n: nat) returns (steps: seq<Step>)
    requires n >= 1
    ensures StepsCanRun(Initial(n), steps) && AllOrderly(Initial(n), steps)
    ensures var s := RunSteps(Initial(n), steps);
            && s.scans == map[0 := Queued] && |s.worker.queue| == 1 && s.schedules == map[0 := None]
            && s.ticks == map[0 := Enqueued(0, 0)]
  {
    steps := FirstBegun(n);
    CreateAfter(RunSteps(Initial(n), steps), 0);
    StepsMore(Initial(n), steps, Create(0));
    steps := steps + [Create(0)];
  }

  lemma SecondTickDisorderly(s: State, t: TickId, u: TickId, k: ScheduleId)
    requires t !in s.ticks && u in s.ticks && s.ticks[u].schedule == k && k in s.schedules && !LastRunActive(s, k)
    ensures StepEnabled(s, Plain(TickBegin(t, k))) && !OrderlyStep(s, Plain(TickBegin(t, k)))
  {
    assert !NoTick(s, k);
  }

  lemma UnsettledRecord(s: State, t: TickId)
    requires t in s.ticks && s.ticks[t].Enqueued? && !Settled(s, s.ticks[t])
    ensures StepEnabled(s, LoseRecord(t)) && !OrderlyStep(s, LoseRecord(t))
  {
  }

  lemma BlindDisorderly(s: State, t: TickId, k: ScheduleId)
    requires t !in s.ticks && k in s.schedules && LastRunActive(s, k)
    ensures StepEnabled(s, BlindBegin(t, k)) && !OrderlyStep(s, BlindBegin(t, k))
  {
  }

  /** A second run that begins before the first one has made its scan. */
  lemma OverlappingTicksCounterexample(n: nat) returns (before: seq<Step>, later: seq<Step>)
    requires n >= 1
    ensures BrokenBy(n, before, Plain(TickBegin(1, 0)), later)
  {
    before := FirstBegun(n);
    SecondTickDisorderly(RunSteps(Initial(n), before), 1, 0, 0);
    later := BrokenByDisorder(n, before, Plain(TickBegin(1, 0)));
  }

  /** A second run that begins when the first one's scan has been canceled, but is not recorded yet. */
  lemma LateRecordCounterexample(n: nat) returns (before: seq<Step>, later: seq<Step>)
    requires n >= 1
    ensures BrokenBy(n, before, Plain(TickBegin(1, 0)), later)
    ensures forall x :: x in RunSteps(Initial(n), before).scans ==> !Active(RunSteps(Initial(n), before).scans[x])
  {
    var steps := FirstMade(n);
    StepsMore(Initial(n), steps, Plain(CancelScan(0, None)));
    before := steps + [Plain(CancelScan(0, None))];
    assert RunSteps(Initial(n), before).scans == map[0 := Canceled];
    SecondTickDisorderly(RunSteps(Initial(n), before), 1, 0, 0);
    later := BrokenByDisorder(n, before, Plain(TickBegin(1, 0)));
  }

  lemma UnsettledRestart(s: State, m: nat, wrote: bool, t: TickId)
    requires m >= 1 && t in s.ticks && !Settled(s, s.ticks[t])
    ensures StepEnabled(s, Plain(WorkerStep(W.Restart(m, wrote)))) && !OrderlyStep(s, Plain(WorkerStep(W.Restart(m, wrote))))
  {
  }

  /** A restart between the enqueue of the scan and its record. */
  lemma RestartBetweenCounterexample(n: nat, m: nat, wrote: bool) returns (before: seq<Step>, later: seq<Step>)
    requires n >= 1 && m >= 1
    ensures BrokenBy(n, before, Plain(WorkerStep(W.Restart(m, wrote))), later)
  {
    before := FirstMade(n);
    UnsettledRestart(RunSteps(Initial(n), before), m, wrote, 0);
    later := BrokenByDisorder(n, before, Plain(WorkerStep(W.Restart(m, wrote))));
  }

  /** A record that fails. */
  lemma LostRecordCounterexample(n: nat) returns (before: seq<Step>, later: seq<Step>)
    requires n >= 1
    ensures BrokenBy(n, before, LoseRecord(0), later)
  {
    before := FirstMade(n);
    UnsettledRecord(RunSteps(Initial(n), before), 0);
    later := BrokenByDisorder(n, before, LoseRecord(0));
  }

  /** A run that cannot read the row of its queued last run. */
  lemma UnreadableLastRunCounterexample(n: nat) returns (before: seq<Step>, later: seq<Step>)
    requires n >= 1
    ensures BrokenBy(n, before, BlindBegin(0, 0), later)
  {
    var steps := FirstMade(n);
    RecordAfter(RunSteps(Initial(n), steps), 0);
    StepsMore(Initial(n), steps, Plain(TickRecord(0)));
    before := steps + [Plain(TickRecord(0))];
    assert RunSteps(Initial(n), before).schedules == map[0 := Some(0)];
    BlindDisorderly(RunSteps(Initial(n), before), 0, 0);
    later := BrokenByDisorder(n, before, BlindBegin(0, 0));
  }
}
