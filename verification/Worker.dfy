/**
 internal/worker/worker.go and internal/db/jobs.go: the job queue as a transition system.
 One action is one step that other goroutines can observe: a row update, a channel
 operation, or a change of the `running` map under its mutex.
 */
module Worker {
  import opened Wrappers

  type JobId = nat
  type WorkerId = nat

  const QUEUE_DEPTH: nat := 64

  datatype Status = Queued | Running | Done | Error

  /** Where one worker goroutine is in `loop` and `execute`. */
  datatype Pc =
    | Idle
    | Exited
    | Received(id: JobId)
    | Registered(id: JobId)
    | Marked(id: JobId)
    | Started(id: JobId)
    | Returned(id: JobId, ok: bool)
    | Finished(id: JobId)

  /** How a task ends; `safeRun` turns a panic into an error. */
  datatype Outcome = ReturnsNil | ReturnsError | Panics

  /**
   The jobs table, the queue and the Manager's fields; `sending` holds the jobs of Enqueue
   calls between the insert and the select. The last three fields are history: task
   starts, tasks that returned nil, and rows whose terminal update failed.
   */
  datatype State = State(
    rows: map<JobId, Status>,
    nextId: JobId,
    sending: set<JobId>,
    queue: seq<JobId>,
    workers: seq<Pc>,
    running: set<JobId>,
    canceled: set<JobId>,
    stopped: bool,
    starts: multiset<JobId>,
    returnedNil: set<JobId>,
    lost: set<JobId>)

  datatype Action =
    | Create
    | Send(id: JobId)
    | Refuse(id: JobId, wrote: bool)
    | Receive(w: WorkerId)
    | Exit(w: WorkerId)
    | Register(w: WorkerId)
    | Mark(w: WorkerId, wrote: bool)
    | Start(w: WorkerId)
    | Return(w: WorkerId, outcome: Outcome)
    | Finish(w: WorkerId, wrote: bool)
    | Deregister(w: WorkerId)
    | Cancel(id: JobId)
    | Stop
    | FailStale(wrote: bool)
    | Restart(n: nat, wrote: bool)

  predicate Active(status: Status) {
    status == Queued || status == Running
  }

  function HeldBy(pc: Pc): Option<JobId> {
    match pc
    case Idle => None
    case Exited => None
    case _ => Some(pc.id)
  }

  /** Between registering in and deleting from the `running` map. */
  predicate InMap(pc: Pc) {
    !pc.Idle? && !pc.Exited? && !pc.Received?
  }

  predicate At(s: State, w: WorkerId) {
    w < |s.workers|
  }

  predicate AllExited(s: State) {
    forall w :: 0 <= w < |s.workers| ==> s.workers[w].Exited?
  }

  /** `UPDATE jobs SET status='error' ... WHERE status IN ('queued','running')`. */
  function FailActive(rows: map<JobId, Status>): map<JobId, Status> {
    map id | id in rows :: if Active(rows[id]) then Error else rows[id]
  }

  function ActiveIds(rows: map<JobId, Status>): set<JobId> {
    set id | id in rows && Active(rows[id])
  }

  predicate Enabled(s: State, a: Action) {
    match a
    case Create => true
    case Send(id) => id in s.sending && |s.queue| < QUEUE_DEPTH
    case Refuse(id, _) => id in s.sending && (s.stopped || |s.queue| == QUEUE_DEPTH)
    case Receive(w) => At(s, w) && s.workers[w].Idle? && s.queue != []
    case Exit(w) => At(s, w) && s.workers[w].Idle? && s.stopped
    case Register(w) => At(s, w) && s.workers[w].Received?
    case Mark(w, _) => At(s, w) && s.workers[w].Registered?
    case Start(w) => At(s, w) && s.workers[w].Marked?
    case Return(w, _) => At(s, w) && s.workers[w].Started?
    case Finish(w, _) => At(s, w) && s.workers[w].Returned?
    case Deregister(w) => At(s, w) && s.workers[w].Finished?
    case Cancel(_) => true
    case Stop => true
    case FailStale(_) => s.stopped && AllExited(s)
    case Restart(n, _) => n >= 1
  }

  /** A row update that may fail; a failed terminal update is remembered. */
  function Terminate(s: State, id: JobId, status: Status, wrote: bool): State {
    if wrote then s.(rows := s.rows[id := status]) else s.(lost := s.lost + {id})
  }

  function Step(s: State, w: WorkerId, pc: Pc): State
    requires At(s, w)
  {
    s.(workers := s.workers[w := pc])
  }

  function Apply(s: State, a: Action): State
    requires Enabled(s, a)
  {
    match a
    case Create =>
      s.(rows := s.rows[s.nextId := Queued], nextId := s.nextId + 1, sending := s.sending + {s.nextId})
    case Send(id) => s.(queue := s.queue + [id], sending := s.sending - {id})
    case Refuse(id, wrote) => Terminate(s, id, Error, wrote).(sending := s.sending - {id})
    case Receive(w) => Step(s, w, Received(s.queue[0])).(queue := s.queue[1..])
    case Exit(w) => Step(s, w, Exited)
    case Register(w) =>
      var id := s.workers[w].id;
      Step(s, w, Registered(id)).(running := s.running + {id})
    case Mark(w, wrote) =>
      var id := s.workers[w].id;
      Step(s, w, Marked(id)).(rows := if wrote then s.rows[id := Running] else s.rows)
    case Start(w) =>
      var id := s.workers[w].id;
      Step(s, w, Started(id)).(starts := s.starts + multiset{id})
    case Return(w, outcome) =>
      var id := s.workers[w].id;
      Step(s, w, Returned(id, outcome == ReturnsNil))
        .(returnedNil := if outcome == ReturnsNil then s.returnedNil + {id} else s.returnedNil)
    case Finish(w, wrote) =>
      var pc := s.workers[w];
      Terminate(Step(s, w, Finished(pc.id)), pc.id, if pc.ok then Done else Error, wrote)
    case Deregister(w) =>
      Step(s, w, Idle).(running := s.running - {s.workers[w].id})
    case Cancel(id) => if id in s.running then s.(canceled := s.canceled + {id}) else s
    case Stop => s.(stopped := true)
    case FailStale(wrote) => if wrote then s.(rows := FailActive(s.rows)) else s.(lost := s.lost + ActiveIds(s.rows))
    case Restart(n, wrote) =>
      State(if wrote then FailActive(s.rows) else s.rows, s.nextId, {}, [], seq(n, _ => Idle), {}, {}, false,
            s.starts, s.returnedNil, if wrote then s.lost else s.lost + ActiveIds(s.rows))
  }

  /** Manager.Cancel's answer. */
  predicate CancelFinds(s: State, id: JobId) {
    id in s.running
  }

  /** The state New leaves on an empty database. */
  function Initial(n: nat): State {
    State(map[], 0, {}, [], seq(n, _ => Idle), {}, {}, false, multiset{}, {}, {})
  }

  ghost predicate CanRun(s: State, actions: seq<Action>)
    decreases |actions|
  {
    actions != [] ==> Enabled(s, actions[0]) && CanRun(Apply(s, actions[0]), actions[1..])
  }

  ghost function Run(s: State, actions: seq<Action>): State
    requires CanRun(s, actions)
    decreases |actions|
  {
    if actions == [] then s else Run(Apply(s, actions[0]), actions[1..])
  }

  // ---------------------------------------------------------------- the invariant

  predicate Holds(s: State, w: WorkerId, id: JobId) {
    At(s, w) && HeldBy(s.workers[w]) == Some(id)
  }

  /** Worker w holds the job between register and deregister. */
  predicate Registers(s: State, w: WorkerId, id: JobId) {
    Holds(s, w, id) && InMap(s.workers[w])
  }

  predicate NoDuplicates(ids: seq<JobId>) {
    forall i, j :: 0 <= i < j < |ids| ==> ids[i] != ids[j]
  }

  /** Every job is in one place only. */
  ghost predicate PlaceInv(s: State) {
    && |s.workers| >= 1 && |s.queue| <= QUEUE_DEPTH
    && NoDuplicates(s.queue)
    && (forall id :: id in s.queue ==> id !in s.sending && id < s.nextId)
    && (forall id :: id in s.sending ==> id < s.nextId)
    && (forall w: WorkerId, id: JobId :: Holds(s, w, id) ==> id !in s.queue && id !in s.sending && id < s.nextId)
    && (forall w: WorkerId, v: WorkerId, id: JobId :: Holds(s, w, id) && Holds(s, v, id) ==> w == v)
  }

  /** The map's keys are the jobs between register and deregister. */
  ghost predicate MapInv(s: State) {
    forall id: JobId :: id in s.running <==> exists w: WorkerId :: Registers(s, w, id)
  }

  /** What a worker's position says about the row of the job it holds. */
  predicate PcRow(s: State, pc: Pc) {
    match pc
    case Idle => true
    case Exited => true
    case Received(id) => id in s.rows && s.rows[id] == Queued && s.starts[id] == 0
    case Registered(id) => id in s.rows && s.rows[id] == Queued && s.starts[id] == 0
    case Marked(id) => id in s.rows && Active(s.rows[id]) && s.starts[id] == 0
    case Started(id) => id in s.rows && Active(s.rows[id]) && s.starts[id] == 1
    case Returned(id, ok) => id in s.rows && Active(s.rows[id]) && s.starts[id] == 1 && (ok ==> id in s.returnedNil)
    case Finished(id) => id in s.rows && (!Active(s.rows[id]) || id in s.lost)
  }

  /** A job that waits has not started, and is still queued unless the workers are gone. */
  predicate Waiting(s: State, id: JobId) {
    && id in s.rows && s.starts[id] == 0
    && (s.rows[id] == Queued || (s.stopped && AllExited(s) && s.rows[id] == Error))
  }

  /** Some goroutine or the queue still has the job to run. */
  ghost predicate Live(s: State, id: JobId) {
    id in s.sending || id in s.queue || exists w: WorkerId :: Holds(s, w, id) && !s.workers[w].Finished?
  }

  ghost predicate RowInv(s: State) {
    && (forall id: JobId :: id in s.rows <==> id < s.nextId)
    && (forall id :: id in s.sending ==> Waiting(s, id))
    && (forall id :: id in s.queue ==> Waiting(s, id))
    && (forall w :: 0 <= w < |s.workers| ==> PcRow(s, s.workers[w]))
    && (forall id :: s.starts[id] <= 1 && (s.starts[id] > 0 ==> id < s.nextId))
    && (forall id :: id in s.rows && s.rows[id] == Done ==> id in s.returnedNil && s.starts[id] == 1)
    && (forall id :: id in s.rows && Active(s.rows[id]) && id !in s.lost ==> Live(s, id))
  }

  ghost predicate Inv(s: State) {
    PlaceInv(s) && MapInv(s) && RowInv(s)
  }

  // ------------------------------------------------------------- every step keeps it

  /** The job a worker holds after a step. */
  lemma HoldsAfter(s: State, a: Action)
    requires Enabled(s, a) && !a.Restart?
    ensures forall v: WorkerId, id: JobId :: Holds(Apply(s, a), v, id) <==>
              if a.Receive? && v == a.w then id == s.queue[0]
              else if a.Deregister? && v == a.w then false
              else Holds(s, v, id)
  {
  }

  /** Ids only grow, and only a new one can join the Enqueue calls in progress. */
  lemma IdsAfter(s: State, a: Action)
    requires Enabled(s, a)
    ensures s.nextId <= Apply(s, a).nextId
    ensures Apply(s, a).sending <= s.sending + {s.nextId}
  {
  }

  lemma StoppedAfter(s: State, a: Action)
    requires Enabled(s, a)
    ensures Apply(s, a).stopped == (a.Stop? || (s.stopped && !a.Restart?))
  {
  }

  /** The queue and the Enqueue calls in progress after a step. */
  lemma QueueAfter(s: State, a: Action)
    requires Enabled(s, a)
    ensures var next := Apply(s, a);
            && next.queue == (if a.Send? then s.queue + [a.id] else if a.Receive? then s.queue[1..]
                              else if a.Restart? then [] else s.queue)
            && next.sending == (if a.Create? then s.sending + {s.nextId} else if a.Send? || a.Refuse? then s.sending - {a.id}
                                else if a.Restart? then {} else s.sending)
            && next.nextId == (if a.Create? then s.nextId + 1 else s.nextId)
            && |next.workers| == (if a.Restart? then a.n else |s.workers|)
  {
  }

  lemma QueuePlaceStep(s: State, a: Action)
    requires PlaceInv(s) && Enabled(s, a)
    ensures var next := Apply(s, a);
            && |next.workers| >= 1 && |next.queue| <= QUEUE_DEPTH && NoDuplicates(next.queue)
            && (forall id :: id in next.queue ==> id !in next.sending && id < next.nextId)
            && (forall id :: id in next.sending ==> id < next.nextId)
            && (a.Receive? ==> s.queue[0] !in next.queue)
  {
    var next := Apply(s, a);
    QueueAfter(s, a);
    if a.Receive? {
      assert s.queue[0] in s.queue;
      assert forall i :: 0 <= i < |s.queue| - 1 ==> s.queue[1..][i] == s.queue[i + 1];
    }
    forall id | id in next.queue
      ensures id !in next.sending && id < next.nextId
    {
      assert id in s.queue || (a.Send? && id == a.id);
    }
  }

  /** A job held after a step is in no queue, and was held or received. */
  lemma HeldPlaceStep(s: State, a: Action, v: WorkerId, id: JobId)
    requires PlaceInv(s) && Enabled(s, a) && !a.Restart? && Holds(Apply(s, a), v, id)
    ensures var next := Apply(s, a); id !in next.queue && id !in next.sending && id < next.nextId
    ensures Holds(s, v, id) || (a.Receive? && v == a.w && id == s.queue[0])
  {
    HoldsAfter(s, a);
    QueueAfter(s, a);
    QueuePlaceStep(s, a);
    if a.Receive? && v == a.w {
      assert s.queue[0] in s.queue;
    } else {
      assert Holds(s, v, id);
    }
  }

  lemma PlaceInvStep(s: State, a: Action)
    requires PlaceInv(s) && Enabled(s, a)
    ensures PlaceInv(Apply(s, a))
  {
    var next := Apply(s, a);
    QueuePlaceStep(s, a);
    if a.Restart? {
      assert forall v: WorkerId, id: JobId :: !Holds(next, v, id);
    } else {
      forall v: WorkerId, id: JobId | Holds(next, v, id)
        ensures id !in next.queue && id !in next.sending && id < next.nextId
      {
        HeldPlaceStep(s, a, v, id);
      }
      forall v: WorkerId, w: WorkerId, id: JobId | Holds(next, v, id) && Holds(next, w, id)
        ensures v == w
      {
        HeldPlaceStep(s, a, v, id);
        HeldPlaceStep(s, a, w, id);
        if a.Receive? {
          assert s.queue[0] in s.queue;
        }
      }
    }
  }

  lemma MapInvStep(s: State, a: Action)
    requires PlaceInv(s) && MapInv(s) && Enabled(s, a)
    ensures MapInv(Apply(s, a))
  {
    var next := Apply(s, a);
    if !a.Restart? {
      HoldsAfter(s, a);
      forall id: JobId
        ensures id in next.running <==> exists w: WorkerId :: Registers(next, w, id)
      {
        MapEntryStep(s, a, id);
      }
    }
  }

  lemma RegistersAfter(s: State, a: Action, w: WorkerId, id: JobId)
    requires Enabled(s, a) && !a.Restart?
    ensures Registers(Apply(s, a), w, id) <==>
            if a.Register? && w == a.w then id == s.workers[w].id
            else Registers(s, w, id) && !(a.Deregister? && w == a.w)
  {
  }

  lemma MapEntryStep(s: State, a: Action, id: JobId)
    requires PlaceInv(s) && MapInv(s) && Enabled(s, a) && !a.Restart?
    ensures id in Apply(s, a).running <==> exists w: WorkerId :: Registers(Apply(s, a), w, id)
  {
    var next := Apply(s, a);
    if id in next.running {
      if a.Register? && id == s.workers[a.w].id {
        RegistersAfter(s, a, a.w, id);
      } else {
        var w: WorkerId :| Registers(s, w, id);
        RegistersAfter(s, a, w, id);
      }
    }
    if w: WorkerId :| Registers(next, w, id) {
      RegistersAfter(s, a, w, id);
      if a.Deregister? {
        assert Holds(s, a.w, s.workers[a.w].id);
      }
    }
  }

  predicate WorkerAction(a: Action) {
    a.Receive? || a.Exit? || a.Register? || a.Mark? || a.Start? || a.Return? || a.Finish? || a.Deregister?
  }

  /** A worker's own step moves its job on as its next position says. */
  lemma PcRowOwn(s: State, a: Action)
    requires PlaceInv(s) && RowInv(s) && Enabled(s, a) && WorkerAction(a)
    ensures PcRow(Apply(s, a), Apply(s, a).workers[a.w])
  {
    assert PcRow(s, s.workers[a.w]);
    if a.Receive? {
      assert s.queue[0] in s.queue;
      assert Waiting(s, s.queue[0]);
    }
  }

  /** The other goroutines leave a held job's row and history alone. */
  lemma HeldUntouched(s: State, a: Action, v: WorkerId, id: JobId)
    requires PlaceInv(s) && RowInv(s) && Enabled(s, a) && !a.Restart?
    requires Holds(s, v, id) && !(WorkerAction(a) && a.w == v)
    ensures var next := Apply(s, a);
            && next.workers[v] == s.workers[v] && next.starts[id] == s.starts[id]
            && id in s.rows && id in next.rows && next.rows[id] == s.rows[id]
            && (id in s.lost ==> id in next.lost) && (id in s.returnedNil ==> id in next.returnedNil)
  {
    assert PcRow(s, s.workers[v]);
    if WorkerAction(a) && HeldBy(s.workers[a.w]).Some? {
      assert Holds(s, a.w, s.workers[a.w].id);
    }
  }

  lemma PcRowStep(s: State, a: Action, v: WorkerId)
    requires PlaceInv(s) && RowInv(s) && Enabled(s, a) && !a.Restart? && At(s, v)
    ensures PcRow(Apply(s, a), Apply(s, a).workers[v])
  {
    assert PcRow(s, s.workers[v]);
    if WorkerAction(a) && a.w == v {
      PcRowOwn(s, a);
    } else if HeldBy(s.workers[v]).Some? {
      HeldUntouched(s, a, v, s.workers[v].id);
    }
  }

  /** A job that waits after a step waited before it, or is new. */
  lemma WaitedBefore(s: State, a: Action, id: JobId)
    requires Enabled(s, a) && !a.Restart?
    requires id in Apply(s, a).sending || id in Apply(s, a).queue
    ensures id in s.sending || id in s.queue || (a.Create? && id == s.nextId)
    ensures a.Refuse? && id !in s.queue ==> a.id != id
  {
    if a.Receive? {
      assert forall x :: x in s.queue[1..] ==> x in s.queue;
    }
  }

  /** Steps that are not about a job leave its row and its start count alone; shutting down ends it. */
  lemma RowsOfOthers(s: State, a: Action, id: JobId)
    requires Enabled(s, a) && !a.Restart? && id in s.rows
    requires !(a.Create? && id == s.nextId) && !(a.Refuse? && a.id == id)
    requires WorkerAction(a) && HeldBy(s.workers[a.w]).Some? ==> s.workers[a.w].id != id
    ensures var next := Apply(s, a);
            && id in next.rows && next.starts[id] == s.starts[id]
            && (next.rows[id] == s.rows[id] || (a.FailStale? && Active(s.rows[id]) && next.rows[id] == Error))
  {
  }

  lemma WaitingStays(s: State, a: Action, id: JobId)
    requires PlaceInv(s) && Waiting(s, id) && (id in s.sending || id in s.queue)
    requires Enabled(s, a) && !a.Restart? && !(a.Create? && id == s.nextId) && !(a.Refuse? && a.id == id)
    ensures Waiting(Apply(s, a), id)
  {
    if WorkerAction(a) && HeldBy(s.workers[a.w]).Some? {
      assert Holds(s, a.w, s.workers[a.w].id);
    }
    RowsOfOthers(s, a, id);
    StoppedAfter(s, a);
  }

  lemma WaitingStep(s: State, a: Action, id: JobId)
    requires PlaceInv(s) && RowInv(s) && Enabled(s, a) && !a.Restart?
    requires id in Apply(s, a).sending || id in Apply(s, a).queue
    ensures Waiting(Apply(s, a), id)
  {
    WaitedBefore(s, a, id);
    if a.Create? && id == s.nextId {
      assert s.starts[id] == 0;
    } else {
      assert Waiting(s, id);
      WaitingStays(s, a, id);
    }
  }

  lemma LiveWaiting(s: State, a: Action, id: JobId)
    requires PlaceInv(s) && Enabled(s, a) && !a.Restart?
    requires id in s.sending || id in s.queue
    requires !(a.Refuse? && a.id == id)
    ensures Live(Apply(s, a), id)
  {
    var next := Apply(s, a);
    if a.Receive? && id == s.queue[0] {
      assert Holds(next, a.w, id) && !next.workers[a.w].Finished?;
    } else if a.Receive? && id in s.queue {
      assert id in next.queue;
    } else if a.Send? {
      assert id in next.sending || id in next.queue;
    }
  }

  lemma LiveHeld(s: State, a: Action, w: WorkerId, id: JobId)
    requires Enabled(s, a) && !a.Restart?
    requires Holds(s, w, id) && !s.workers[w].Finished? && !(a.Finish? && a.w == w)
    ensures Live(Apply(s, a), id)
  {
    assert Holds(Apply(s, a), w, id) && !Apply(s, a).workers[w].Finished?;
  }

  lemma LiveStep(s: State, a: Action, id: JobId)
    requires PlaceInv(s) && RowInv(s) && Enabled(s, a) && !a.Restart?
    requires id in Apply(s, a).rows && Active(Apply(s, a).rows[id]) && id !in Apply(s, a).lost
    ensures Live(Apply(s, a), id)
  {
    if a.Create? && id == s.nextId {
      assert id in Apply(s, a).sending;
    } else {
      ActiveBefore(s, a, id);
      if id in s.sending || id in s.queue {
        LiveWaiting(s, a, id);
      } else {
        var w: WorkerId :| Holds(s, w, id) && !s.workers[w].Finished?;
        LiveHeld(s, a, w, id);
      }
    }
  }

  /** A row that is active and not lost after a step was so before, and the step did not end its job. */
  lemma ActiveBefore(s: State, a: Action, id: JobId)
    requires PlaceInv(s) && RowInv(s) && Enabled(s, a) && !a.Restart? && !(a.Create? && id == s.nextId)
    requires id in Apply(s, a).rows && Active(Apply(s, a).rows[id]) && id !in Apply(s, a).lost
    ensures Live(s, id)
    ensures !(a.Refuse? && a.id == id)
    ensures a.Finish? ==> s.workers[a.w].id != id
  {
    if WorkerAction(a) {
      assert PcRow(s, s.workers[a.w]);
    }
    assert id in s.rows && Active(s.rows[id]) && id !in s.lost;
  }

  /** The parts of RowInv that do not depend on where a job is. */
  ghost predicate HistoryInv(s: State) {
    && (forall id: JobId :: id in s.rows <==> id < s.nextId)
    && (forall id :: s.starts[id] <= 1 && (s.starts[id] > 0 ==> id < s.nextId))
    && (forall id :: id in s.rows && s.rows[id] == Done ==> id in s.returnedNil && s.starts[id] == 1)
  }

  lemma IdsStep(s: State, a: Action)
    requires Enabled(s, a) && forall id: JobId :: id in s.rows <==> id < s.nextId
    requires WorkerAction(a) ==> PcRow(s, s.workers[a.w])
    requires a.Refuse? ==> a.id in s.rows
    ensures forall id: JobId :: id in Apply(s, a).rows <==> id < Apply(s, a).nextId
  {
  }

  lemma StartsStep(s: State, a: Action)
    requires Enabled(s, a) && forall id :: s.starts[id] <= 1 && (s.starts[id] > 0 ==> id < s.nextId)
    requires a.Start? ==> PcRow(s, s.workers[a.w]) && s.workers[a.w].id < s.nextId
    ensures forall id :: Apply(s, a).starts[id] <= 1 && (Apply(s, a).starts[id] > 0 ==> id < Apply(s, a).nextId)
  {
  }

  lemma DoneStep(s: State, a: Action, id: JobId)
    requires RowInv(s) && Enabled(s, a) && (WorkerAction(a) ==> PcRow(s, s.workers[a.w]))
    requires id in Apply(s, a).rows && Apply(s, a).rows[id] == Done
    ensures id in Apply(s, a).returnedNil && Apply(s, a).starts[id] == 1
  {
  }

  lemma HistoryStep(s: State, a: Action)
    requires PlaceInv(s) && RowInv(s) && Enabled(s, a)
    ensures HistoryInv(Apply(s, a))
  {
    if WorkerAction(a) {
      assert PcRow(s, s.workers[a.w]);
    } else if a.Send? || a.Refuse? {
      assert Waiting(s, a.id);
    }
    IdsStep(s, a);
    StartsStep(s, a);
    forall id | id in Apply(s, a).rows && Apply(s, a).rows[id] == Done
      ensures id in Apply(s, a).returnedNil && Apply(s, a).starts[id] == 1
    {
      DoneStep(s, a, id);
    }
  }

  lemma RestartRows(s: State, a: Action)
    requires RowInv(s) && Enabled(s, a) && a.Restart?
    ensures RowInv(Apply(s, a))
  {
  }

  lemma RowInvStep(s: State, a: Action)
    requires PlaceInv(s) && RowInv(s) && Enabled(s, a)
    ensures RowInv(Apply(s, a))
  {
    if a.Restart? {
      RestartRows(s, a);
    } else {
      var next := Apply(s, a);
      HistoryStep(s, a);
      forall w: WorkerId | At(next, w)
        ensures PcRow(next, next.workers[w])
      {
        PcRowStep(s, a, w);
      }
      forall id | id in next.sending || id in next.queue
        ensures Waiting(next, id)
      {
        WaitingStep(s, a, id);
      }
      forall id | id in next.rows && Active(next.rows[id]) && id !in next.lost
        ensures Live(next, id)
      {
        LiveStep(s, a, id);
      }
    }
  }

  lemma InvStep(s: State, a: Action)
    requires Inv(s) && Enabled(s, a)
    ensures Inv(Apply(s, a))
  {
    PlaceInvStep(s, a);
    MapInvStep(s, a);
    RowInvStep(s, a);
  }

  lemma InitialInv(n: nat)
    requires n >= 1
    ensures Inv(Initial(n))
  {
  }

  lemma {:induction false} InvHolds(s: State, actions: seq<Action>)
    requires Inv(s) && CanRun(s, actions)
    ensures Inv(Run(s, actions))
    decreases |actions|
  {
    if actions != [] {
      InvStep(s, actions[0]);
      InvHolds(Apply(s, actions[0]), actions[1..]);
    }
  }

  // -------------------------------------------------------------------- main results

  /**
   In every interleaving, a job whose row says running is in the `running` map, so Cancel
   finds it and cancels its context; the one exception is a row whose terminal update failed.
   */
  lemma RunningJobsCanBeCanceled(n: nat, actions: seq<Action>, id: JobId)
    requires n >= 1 && CanRun(Initial(n), actions)
    requires var s := Run(Initial(n), actions); id in s.rows && s.rows[id] == Running && id !in s.lost
    ensures var s := Run(Initial(n), actions);
            CancelFinds(s, id) && id in Apply(s, Cancel(id)).canceled
  {
    InitialInv(n);
    InvHolds(Initial(n), actions);
    var s := Run(Initial(n), actions);
    assert Live(s, id);
    assert id !in s.sending && id !in s.queue;
    var w: WorkerId :| Holds(s, w, id) && !s.workers[w].Finished?;
    assert PcRow(s, s.workers[w]);
    assert Registers(s, w, id);
  }

  /** The map's keys are the jobs between register and deregister: no more than there are workers, and at most 64 wait. */
  lemma Bounds(n: nat, actions: seq<Action>)
    requires n >= 1 && CanRun(Initial(n), actions)
    ensures var s := Run(Initial(n), actions);
            && |s.queue| <= QUEUE_DEPTH
            && (forall id: JobId :: CancelFinds(s, id) <==> exists w: WorkerId :: Registers(s, w, id))
            && |s.running| <= |s.workers|
  {
    InitialInv(n);
    InvHolds(Initial(n), actions);
    var s := Run(Initial(n), actions);
    forall id | id in s.running
      ensures id in HeldIds(s.workers)
    {
      var w: WorkerId :| Registers(s, w, id);
      assert s.workers[w] in s.workers;
    }
    HeldIdsBound(s.workers);
    SubsetSize(s.running, HeldIds(s.workers));
  }

  function HeldIds(pcs: seq<Pc>): set<JobId> {
    set pc | pc in pcs && HeldBy(pc).Some? :: HeldBy(pc).value
  }

  lemma {:induction false} HeldIdsBound(pcs: seq<Pc>)
    ensures |HeldIds(pcs)| <= |pcs|
  {
    if pcs != [] {
      HeldIdsBound(pcs[1..]);
      var rest := HeldIds(pcs[1..]);
      if HeldBy(pcs[0]).Some? {
        assert HeldIds(pcs) == rest + {HeldBy(pcs[0]).value} by {
          assert forall pc :: pc in pcs <==> pc == pcs[0] || pc in pcs[1..];
        }
      } else {
        assert HeldIds(pcs) == rest by {
          assert forall pc :: pc in pcs <==> pc == pcs[0] || pc in pcs[1..];
        }
      }
    }
  }

  lemma {:induction false} SubsetSize<T>(a: set<T>, b: set<T>)
    requires a <= b
    ensures |a| <= |b|
  {
    assert b == a + (b - a);
  }

  /** Each job's task starts at most once, over any number of restarts; done means it started and returned nil. */
  lemma TasksStartOnce(n: nat, actions: seq<Action>, id: JobId)
    requires n >= 1 && CanRun(Initial(n), actions)
    ensures var s := Run(Initial(n), actions);
            && s.starts[id] <= 1
            && (id in s.rows && s.rows[id] == Done ==> s.starts[id] == 1 && id in s.returnedNil)
  {
    InitialInv(n);
    InvHolds(Initial(n), actions);
  }

  /** Statuses a row may show later: a terminal one stays, running never goes back to queued. */
  predicate MayBecome(before: Status, later: Status) {
    before == later || before == Queued || (before == Running && !Active(later))
  }

  lemma RowMovesForward(s: State, a: Action, id: JobId)
    requires Inv(s) && Enabled(s, a) && id in s.rows
    ensures id in Apply(s, a).rows && MayBecome(s.rows[id], Apply(s, a).rows[id])
  {
    if WorkerAction(a) {
      assert PcRow(s, s.workers[a.w]);
    } else if a.Refuse? {
      assert Waiting(s, a.id);
    }
  }

  /** Over every run, restarts included, rows only move forward and a terminal status never changes. */
  lemma {:induction false} RowsMoveForward(s: State, actions: seq<Action>, id: JobId)
    requires Inv(s) && CanRun(s, actions) && id in s.rows
    ensures id in Run(s, actions).rows && MayBecome(s.rows[id], Run(s, actions).rows[id])
    decreases |actions|
  {
    if actions != [] {
      InvStep(s, actions[0]);
      RowMovesForward(s, actions[0], id);
      RowsMoveForward(Apply(s, actions[0]), actions[1..], id);
    }
  }

  /** After the reconciling update of Shutdown or New, every row that exists is terminal, for good. */
  lemma ReconciledRowsStayTerminal(n: nat, actions: seq<Action>, a: Action, later: seq<Action>, id: JobId)
    requires n >= 1 && CanRun(Initial(n), actions)
    requires (a.FailStale? || a.Restart?) && a.wrote && Enabled(Run(Initial(n), actions), a)
    requires CanRun(Apply(Run(Initial(n), actions), a), later)
    requires id in Run(Initial(n), actions).rows
    ensures var s := Apply(Run(Initial(n), actions), a);
            && id in s.rows && !Active(s.rows[id])
            && id in Run(s, later).rows && Run(s, later).rows[id] == s.rows[id]
  {
    InitialInv(n);
    InvHolds(Initial(n), actions);
    InvStep(Run(Initial(n), actions), a);
    RowsMoveForward(Apply(Run(Initial(n), actions), a), later, id);
  }

  // ------------------------------------------------------- when every update succeeds

  predicate Written(a: Action) {
    match a
    case Refuse(_, wrote) => wrote
    case Mark(_, wrote) => wrote
    case Finish(_, wrote) => wrote
    case FailStale(wrote) => wrote
    case Restart(_, wrote) => wrote
    case _ => true
  }

  predicate AllWritten(actions: seq<Action>) {
    forall i :: 0 <= i < |actions| ==> Written(actions[i])
  }

  ghost predicate WrittenInv(s: State) {
    && s.lost == {}
    && forall w :: 0 <= w < |s.workers| && PastMark(s.workers[w]) ==>
         s.workers[w].id in s.rows && s.rows[s.workers[w].id] == Running
  }

  predicate PastMark(pc: Pc) {
    pc.Marked? || pc.Started? || pc.Returned?
  }

  /** The worker that moves: marking its row, or going on with a marked one. */
  lemma OwnRowWritten(s: State, a: Action)
    requires Inv(s) && WrittenInv(s) && Enabled(s, a) && Written(a) && WorkerAction(a)
    ensures var next := Apply(s, a);
            a.w < |next.workers| && (PastMark(next.workers[a.w]) ==>
              next.workers[a.w].id in next.rows && next.rows[next.workers[a.w].id] == Running)
  {
  }

  lemma WrittenInvStep(s: State, a: Action)
    requires Inv(s) && WrittenInv(s) && Enabled(s, a) && Written(a)
    ensures WrittenInv(Apply(s, a))
  {
    var next := Apply(s, a);
    forall v | 0 <= v < |next.workers| && PastMark(next.workers[v])
      ensures next.workers[v].id in next.rows && next.rows[next.workers[v].id] == Running
    {
      if WorkerAction(a) && a.w == v {
        OwnRowWritten(s, a);
      } else if !a.Restart? {
        HeldUntouched(s, a, v, s.workers[v].id);
      }
    }
  }

  /** The status changes of one step when updates succeed: queued to running to terminal, or queued to error. */
  predicate ProperMove(before: Status, later: Status) {
    || before == later
    || (before == Queued && later == Running)
    || (before == Queued && later == Error)
    || (before == Running && !Active(later))
  }

  lemma {:induction false} WrittenHolds(s: State, actions: seq<Action>)
    requires Inv(s) && WrittenInv(s) && CanRun(s, actions) && AllWritten(actions)
    ensures Inv(Run(s, actions)) && WrittenInv(Run(s, actions))
    decreases |actions|
  {
    if actions != [] {
      InvStep(s, actions[0]);
      WrittenInvStep(s, actions[0]);
      WrittenHolds(Apply(s, actions[0]), actions[1..]);
    }
  }

  /** In a run whose updates all succeed, each step moves each row properly, and no running row is out of Cancel's reach. */
  lemma StatusMoves(n: nat, actions: seq<Action>, a: Action, id: JobId)
    requires n >= 1 && CanRun(Initial(n), actions) && AllWritten(actions)
    requires Enabled(Run(Initial(n), actions), a) && Written(a)
    requires id in Run(Initial(n), actions).rows
    ensures var s := Run(Initial(n), actions);
            && s.lost == {}
            && id in Apply(s, a).rows && ProperMove(s.rows[id], Apply(s, a).rows[id])
            && (s.rows[id] == Running ==> CancelFinds(s, id))
  {
    InitialInv(n);
    WrittenHolds(Initial(n), actions);
    var s := Run(Initial(n), actions);
    RowMovesForward(s, a, id);
    if s.rows[id] == Running {
      RunningJobsCanBeCanceled(n, actions, id);
    }
  }

  // --------------------------------------------- rows whose terminal update failed

  /** A lost job is held by no worker but one that is about to deregister it, and starts no more. */
  ghost predicate LostInv(s: State) {
    && (forall id :: id in s.lost ==> id < s.nextId)
    && (forall w: WorkerId, id: JobId :: id in s.lost && Holds(s, w, id) ==> s.workers[w].Finished?)
    && (forall id :: id in s.lost && (id in s.sending || id in s.queue) ==> s.stopped && AllExited(s))
  }

  lemma LostAfter(s: State, a: Action)
    requires Enabled(s, a)
    ensures Apply(s, a).lost == s.lost + (match a
                                          case Refuse(id, wrote) => if wrote then {} else {id}
                                          case Finish(w, wrote) => if wrote then {} else {s.workers[w].id}
                                          case FailStale(wrote) => if wrote then {} else ActiveIds(s.rows)
                                          case Restart(_, wrote) => if wrote then {} else ActiveIds(s.rows)
                                          case _ => {})
  {
  }

  lemma ExitedAfter(s: State, a: Action)
    requires Enabled(s, a) && s.stopped && AllExited(s) && !a.Restart?
    ensures Apply(s, a).stopped && AllExited(Apply(s, a))
  {
  }

  lemma LostHeldStep(s: State, a: Action, w: WorkerId, id: JobId)
    requires PlaceInv(s) && LostInv(s) && Enabled(s, a) && !a.Restart?
    requires id in Apply(s, a).lost && Holds(Apply(s, a), w, id)
    ensures Apply(s, a).workers[w].Finished?
  {
    LostAfter(s, a);
    HeldPlaceStep(s, a, w, id);
    if a.Receive? {
      assert s.queue[0] in s.queue && s.workers[a.w] == Idle;
      assert id in s.lost;
      assert Holds(s, w, id);
    } else if a.Finish? {
      assert Holds(s, a.w, s.workers[a.w].id) && Holds(s, w, id);
    } else {
      assert Holds(s, w, id);
    }
  }

  lemma LostWaitsStep(s: State, a: Action, id: JobId)
    requires PlaceInv(s) && RowInv(s) && LostInv(s) && Enabled(s, a)
    requires id in Apply(s, a).lost && (id in Apply(s, a).sending || id in Apply(s, a).queue)
    ensures Apply(s, a).stopped && AllExited(Apply(s, a))
  {
    LostAfter(s, a);
    if !a.Restart? {
      WaitedBefore(s, a, id);
      if a.Finish? && id == s.workers[a.w].id {
        assert Holds(s, a.w, id);
      }
      if id in s.lost && (id in s.sending || id in s.queue) {
        ExitedAfter(s, a);
      }
    }
  }

  lemma LostInvStep(s: State, a: Action)
    requires PlaceInv(s) && RowInv(s) && LostInv(s) && Enabled(s, a)
    ensures LostInv(Apply(s, a))
  {
    var next := Apply(s, a);
    LostAfter(s, a);
    QueueAfter(s, a);
    if a.Finish? {
      assert Holds(s, a.w, s.workers[a.w].id);
    }
    if !a.Restart? {
      forall w: WorkerId, id: JobId | id in next.lost && Holds(next, w, id)
        ensures next.workers[w].Finished?
      {
        LostHeldStep(s, a, w, id);
      }
    }
    forall id | id in next.lost && (id in next.sending || id in next.queue)
      ensures next.stopped && AllExited(next)
    {
      LostWaitsStep(s, a, id);
    }
  }

  lemma {:induction false} LostHolds(s: State, actions: seq<Action>)
    requires Inv(s) && LostInv(s) && CanRun(s, actions)
    ensures Inv(Run(s, actions)) && LostInv(Run(s, actions))
    decreases |actions|
  {
    if actions != [] {
      InvStep(s, actions[0]);
      LostInvStep(s, actions[0]);
      LostHolds(Apply(s, actions[0]), actions[1..]);
    }
  }

  /**
   Exactly which running rows Cancel finds, in every reachable state: those whose terminal update
   has not failed, and those whose worker has not deregistered the job yet.
   */
  lemma CancelFindsExactly(n: nat, actions: seq<Action>, id: JobId)
    requires n >= 1 && CanRun(Initial(n), actions)
    requires var s := Run(Initial(n), actions); id in s.rows && s.rows[id] == Running
    ensures var s := Run(Initial(n), actions);
            CancelFinds(s, id) <==> id !in s.lost || exists w: WorkerId :: At(s, w) && s.workers[w] == Finished(id)
  {
    InitialInv(n);
    LostHolds(Initial(n), actions);
    var s := Run(Initial(n), actions);
    if id !in s.lost {
      RunningJobsCanBeCanceled(n, actions, id);
    } else {
      forall w: WorkerId
        ensures Registers(s, w, id) <==> At(s, w) && s.workers[w] == Finished(id)
      {
        assert Registers(s, w, id) ==> Holds(s, w, id);
      }
    }
  }

  /** No goroutine and no queue has the job any more. */
  ghost predicate Gone(s: State, id: JobId) {
    id < s.nextId && id !in s.sending && id !in s.queue && forall w: WorkerId :: !Holds(s, w, id)
  }

  lemma GoneStep(s: State, a: Action, id: JobId)
    requires Enabled(s, a) && Gone(s, id)
    ensures Gone(Apply(s, a), id)
  {
    QueueAfter(s, a);
    if !a.Restart? {
      HoldsAfter(s, a);
      if a.Receive? {
        assert s.queue[0] in s.queue;
      }
    }
  }

  /** Does the action end every active row? */
  predicate Reconciles(a: Action) {
    (a.FailStale? || a.Restart?) && a.wrote
  }

  lemma GoneRowStep(s: State, a: Action, id: JobId)
    requires Inv(s) && Enabled(s, a) && Gone(s, id) && id in s.rows && !Reconciles(a)
    ensures id in Apply(s, a).rows && Apply(s, a).rows[id] == s.rows[id]
  {
    if WorkerAction(a) && HeldBy(s.workers[a.w]).Some? {
      assert Holds(s, a.w, s.workers[a.w].id);
    }
  }

  /** A job that is gone stays gone: over every later run Cancel never finds it, and only a reconciling step touches its row. */
  lemma {:induction false} GoneForever(s: State, actions: seq<Action>, id: JobId)
    requires Inv(s) && Gone(s, id) && CanRun(s, actions) && id in s.rows
    ensures !CancelFinds(Run(s, actions), id)
    ensures (forall i :: 0 <= i < |actions| ==> !Reconciles(actions[i])) ==>
              id in Run(s, actions).rows && Run(s, actions).rows[id] == s.rows[id]
    decreases |actions|
  {
    if actions == [] {
      assert forall w: WorkerId :: Registers(s, w, id) ==> Holds(s, w, id);
    } else {
      InvStep(s, actions[0]);
      GoneStep(s, actions[0], id);
      RowMovesForward(s, actions[0], id);
      GoneForever(Apply(s, actions[0]), actions[1..], id);
      if forall i :: 0 <= i < |actions| ==> !Reconciles(actions[i]) {
        assert !Reconciles(actions[0]);
        GoneRowStep(s, actions[0], id);
        assert forall i :: 0 <= i < |actions[1..]| ==> actions[1..][i] == actions[i + 1];
      }
    }
  }

  /** One step more at the end of a run. */
  lemma {:induction false} RunMore(s: State, actions: seq<Action>, a: Action)
    requires CanRun(s, actions) && Enabled(Run(s, actions), a)
    ensures CanRun(s, actions + [a]) && Run(s, actions + [a]) == Apply(Run(s, actions), a)
    decreases |actions|
  {
    if actions == [] {
      assert [] + [a] == [a] && [a][1..] == [];
    } else {
      assert (actions + [a])[0] == actions[0] && (actions + [a])[1..] == actions[1..] + [a];
      RunMore(Apply(s, actions[0]), actions[1..], a);
    }
  }

  /** The first job is made, accepted and received by worker 0. */
  lemma FirstJobReceived(n: nat) returns (actions: seq<Action>)
    requires n >= 1
    ensures CanRun(Initial(n), actions)
    ensures Run(Initial(n), actions) ==
            Initial(n).(rows := map[0 := Queued], nextId := 1, workers := Initial(n).workers[0 := Received(0)])
  {
    var s := Initial(n);
    RunMore(s, [], Create);
    var a1 := [] + [Create];
    assert Run(s, a1) == s.(rows := map[0 := Queued], nextId := 1, sending := {0});
    RunMore(s, a1, Send(0));
    var a2 := a1 + [Send(0)];
    assert Run(s, a2) == s.(rows := map[0 := Queued], nextId := 1, queue := [0]);
    RunMore(s, a2, Receive(0));
    actions := a2 + [Receive(0)];
  }

  /** The first job, up to the moment its task runs. */
  /** The first job, up to the moment its task runs. */
  lemma FirstJobStarts(n: nat) returns (actions: seq<Action>)
    requires n >= 1
    ensures CanRun(Initial(n), actions)
    ensures Run(Initial(n), actions) ==
            Initial(n).(rows := map[0 := Running], nextId := 1, workers := Initial(n).workers[0 := Started(0)],
                        running := {0}, starts := multiset{0})
  {
    var s := Initial(n);
    var a3 := FirstJobReceived(n);
    RunMore(s, a3, Register(0));
    var a4 := a3 + [Register(0)];
    RunMore(s, a4, Mark(0, true));
    var a5 := a4 + [Mark(0, true)];
    RunMore(s, a5, Start(0));
    actions := a5 + [Start(0)];
    assert Run(s, actions).workers == s.workers[0 := Started(0)];
    assert Run(s, actions).rows == map[0 := Running];
  }

  /**
   When the terminal update of a running row fails, the row keeps saying running and Cancel never
   finds the job again, in this process or a later one: a run that leads there, and every later one.
   */
  lemma LostUpdateCounterexample(n: nat, later: seq<Action>) returns (actions: seq<Action>)
    requires n >= 1
    ensures CanRun(Initial(n), actions)
    ensures var s := Run(Initial(n), actions);
            && 0 in s.rows && s.rows[0] == Running
            && (CanRun(s, later) ==>
                  && !CancelFinds(Run(s, later), 0)
                  && ((forall i :: 0 <= i < |later| ==> !Reconciles(later[i])) ==>
                        0 in Run(s, later).rows && Run(s, later).rows[0] == Running))
  {
    var first := FirstJobStarts(n);
    RunMore(Initial(n), first, Return(0, ReturnsNil));
    var second := first + [Return(0, ReturnsNil)];
    RunMore(Initial(n), second, Finish(0, false));
    var third := second + [Finish(0, false)];
    RunMore(Initial(n), third, Deregister(0));
    actions := third + [Deregister(0)];
    var s := Run(Initial(n), actions);
    assert s.rows == map[0 := Running] && s.nextId == 1 && s.sending == {} && s.queue == [];
    assert s.workers == Initial(n).workers;
    InitialInv(n);
    InvHolds(Initial(n), actions);
    if CanRun(s, later) {
      GoneForever(s, later, 0);
    }
  }

  // ---------------------------------------------------------------------- the object

  /** How Enqueue ends; NotCreated when the row cannot be inserted. */
  datatype EnqueueResult = Accepted | QueueFull | WorkerStopped | NotCreated

  /** A job is accepted while the queue has room, and refused when it is full or the workers stop. */
  predicate CanEnqueue(s: State, result: EnqueueResult) {
    match result
    case Accepted => |s.queue| < QUEUE_DEPTH
    case NotCreated => true
    case _ => s.stopped || |s.queue| == QUEUE_DEPTH
  }

  /** A whole Enqueue with no other goroutine in between. */
  function EnqueueSteps(s: State, result: EnqueueResult, wrote: bool): State
    requires CanEnqueue(s, result)
  {
    if result.NotCreated? then s
    else Apply(Apply(s, Create), if result.Accepted? then Send(s.nextId) else Refuse(s.nextId, wrote))
  }

  /** What a whole execute amounts to when no other goroutine steps in between. */
  function Executed(s: State, w: WorkerId, marked: bool, outcome: Outcome, finished: bool): State
    requires At(s, w) && s.workers[w].Received?
  {
    var id := s.workers[w].id;
    var rows := if marked then s.rows[id := Running] else s.rows;
    s.(rows := if finished then rows[id := if outcome == ReturnsNil then Done else Error] else rows,
       workers := s.workers[w := Idle],
       running := s.running + {id} - {id},
       starts := s.starts + multiset{id},
       returnedNil := if outcome == ReturnsNil then s.returnedNil + {id} else s.returnedNil,
       lost := if finished then s.lost else s.lost + {id})
  }

  lemma ExecuteStarts(s: State, w: WorkerId, marked: bool) returns (started: State)
    requires Inv(s) && At(s, w) && s.workers[w].Received?
    ensures CanRun(s, [Register(w), Mark(w, marked), Start(w)])
    ensures started == Run(s, [Register(w), Mark(w, marked), Start(w)])
    ensures var id := s.workers[w].id;
            started == s.(rows := if marked then s.rows[id := Running] else s.rows,
                          workers := s.workers[w := Started(id)],
                          running := s.running + {id},
                          starts := s.starts + multiset{id})
  {
    var s1 := Apply(s, Register(w));
    var s2 := Apply(s1, Mark(w, marked));
    started := Apply(s2, Start(w));
    RunOne(s2, Start(w), []);
    RunOne(s1, Mark(w, marked), [Start(w)]);
    RunOne(s, Register(w), [Mark(w, marked), Start(w)]);
    assert [Register(w)] + [Mark(w, marked), Start(w)] == [Register(w), Mark(w, marked), Start(w)];
    assert [Mark(w, marked)] + [Start(w)] == [Mark(w, marked), Start(w)];
    assert [Start(w)] + [] == [Start(w)];
  }

  lemma ExecuteEnds(s: State, w: WorkerId, outcome: Outcome, finished: bool) returns (ended: State)
    requires At(s, w) && s.workers[w].Started?
    ensures CanRun(s, [Return(w, outcome), Finish(w, finished), Deregister(w)])
    ensures ended == Run(s, [Return(w, outcome), Finish(w, finished), Deregister(w)])
    ensures var id := s.workers[w].id;
            ended == s.(rows := if finished then s.rows[id := if outcome == ReturnsNil then Done else Error] else s.rows,
                        workers := s.workers[w := Idle],
                        running := s.running - {id},
                        returnedNil := if outcome == ReturnsNil then s.returnedNil + {id} else s.returnedNil,
                        lost := if finished then s.lost else s.lost + {id})
  {
    var s1 := Apply(s, Return(w, outcome));
    var s2 := Apply(s1, Finish(w, finished));
    ended := Apply(s2, Deregister(w));
    RunOne(s2, Deregister(w), []);
    RunOne(s1, Finish(w, finished), [Deregister(w)]);
    RunOne(s, Return(w, outcome), [Finish(w, finished), Deregister(w)]);
    assert [Return(w, outcome)] + [Finish(w, finished), Deregister(w)] == [Return(w, outcome), Finish(w, finished), Deregister(w)];
    assert [Finish(w, finished)] + [Deregister(w)] == [Finish(w, finished), Deregister(w)];
    assert [Deregister(w)] + [] == [Deregister(w)];
  }

  lemma RunOne(s: State, a: Action, rest: seq<Action>)
    requires Enabled(s, a) && CanRun(Apply(s, a), rest)
    ensures CanRun(s, [a] + rest) && Run(s, [a] + rest) == Run(Apply(s, a), rest)
  {
    assert ([a] + rest)[1..] == rest;
  }

  /** Running a received job from register to deregister is one run of the transition system. */
  lemma ExecuteIsARun(s: State, w: WorkerId, marked: bool, outcome: Outcome, finished: bool)
    requires Inv(s) && At(s, w) && s.workers[w].Received?
    ensures var first := [Register(w), Mark(w, marked), Start(w)];
            var second := [Return(w, outcome), Finish(w, finished), Deregister(w)];
            && CanRun(s, first) && CanRun(Run(s, first), second)
            && Run(Run(s, first), second) == Executed(s, w, marked, outcome, finished)
            && Inv(Executed(s, w, marked, outcome, finished))
  {
    var started := ExecuteStarts(s, w, marked);
    var ended := ExecuteEnds(started, w, outcome, finished);
    assert started.workers[w := Idle] == s.workers[w := Idle];
    InvHolds(s, [Register(w), Mark(w, marked), Start(w)]);
    InvHolds(started, [Return(w, outcome), Finish(w, finished), Deregister(w)]);
  }

  /** The Manager with its database; `workers` says where each goroutine is in its loop. */
  /** A call of Enqueue or Cancel that arrives while the manager shuts down. */
  datatype Call = EnqueueCall | CancelCall(id: JobId)

  /** The steps of these calls. */
  predicate CallAction(a: Action) {
    a.Create? || a.Send? || a.Refuse? || a.Cancel?
  }

  class Manager {
    var rows: map<JobId, Status>
    var nextId: JobId
    var ch: seq<JobId>
    var running: set<JobId>
    var canceled: set<JobId>
    var stopped: bool
    var workers: seq<Pc>
    ghost var sending: set<JobId>
    ghost var starts: multiset<JobId>
    ghost var returnedNil: set<JobId>
    ghost var lost: set<JobId>

    ghost function View(): State
      reads this
    {
      State(rows, nextId, sending, ch, workers, running, canceled, stopped, starts, returnedNil, lost)
    }

    /** New: fails what an earlier process left behind, and starts at least one worker. */
    constructor (ghost before: State, rows: map<JobId, Status>, nextId: JobId, n: nat)
      requires rows == before.rows && nextId == before.nextId
      ensures || View() == Apply(before, Restart(if n < 1 then 1 else n, true))
              || View() == Apply(before, Restart(if n < 1 then 1 else n, false))
    {
      var wrote: bool := *;
      this.rows := if wrote then FailActive(rows) else rows;
      this.nextId := nextId;
      ch, running, canceled, stopped := [], {}, {}, false;
      sending, workers := {}, seq(if n < 1 then 1 else n, _ => Idle);
      starts, returnedNil := before.starts, before.returnedNil;
      lost := if wrote then before.lost else before.lost + ActiveIds(rows);
    }

    /** A row update, which may fail. */
    method UpdateRow(id: JobId, status: Status) returns (wrote: bool)
      modifies this`rows
      ensures rows == if wrote then old(rows)[id := status] else old(rows)
    {
      wrote := *;
      if wrote {
        rows := rows[id := status];
      }
    }

    method Enqueue() returns (id: JobId, result: EnqueueResult, ghost wrote: bool)
      requires |ch| <= QUEUE_DEPTH
      modifies this
      ensures !result.NotCreated? ==> id == old(nextId)
      ensures result.QueueFull? ==> |old(ch)| == QUEUE_DEPTH && !old(stopped)
      ensures result.WorkerStopped? ==> old(stopped)
      ensures CanEnqueue(old(View()), result) && View() == EnqueueSteps(old(View()), result, wrote)
    {
      wrote := true;
      var created: bool := *;
      if !created {
        id, result := 0, NotCreated;
        return;
      }
      id := nextId;
      rows, nextId := rows[id := Queued], id + 1;
      var preferSend: bool := *;
      if |ch| < QUEUE_DEPTH && (!stopped || preferSend) {
        ch := ch + [id];
        result := Accepted;
        sending := sending + {id} - {id};
      } else {
        result := if stopped then WorkerStopped else QueueFull;
        var ok := UpdateRow(id, Error);
        wrote := ok;
        sending := sending + {id} - {id};
        lost := if ok then lost else lost + {id};
      }
    }

    /** Stops a running job by id; false if it is not running. */
    method Cancel(id: JobId) returns (ok: bool)
      modifies this`canceled
      ensures ok == CancelFinds(old(View()), id)
      ensures View() == Apply(old(View()), Action.Cancel(id))
    {
      ok := id in running;
      if ok {
        canceled := canceled + {id};
      }
    }

    /** The first half of execute: register the cancel function, mark the row, start its function. */
    method BeginJob(id: JobId) returns (ghost marked: bool)
      modifies this`running, this`rows, this`starts
      ensures running == old(running) + {id} && starts == old(starts) + multiset{id}
      ensures rows == if marked then old(rows)[id := Running] else old(rows)
    {
      running := running + {id};
      var ok := UpdateRow(id, Running);
      marked := ok;
      starts := starts + multiset{id};
    }

    /** The second half: write how the function ended, and deregister. */
    method EndJob(w: WorkerId, id: JobId, outcome: Outcome) returns (ghost finished: bool)
      requires w < |workers|
      modifies this`rows, this`running, this`workers, this`returnedNil, this`lost
      ensures rows == if finished then old(rows)[id := if outcome == ReturnsNil then Done else Error] else old(rows)
      ensures running == old(running) - {id} && workers == old(workers)[w := Idle]
      ensures returnedNil == if outcome == ReturnsNil then old(returnedNil) + {id} else old(returnedNil)
      ensures lost == if finished then old(lost) else old(lost) + {id}
    {
      returnedNil := if outcome == ReturnsNil then returnedNil + {id} else returnedNil;
      var ok := UpdateRow(id, if outcome == ReturnsNil then Done else Error);
      finished := ok;
      lost := if ok then lost else lost + {id};
      running := running - {id};
      workers := workers[w := Idle];
    }

    /** Runs the job a worker has received; how its function ends is the caller's choice. */
    method Execute(w: WorkerId, id: JobId, outcome: Outcome) returns (ghost marked: bool, ghost finished: bool)
      requires At(View(), w) && workers[w] == Received(id)
      modifies this
      ensures View() == Executed(old(View()), w, marked, outcome, finished)
    {
      marked := BeginJob(id);
      finished := EndJob(w, id, outcome);
    }

    /** The next step of a worker: of its loop while it holds no job, else of execute. */
    method Advance(w: WorkerId) returns (ghost a: Action)
      requires At(View(), w) && !workers[w].Exited? && (workers[w].Idle? ==> stopped || ch != [])
      modifies this
      ensures WorkerAction(a) && a.w == w && Enabled(old(View()), a) && View() == Apply(old(View()), a)
    {
      match workers[w] {
        case Idle =>
          var leave: bool := *;
          if stopped && (leave || ch == []) {
            workers := workers[w := Exited];
            a := Exit(w);
          } else {
            ch, workers := ch[1..], workers[w := Received(ch[0])];
            a := Receive(w);
          }
        case Received(id) =>
          running, workers := running + {id}, workers[w := Registered(id)];
          a := Register(w);
        case Registered(id) =>
          var ok := UpdateRow(id, Running);
          workers := workers[w := Marked(id)];
          a := Mark(w, ok);
        case Marked(id) =>
          starts, workers := starts + multiset{id}, workers[w := Started(id)];
          a := Start(w);
        case Started(id) =>
          var outcome: Outcome := *;
          returnedNil := if outcome == ReturnsNil then returnedNil + {id} else returnedNil;
          workers := workers[w := Returned(id, outcome == ReturnsNil)];
          a := Return(w, outcome);
        case Returned(id, nilReturned) =>
          var ok := UpdateRow(id, if nilReturned then Done else Error);
          lost := if ok then lost else lost + {id};
          workers := workers[w := Finished(id)];
          a := Finish(w, ok);
        case Finished(id) =>
          running, workers := running - {id}, workers[w := Idle];
          a := Deregister(w);
      }
    }

    /** A call of another goroutine, as a whole. */
    method Answer(call: Call, ghost start: State, ghost before: seq<Action>) returns (ghost actions: seq<Action>)
      requires |ch| <= QUEUE_DEPTH && CanRun(start, before) && View() == Run(start, before)
      modifies this
      ensures before <= actions && forall i :: |before| <= i < |actions| ==> CallAction(actions[i])
      ensures CanRun(start, actions) && View() == Run(start, actions)
      ensures |ch| <= QUEUE_DEPTH && workers == old(workers) && stopped == old(stopped)
    {
      actions := before;
      match call {
        case CancelCall(id) =>
          var _ := Cancel(id);
          RunMore(start, actions, Action.Cancel(id));
          actions := actions + [Action.Cancel(id)];
        case EnqueueCall =>
          ghost var s := View();
          var id, result;
          ghost var wrote;
          id, result, wrote := Enqueue();
          if !result.NotCreated? {
            ghost var second := if result.Accepted? then Send(s.nextId) else Refuse(s.nextId, wrote);
            RunMore(start, actions, Create);
            RunMore(start, actions + [Create], second);
            actions := actions + [Create] + [second];
          }
      }
    }

    /** One step of some worker that has not left its loop. */
    method StepSome(ghost start: State, ghost before: seq<Action>) returns (ghost actions: seq<Action>)
      requires |ch| <= QUEUE_DEPTH && stopped && !AllExited(View()) && CanRun(start, before) && View() == Run(start, before)
      modifies this
      ensures |actions| == |before| + 1 && before <= actions && WorkerAction(actions[|before|])
      ensures CanRun(start, actions) && View() == Run(start, actions)
      ensures |ch| <= QUEUE_DEPTH && stopped && Left(View()) < Left(old(View()))
    {
      var w :| 0 <= w < |workers| && !workers[w].Exited?;
      ghost var a := Advance(w);
      LeftDrops(Run(start, before), a);
      RunMore(start, before, a);
      actions := before + [a];
    }

    /**
     Waits until every worker has left its loop, in any interleaving of their steps and of calls that
     still arrive.
     */
    method Wait(calls: seq<Call>, ghost start: State, ghost before: seq<Action>) returns (ghost actions: seq<Action>)
      requires |ch| <= QUEUE_DEPTH && stopped && CanRun(start, before) && View() == Run(start, before)
      modifies this
      ensures before <= actions && forall i :: |before| <= i < |actions| ==> WorkerAction(actions[i]) || CallAction(actions[i])
      ensures CanRun(start, actions) && View() == Run(start, actions) && stopped && AllExited(View())
    {
      actions := before;
      var next := 0;
      var waits := true;
      while waits
        invariant 0 <= next <= |calls| && |ch| <= QUEUE_DEPTH && stopped && (!waits ==> AllExited(View()))
        invariant before <= actions && forall i :: |before| <= i < |actions| ==> WorkerAction(actions[i]) || CallAction(actions[i])
        invariant CanRun(start, actions) && View() == Run(start, actions)
        decreases |calls| - next, Left(View()), if waits then 1 else 0
      {
        var arrives: bool := *;
        if arrives && next < |calls| {
          actions := Answer(calls[next], start, actions);
          next := next + 1;
        } else if exists w :: 0 <= w < |workers| && !workers[w].Exited? {
          actions := StepSome(start, actions);
        } else {
          waits := false;
        }
      }
    }

    /** Cancels every context, waits for the workers, and fails what is left. */
    method Shutdown(calls: seq<Call>) returns (ghost wrote: bool, ghost actions: seq<Action>)
      requires |ch| <= QUEUE_DEPTH
      modifies this
      ensures CanRun(old(View()), [Stop] + actions + [FailStale(wrote)])
      ensures View() == Run(old(View()), [Stop] + actions + [FailStale(wrote)])
      ensures forall i :: 0 <= i < |actions| ==> WorkerAction(actions[i]) || CallAction(actions[i])
      ensures AllExited(View()) && (wrote ==> forall id :: id in rows ==> !Active(rows[id]))
    {
      ghost var start := View();
      stopped := true;
      RunMore(start, [], Stop);
      assert [] + [Stop] == [Stop];
      ghost var all := Wait(calls, start, [Stop]);
      actions := all[1..];
      assert all == [Stop] + actions;
      var ok: bool := *;
      wrote := ok;
      RunMore(start, all, FailStale(ok));
      if ok {
        rows := FailActive(rows);
      } else {
        lost := lost + ActiveIds(rows);
      }
    }
  }

  /** How many steps a worker has before it, taking no further job. */
  function StepsAhead(pc: Pc): nat {
    match pc
    case Exited => 0
    case Idle => 1
    case Finished(_) => 2
    case Returned(_, _) => 3
    case Started(_) => 4
    case Marked(_) => 5
    case Registered(_) => 6
    case Received(_) => 7
  }

  function Remaining(workers: seq<Pc>): nat {
    if workers == [] then 0 else StepsAhead(workers[0]) + Remaining(workers[1..])
  }

  /** How many worker steps are left once the workers stop: 7 for each waiting job. */
  function Left(s: State): nat {
    7 * |s.queue| + Remaining(s.workers)
  }

  lemma LeftDrops(s: State, a: Action)
    requires Enabled(s, a) && WorkerAction(a)
    ensures Left(Apply(s, a)) < Left(s)
  {
    RemainingStep(s.workers, a.w, Apply(s, a).workers[a.w]);
  }

  lemma {:induction false} RemainingStep(workers: seq<Pc>, w: nat, pc: Pc)
    requires w < |workers|
    ensures Remaining(workers[w := pc]) == Remaining(workers) - StepsAhead(workers[w]) + StepsAhead(pc)
  {
    if w > 0 {
      RemainingStep(workers[1..], w - 1, pc);
      assert workers[w := pc][1..] == workers[1..][w - 1 := pc];
    } else {
      assert workers[w := pc][1..] == workers[1..];
    }
  }
}
