/**
 internal/sse/bus.go: the publish/subscribe bus. First the lock protocol as a transition
 system over every interleaving of publishers, subscribers and cancels, then the bus object.
 */
module Bus {
  import opened Wrappers

  type ChanId = nat
  type ThreadId = nat

  datatype Event = Event(kind: string, data: string)

  const CAPACITY: nat := 64

  /**
   The life of one subscription: made, inserted under the write lock, open; then deleted
   under the write lock by whoever wins `once`, and closed after the lock is released.
   */
  datatype Phase = Made | Inserting | Inserted | Open | Deleting | Deleted | Unlocked | Closed

  /** One `select` on a channel: the publish it belongs to, and how full the buffer was. */
  datatype Offer = Offer(id: nat, held: nat)

  /**
   Buffers hold publish numbers. The last three fields are history: what was received,
   every offer made, and every publish that began while the channel was in the map.
   */
  datatype Chan = Chan(phase: Phase, closed: bool, buf: seq<nat>, received: seq<nat>, offers: seq<Offer>, heard: seq<nat>)

  /** A publisher inside its read lock: its publish number and the channels still ahead. */
  datatype Publisher = Publisher(id: nat, todo: set<ChanId>)

  datatype State = State(
    subs: set<ChanId>,
    chans: map<ChanId, Chan>,
    readers: map<ThreadId, Publisher>,
    writer: Option<ChanId>,
    log: seq<Event>,
    panicked: bool)

  datatype Action =
    | Make(c: ChanId)
    | LockToInsert(c: ChanId)
    | Insert(c: ChanId)
    | UnlockInserted(c: ChanId)
    | LockToDelete(c: ChanId)
    | Delete(c: ChanId)
    | UnlockDeleted(c: ChanId)
    | Close(c: ChanId)
    | BeginPublish(p: ThreadId, ev: Event)
    | Send(p: ThreadId, c: ChanId)
    | EndPublish(p: ThreadId)
    | Receive(c: ChanId)

  const INITIAL: State := State({}, map[], map[], None, [], false)

  predicate InPhase(s: State, c: ChanId, phase: Phase) {
    c in s.chans && s.chans[c].phase == phase
  }

  predicate LockFree(s: State) {
    s.writer == None && s.readers == map[]
  }

  /** Which step may happen next; the read lock excludes writers and a writer excludes everyone. */
  predicate Enabled(s: State, a: Action) {
    match a
    case Make(c) => c !in s.chans
    case LockToInsert(c) => InPhase(s, c, Made) && LockFree(s)
    case Insert(c) => InPhase(s, c, Inserting)
    case UnlockInserted(c) => InPhase(s, c, Inserted)
    case LockToDelete(c) => InPhase(s, c, Open) && LockFree(s)
    case Delete(c) => InPhase(s, c, Deleting)
    case UnlockDeleted(c) => InPhase(s, c, Deleted)
    case Close(c) => InPhase(s, c, Unlocked)
    case BeginPublish(p, _) => p !in s.readers && s.writer == None
    case Send(p, c) => p in s.readers && c in s.readers[p].todo && c in s.chans
    case EndPublish(p) => p in s.readers && s.readers[p].todo == {}
    case Receive(c) => c in s.chans && s.chans[c].buf != []
  }

  function Moved(s: State, c: ChanId, phase: Phase): State
    requires c in s.chans
  {
    s.(chans := s.chans[c := s.chans[c].(phase := phase)])
  }

  /** The non-blocking send: a closed channel panics, a full buffer skips the event. */
  function Offered(ch: Chan, id: nat): Chan {
    var seen := ch.(offers := ch.offers + [Offer(id, |ch.buf|)]);
    if |ch.buf| < CAPACITY then seen.(buf := ch.buf + [id]) else seen
  }

  function Apply(s: State, a: Action): State
    requires Enabled(s, a)
  {
    match a
    case Make(c) => s.(chans := s.chans[c := Chan(Made, false, [], [], [], [])])
    case LockToInsert(c) => Moved(s, c, Inserting).(writer := Some(c))
    case Insert(c) => Moved(s, c, Inserted).(subs := s.subs + {c})
    case UnlockInserted(c) => Moved(s, c, Open).(writer := None)
    case LockToDelete(c) => Moved(s, c, Deleting).(writer := Some(c))
    case Delete(c) => Moved(s, c, Deleted).(subs := s.subs - {c})
    case UnlockDeleted(c) => Moved(s, c, Unlocked).(writer := None)
    case Close(c) =>
      s.(chans := s.chans[c := s.chans[c].(phase := Closed, closed := true)],
         panicked := s.panicked || s.chans[c].closed)
    case BeginPublish(p, ev) =>
      s.(readers := s.readers[p := Publisher(|s.log|, s.subs)],
         log := s.log + [ev],
         chans := map c | c in s.chans ::
           if c in s.subs then s.chans[c].(heard := s.chans[c].heard + [|s.log|]) else s.chans[c])
    case Send(p, c) =>
      var pub := s.readers[p];
      s.(chans := s.chans[c := Offered(s.chans[c], pub.id)],
         readers := s.readers[p := pub.(todo := pub.todo - {c})],
         panicked := s.panicked || s.chans[c].closed)
    case EndPublish(p) => s.(readers := s.readers - {p})
    case Receive(c) =>
      var ch := s.chans[c];
      s.(chans := s.chans[c := ch.(buf := ch.buf[1..], received := ch.received + [ch.buf[0]])])
  }

  /** A run: the actions can be taken one after another from `s`. */
  ghost predicate CanRun(s: State, actions: seq<Action>)
    decreases |actions|
  {
    actions != [] ==> Enabled(s, actions[0]) && CanRun(Apply(s, actions[0]), actions[1..])
  }

  ghost function Run(s: State, actions: seq<Action>): State
    requires CanRun(s, actions)
    decreases |actions|
  {
    if actions == [] then s else Run(Apply(s, actions[0]), actions[1..])
  }

  // ------------------------------------------------------------------- safety

  predicate Listed(phase: Phase) {
    phase == Inserted || phase == Open || phase == Deleting
  }

  predicate HoldsLock(phase: Phase) {
    phase == Inserting || phase == Inserted || phase == Deleting || phase == Deleted
  }

  /** The publish numbers that went into the buffer, in order. */
  function Accepted(offers: seq<Offer>): seq<nat> {
    if offers == [] then []
    else
      var rest := Accepted(offers[..|offers| - 1]);
      var last := offers[|offers| - 1];
      if last.held < CAPACITY then rest + [last.id] else rest
  }

  /** One channel: listed while in the map, closed at the end only, locked while it is changed. */
  predicate ChanLocks(s: State, c: ChanId)
    requires c in s.chans
  {
    var ch := s.chans[c];
    && (c in s.subs <==> Listed(ch.phase))
    && (ch.closed <==> ch.phase == Closed)
    && (HoldsLock(ch.phase) <==> s.writer == Some(c))
  }

  /** The lock protocol: who is in the map, who holds the lock, what publishers still have ahead. */
  ghost predicate LockInv(s: State) {
    && !s.panicked
    && s.subs <= s.chans.Keys
    && (forall c :: c in s.chans ==> ChanLocks(s, c))
    && (s.writer.Some? ==> s.writer.value in s.chans && s.readers == map[])
    && (forall p :: p in s.readers ==> s.readers[p].todo <= s.subs)
  }

  ghost predicate ChanBuffer(ch: Chan) {
    && |ch.buf| <= CAPACITY
    && ch.received + ch.buf == Accepted(ch.offers)
    && forall i :: 0 <= i < |ch.offers| ==> ch.offers[i].held <= CAPACITY
  }

  ghost predicate BufferInv(s: State) {
    forall c :: c in s.chans ==> ChanBuffer(s.chans[c])
  }

  lemma LockInvOfPublish(s: State, p: ThreadId, ev: Event)
    requires LockInv(s) && Enabled(s, BeginPublish(p, ev))
    ensures LockInv(Apply(s, BeginPublish(p, ev)))
  {
    var next := Apply(s, BeginPublish(p, ev));
    forall c | c in next.chans
      ensures ChanLocks(next, c)
    {
      assert ChanLocks(s, c);
    }
  }

  lemma LockInvOfSend(s: State, p: ThreadId, c: ChanId)
    requires LockInv(s) && Enabled(s, Send(p, c))
    ensures LockInv(Apply(s, Send(p, c)))
  {
    var next := Apply(s, Send(p, c));
    assert ChanLocks(s, c);
    forall d | d in next.chans
      ensures ChanLocks(next, d)
    {
      assert ChanLocks(s, d);
    }
  }

  lemma LockInvStep(s: State, a: Action)
    requires LockInv(s) && Enabled(s, a)
    ensures LockInv(Apply(s, a))
  {
    if a.BeginPublish? {
      LockInvOfPublish(s, a.p, a.ev);
    } else if a.Send? {
      LockInvOfSend(s, a.p, a.c);
    } else {
      var next := Apply(s, a);
      forall c | c in next.chans
        ensures ChanLocks(next, c)
      {
        if c in s.chans {
          assert ChanLocks(s, c);
        }
      }
    }
  }

  lemma AcceptedOfMore(offers: seq<Offer>, last: Offer)
    ensures Accepted(offers + [last]) == Accepted(offers) + if last.held < CAPACITY then [last.id] else []
  {
    assert (offers + [last])[..|offers|] == offers;
  }

  lemma OfferedKeepsBuffer(ch: Chan, id: nat)
    requires ChanBuffer(ch)
    ensures ChanBuffer(Offered(ch, id))
  {
    AcceptedOfMore(ch.offers, Offer(id, |ch.buf|));
  }

  lemma BufferInvStep(s: State, a: Action)
    requires BufferInv(s) && Enabled(s, a)
    ensures BufferInv(Apply(s, a))
  {
    var next := Apply(s, a);
    forall c | c in next.chans
      ensures ChanBuffer(next.chans[c])
    {
      if c in s.chans {
        assert ChanBuffer(s.chans[c]);
        if a.Send? {
          OfferedKeepsBuffer(s.chans[c], s.readers[a.p].id);
        }
      }
    }
  }

  lemma {:induction false} InvariantsHold(s: State, actions: seq<Action>)
    requires LockInv(s) && BufferInv(s) && CanRun(s, actions)
    ensures LockInv(Run(s, actions)) && BufferInv(Run(s, actions))
    decreases |actions|
  {
    if actions != [] {
      LockInvStep(s, actions[0]);
      BufferInvStep(s, actions[0]);
      InvariantsHold(Apply(s, actions[0]), actions[1..]);
    }
  }

  /**
   No interleaving ever sends on a closed channel or closes one twice, although `close`
   runs after the lock is released; a closed channel is never in the map.
   */
  lemma NeverSendsOnClosed(actions: seq<Action>)
    requires CanRun(INITIAL, actions)
    ensures var s := Run(INITIAL, actions);
            && !s.panicked
            && (forall c :: c in s.chans && s.chans[c].closed ==> c !in s.subs)
            && (forall p, c :: p in s.readers && c in s.readers[p].todo ==> c in s.subs && c in s.chans && !s.chans[c].closed)
  {
    InvariantsHold(INITIAL, actions);
    var s := Run(INITIAL, actions);
    assert forall c :: c in s.chans ==> ChanLocks(s, c);
  }

  // --------------------------------------- every publish is offered exactly once

  function Ids(offers: seq<Offer>): seq<nat> {
    seq(|offers|, i requires 0 <= i < |offers| => offers[i].id)
  }

  predicate Ascending(ids: seq<nat>) {
    forall i, j :: 0 <= i < j < |ids| ==> ids[i] < ids[j]
  }

  predicate Distinct(ids: seq<nat>) {
    forall i, j :: 0 <= i < j < |ids| ==> ids[i] != ids[j]
  }

  /** A publish that still has `c` ahead of it. */
  ghost predicate Pending(s: State, c: ChanId, id: nat) {
    exists p :: p in s.readers && s.readers[p].id == id && c in s.readers[p].todo
  }

  ghost predicate ChanOffers(s: State, c: ChanId)
    requires c in s.chans
  {
    var ch := s.chans[c];
    && Ascending(ch.heard) && (forall id :: id in ch.heard ==> id < |s.log|)
    && Distinct(Ids(ch.offers))
    && (forall id :: id in Ids(ch.offers) ==> !Pending(s, c, id))
    && (forall id :: id in ch.heard <==> id in Ids(ch.offers) || Pending(s, c, id))
  }

  ghost predicate OfferInv(s: State) {
    && (forall p :: p in s.readers ==> s.readers[p].id < |s.log|)
    && (forall p, q :: p in s.readers && q in s.readers && p != q ==> s.readers[p].id != s.readers[q].id)
    && (forall c :: c in s.chans ==> ChanOffers(s, c))
  }

  lemma OfferInvOfPublish(s: State, p: ThreadId, ev: Event)
    requires LockInv(s) && OfferInv(s) && Enabled(s, BeginPublish(p, ev))
    ensures OfferInv(Apply(s, BeginPublish(p, ev)))
  {
    var next := Apply(s, BeginPublish(p, ev));
    forall c | c in next.chans
      ensures ChanOffers(next, c)
    {
      assert ChanOffers(s, c);
      forall id
        ensures Pending(next, c, id) <==> Pending(s, c, id) || (id == |s.log| && c in s.subs)
      {
        if Pending(s, c, id) {
          var q :| q in s.readers && s.readers[q].id == id && c in s.readers[q].todo;
          assert q in next.readers && next.readers[q] == s.readers[q];
        }
        if id == |s.log| && c in s.subs {
          assert next.readers[p].id == id && c in next.readers[p].todo;
        }
      }
      var heard := s.chans[c].heard;
      assert forall i :: 0 <= i < |heard| ==> heard[i] in heard;
      assert forall id :: id in Ids(s.chans[c].offers) ==> id in heard;
    }
  }

  lemma PendingAfterSend(s: State, p: ThreadId, c: ChanId, d: ChanId, id: nat)
    requires OfferInv(s) && Enabled(s, Send(p, c))
    ensures Pending(Apply(s, Send(p, c)), d, id) <==> Pending(s, d, id) && !(d == c && id == s.readers[p].id)
  {
    var next, sent := Apply(s, Send(p, c)), s.readers[p].id;
    if Pending(s, d, id) && !(d == c && id == sent) {
      var q :| q in s.readers && s.readers[q].id == id && d in s.readers[q].todo;
      assert q in next.readers && next.readers[q].id == id && d in next.readers[q].todo;
    }
    if Pending(next, d, id) {
      var q :| q in next.readers && next.readers[q].id == id && d in next.readers[q].todo;
      assert q in s.readers && s.readers[q].id == id && d in s.readers[q].todo;
    }
  }

  lemma ChanOffersAfterSend(s: State, p: ThreadId, c: ChanId, d: ChanId)
    requires OfferInv(s) && Enabled(s, Send(p, c)) && d in s.chans
    ensures ChanOffers(Apply(s, Send(p, c)), d)
  {
    var sent := s.readers[p].id;
    forall id
      ensures Pending(Apply(s, Send(p, c)), d, id) <==> Pending(s, d, id) && !(d == c && id == sent)
    {
      PendingAfterSend(s, p, c, d, id);
    }
    assert ChanOffers(s, d);
    if d == c {
      assert Pending(s, c, sent);
      var before, offer := s.chans[c].offers, Offer(sent, |s.chans[c].buf|);
      assert Ids(before + [offer]) == Ids(before) + [sent];
    }
  }

  lemma OfferInvOfSend(s: State, p: ThreadId, c: ChanId)
    requires OfferInv(s) && Enabled(s, Send(p, c))
    ensures OfferInv(Apply(s, Send(p, c)))
  {
    var next := Apply(s, Send(p, c));
    forall d | d in next.chans
      ensures ChanOffers(next, d)
    {
      ChanOffersAfterSend(s, p, c, d);
    }
  }

  lemma ChanOffersAfterOther(s: State, a: Action, c: ChanId)
    requires LockInv(s) && OfferInv(s) && Enabled(s, a) && !a.BeginPublish? && !a.Send? && c in Apply(s, a).chans
    ensures ChanOffers(Apply(s, a), c)
  {
    PendingUnchanged(s, a, c);
    if c in s.chans {
      assert ChanOffers(s, c);
    }
  }

  lemma OfferInvStep(s: State, a: Action)
    requires LockInv(s) && OfferInv(s) && Enabled(s, a)
    ensures OfferInv(Apply(s, a))
  {
    if a.BeginPublish? {
      OfferInvOfPublish(s, a.p, a.ev);
    } else if a.Send? {
      OfferInvOfSend(s, a.p, a.c);
    } else {
      forall c | c in Apply(s, a).chans
        ensures ChanOffers(Apply(s, a), c)
      {
        ChanOffersAfterOther(s, a, c);
      }
    }
  }

  lemma PendingUnchanged(s: State, a: Action, c: ChanId)
    requires LockInv(s) && Enabled(s, a) && !a.BeginPublish? && !a.Send?
    ensures forall id :: Pending(Apply(s, a), c, id) <==> Pending(s, c, id)
    ensures c !in s.chans ==> forall id :: !Pending(s, c, id)
  {
    var next := Apply(s, a);
    forall id | Pending(s, c, id)
      ensures Pending(next, c, id)
    {
      var q :| q in s.readers && s.readers[q].id == id && c in s.readers[q].todo;
      assert q in next.readers && next.readers[q] == s.readers[q];
    }
    forall id | Pending(next, c, id)
      ensures Pending(s, c, id)
    {
      var q :| q in next.readers && next.readers[q].id == id && c in next.readers[q].todo;
      assert q in s.readers;
    }
  }

  lemma {:induction false} OffersHold(s: State, actions: seq<Action>)
    requires LockInv(s) && OfferInv(s) && CanRun(s, actions)
    ensures OfferInv(Run(s, actions))
    decreases |actions|
  {
    if actions != [] {
      LockInvStep(s, actions[0]);
      OfferInvStep(s, actions[0]);
      OffersHold(Apply(s, actions[0]), actions[1..]);
    }
  }

  /**
   In every interleaving, each publish that began while a channel was in the map is offered
   to it exactly once by the time that publish ends, and nothing else is.
   */
  lemma OfferedExactlyOnce(actions: seq<Action>, c: ChanId)
    requires CanRun(INITIAL, actions) && c in Run(INITIAL, actions).chans
    ensures var s := Run(INITIAL, actions);
            var ch := s.chans[c];
            && Distinct(Ids(ch.offers))
            && (forall id :: id in Ids(ch.offers) ==> id in ch.heard)
            && (forall id :: id in ch.heard && (forall p :: p in s.readers ==> s.readers[p].id != id) ==> id in Ids(ch.offers))
  {
    OffersHold(INITIAL, actions);
    var s := Run(INITIAL, actions);
    assert ChanOffers(s, c);
  }

  // ------------------------------------------------- delivery, one publish at a time

  /** A run in which no publish begins while another is in progress. */
  ghost predicate OneAtATime(s: State, actions: seq<Action>)
    requires CanRun(s, actions)
    decreases |actions|
  {
    actions != [] ==>
      && (actions[0].BeginPublish? ==> s.readers == map[])
      && OneAtATime(Apply(s, actions[0]), actions[1..])
  }

  /** The offers follow the publishes in order; at most the last one is still to be made. */
  ghost predicate InStep(s: State, c: ChanId)
    requires c in s.chans
  {
    var heard, ids := s.chans[c].heard, Ids(s.chans[c].offers);
    || heard == ids
    || (heard != [] && ids == heard[..|heard| - 1] && Pending(s, c, heard[|heard| - 1]))
  }

  ghost predicate SerialInv(s: State) {
    && (forall p, q :: p in s.readers && q in s.readers ==> p == q)
    && (forall c :: c in s.chans ==> InStep(s, c))
  }

  lemma SerialInvStep(s: State, a: Action)
    requires LockInv(s) && OfferInv(s) && SerialInv(s) && Enabled(s, a)
    requires a.BeginPublish? ==> s.readers == map[]
    ensures SerialInv(Apply(s, a))
  {
    var next := Apply(s, a);
    forall c | c in next.chans
      ensures InStep(next, c)
    {
      if a.BeginPublish? {
        PublishKeepsStep(s, a.p, a.ev, c);
      } else if a.Send? {
        SendKeepsStep(s, a.p, a.c, c);
      } else {
        OtherKeepsStep(s, a, c);
      }
    }
  }

  lemma PublishKeepsStep(s: State, p: ThreadId, ev: Event, c: ChanId)
    requires LockInv(s) && OfferInv(s) && SerialInv(s) && Enabled(s, BeginPublish(p, ev)) && s.readers == map[] && c in s.chans
    ensures InStep(Apply(s, BeginPublish(p, ev)), c)
  {
    var next := Apply(s, BeginPublish(p, ev));
    assert InStep(s, c) && ChanOffers(s, c);
    if c in s.subs {
      assert next.readers[p].id == |s.log| && c in next.readers[p].todo;
      assert Pending(next, c, |s.log|);
    }
  }

  lemma OtherKeepsStep(s: State, a: Action, c: ChanId)
    requires LockInv(s) && OfferInv(s) && SerialInv(s) && Enabled(s, a) && !a.BeginPublish? && !a.Send?
    requires c in Apply(s, a).chans
    ensures InStep(Apply(s, a), c)
  {
    if c in s.chans {
      assert InStep(s, c) && ChanOffers(s, c);
    }
    PendingUnchanged(s, a, c);
  }

  lemma SendKeepsStep(s: State, p: ThreadId, c: ChanId, d: ChanId)
    requires OfferInv(s) && SerialInv(s) && Enabled(s, Send(p, c)) && d in s.chans
    ensures InStep(Apply(s, Send(p, c)), d)
  {
    var next := Apply(s, Send(p, c));
    var pub := s.readers[p];
    assert InStep(s, d) && ChanOffers(s, d);
    if d == c {
      assert Pending(s, c, pub.id);
      var before := s.chans[c].offers;
      assert Ids(before + [Offer(pub.id, |s.chans[c].buf|)]) == Ids(before) + [pub.id];
    } else if s.chans[d].heard != Ids(s.chans[d].offers) {
      assert next.readers[p].id == pub.id && d in next.readers[p].todo;
    }
  }

  lemma {:induction false} StepsHold(s: State, actions: seq<Action>)
    requires LockInv(s) && OfferInv(s) && SerialInv(s) && CanRun(s, actions) && OneAtATime(s, actions)
    ensures SerialInv(Run(s, actions))
    decreases |actions|
  {
    if actions != [] {
      LockInvStep(s, actions[0]);
      OfferInvStep(s, actions[0]);
      SerialInvStep(s, actions[0]);
      StepsHold(Apply(s, actions[0]), actions[1..]);
    }
  }

  /**
   What was received and is buffered are the accepted offers, at most 64 are buffered, and what
   was offered is what was heard, in order, up to the publish under way.
   */
  ghost predicate InOrder(s: State, c: ChanId)
    requires c in s.chans
  {
    var ch := s.chans[c];
    && ch.received + ch.buf == Accepted(ch.offers)
    && |ch.buf| <= CAPACITY && (forall i :: 0 <= i < |ch.offers| ==> ch.offers[i].held <= CAPACITY)
    && Ascending(ch.heard) && Ids(ch.offers) <= ch.heard && |ch.heard| <= |ch.offers| + 1
    && (s.readers == map[] ==> Ids(ch.offers) == ch.heard)
  }

  lemma InvariantsGiveOrder(s: State, c: ChanId)
    requires c in s.chans && ChanBuffer(s.chans[c]) && ChanOffers(s, c) && InStep(s, c)
    ensures InOrder(s, c)
  {
  }

  /**
   With publishes one at a time, received plus buffered is the series of publishes heard
   while subscribed, in order, without those that met a buffer of 64; the buffer never
   holds more than 64.
   */
  lemma DeliveredInOrder(actions: seq<Action>, c: ChanId)
    requires CanRun(INITIAL, actions) && OneAtATime(INITIAL, actions) && c in Run(INITIAL, actions).chans
    ensures InOrder(Run(INITIAL, actions), c)
  {
    InvariantsHold(INITIAL, actions);
    OffersHold(INITIAL, actions);
    StepsHold(INITIAL, actions);
    var s := Run(INITIAL, actions);
    assert ChanBuffer(s.chans[c]) && ChanOffers(s, c) && InStep(s, c);
    InvariantsGiveOrder(s, c);
  }

  /** The positions of the offers that met room in the buffer. */
  function AcceptedPositions(offers: seq<Offer>): (at: seq<nat>)
    ensures Ascending(at) && forall k :: 0 <= k < |at| ==> at[k] < |offers|
  {
    if offers == [] then []
    else
      var n := |offers| - 1;
      var front := AcceptedPositions(offers[..n]);
      if offers[n].held < CAPACITY then front + [n] else front
  }

  lemma {:induction false} PositionIsAccepted(offers: seq<Offer>, k: nat)
    requires k < |AcceptedPositions(offers)|
    ensures |AcceptedPositions(offers)| == |Accepted(offers)|
    ensures var i := AcceptedPositions(offers)[k];
            offers[i].held < CAPACITY && Accepted(offers)[k] == offers[i].id
  {
    var n := |offers| - 1;
    SameCount(offers[..n]);
    if k < |AcceptedPositions(offers[..n])| {
      PositionIsAccepted(offers[..n], k);
    }
  }

  lemma {:induction false} SameCount(offers: seq<Offer>)
    ensures |AcceptedPositions(offers)| == |Accepted(offers)|
  {
    if offers != [] {
      SameCount(offers[..|offers| - 1]);
    }
  }

  lemma {:induction false} AcceptedHasPosition(offers: seq<Offer>, i: nat)
    requires i < |offers| && offers[i].held < CAPACITY
    ensures i in AcceptedPositions(offers)
  {
    var n := |offers| - 1;
    if i < n {
      AcceptedHasPosition(offers[..n], i);
    } else {
      var at := AcceptedPositions(offers);
      assert at[|at| - 1] == n;
    }
  }

  /** Dropping the offers that met a full buffer leaves a subsequence: positions keep their order. */
  lemma {:induction false} AcceptedIsSubsequence(offers: seq<Offer>)
    ensures var at := AcceptedPositions(offers);
            && |at| == |Accepted(offers)| && Ascending(at)
            && (forall k :: 0 <= k < |at| ==> offers[at[k]].held < CAPACITY && Accepted(offers)[k] == offers[at[k]].id)
            && (forall i :: 0 <= i < |offers| && offers[i].held < CAPACITY ==> i in at)
  {
    SameCount(offers);
    forall k: nat | k < |AcceptedPositions(offers)|
      ensures var i := AcceptedPositions(offers)[k];
              offers[i].held < CAPACITY && Accepted(offers)[k] == offers[i].id
    {
      PositionIsAccepted(offers, k);
    }
    forall i: nat | i < |offers| && offers[i].held < CAPACITY
      ensures i in AcceptedPositions(offers)
    {
      AcceptedHasPosition(offers, i);
    }
  }

  // -------------------------------------------------------------------- the object

  /** A buffered Go channel. */
  class Channel {
    var buf: seq<Event>
    var closed: bool

    constructor ()
      ensures buf == [] && !closed
    {
      buf, closed := [], false;
    }
  }

  /** The buffer after a non-blocking send. */
  function AfterSend(buf: seq<Event>, ev: Event): seq<Event> {
    if |buf| < CAPACITY then buf + [ev] else buf
  }

  /** `select { case ch <- ev: default: }`; sending on a closed channel would panic. */
  method TrySend(ch: Channel, ev: Event)
    requires !ch.closed
    modifies ch`buf
    ensures ch.buf == AfterSend(old(ch.buf), ev)
  {
    if |ch.buf| < CAPACITY {
      ch.buf := ch.buf + [ev];
    }
  }

  class EventBus {
    var subs: set<Channel>
    /** The channels whose cancel function has run: one `sync.Once` each. */
    var canceled: set<Channel>

    ghost predicate Valid()
      reads this, subs, canceled
    {
      && subs !! canceled
      && (forall ch :: ch in subs ==> !ch.closed && |ch.buf| <= CAPACITY)
      && (forall ch :: ch in canceled ==> ch.closed)
    }

    constructor ()
      ensures Valid() && subs == {} && canceled == {}
    {
      subs, canceled := {}, {};
    }

    method Subscribe() returns (ch: Channel)
      requires Valid()
      modifies this`subs
      ensures Valid() && fresh(ch) && ch.buf == [] && subs == old(subs) + {ch}
    {
      ch := new Channel();
      subs := subs + {ch};
    }

    /** The function Subscribe returns with the channel: the first call closes it, later ones do nothing. */
    method Cancel(ch: Channel)
      requires Valid() && (ch in subs || ch in canceled)
      modifies this, ch`closed
      ensures Valid() && ch.closed
      ensures subs == old(subs) - {ch} && canceled == old(canceled) + {ch}
    {
      if ch in canceled {
        return;
      }
      canceled := canceled + {ch};
      subs := subs - {ch};
      ch.closed := true;
    }

    /** Offers the event once to every channel in the map, in any order. */
    method Publish(ev: Event)
      requires Valid()
      modifies subs
      ensures Valid()
      ensures forall ch :: ch in subs ==> ch.buf == AfterSend(old(ch.buf), ev)
    {
      var todo := subs;
      while todo != {}
        invariant todo <= subs
        invariant forall ch :: ch in subs ==> !ch.closed
        invariant forall ch :: ch in canceled ==> ch.closed
        invariant forall ch :: ch in subs ==> ch.buf == if ch in todo then old(ch.buf) else AfterSend(old(ch.buf), ev)
        decreases |todo|
      {
        var ch :| ch in todo;
        todo := todo - {ch};
        TrySend(ch, ev);
      }
    }
  }
}
