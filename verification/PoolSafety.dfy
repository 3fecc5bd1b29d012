/** What every run of the worker pool keeps. */
module PoolSafety {
  import opened Prelude
  import opened PoolMachine

  // ----- Exactly one place -----

  function One(holds: bool): nat {
    if holds then 1 else 0
  }

  function InQueue(queue: seq<Request>, key: nat): nat {
    if queue == [] then 0 else One(queue[0].key == key) + InQueue(queue[1..], key)
  }

  function InSlot(slot: Slot, key: nat): nat {
    One(slot.current.Some? && slot.current.value.key == key)
  }

  function InSlots(slots: seq<Slot>, key: nat): nat {
    if slots == [] then 0 else InSlot(slots[0], key) + InSlots(slots[1..], key)
  }

  function InSettled(settled: seq<Settlement>, key: nat): nat {
    if settled == [] then 0
    else InSettled(settled[..|settled| - 1], key) + One(settled[|settled| - 1].key == key)
  }

  /** How often a request occurs in the pool, queued, in flight and settled together. */
  function Places(s: Pool, key: nat): nat {
    InQueue(s.queue, key) + InSlots(s.slots, key) + InSettled(s.settled, key)
  }

  /** Every accepted request is in exactly one of the queue, one slot, or the settlements, once. */
  ghost predicate OnePlace(s: Pool) {
    forall key: nat :: Places(s, key) == One(key < s.issued)
  }

  lemma {:induction false} InQueueAppend(queue: seq<Request>, req: Request, key: nat)
    ensures InQueue(queue + [req], key) == InQueue(queue, key) + One(req.key == key)
    decreases |queue|
  {
    if queue == [] {
      assert queue + [req] == [req];
    } else {
      assert (queue + [req])[1..] == queue[1..] + [req];
      InQueueAppend(queue[1..], req, key);
    }
  }

  lemma {:induction false} InSlotsUpdate(slots: seq<Slot>, i: nat, slot: Slot, key: nat)
    requires i < |slots|
    ensures InSlots(slots[i := slot], key) + InSlot(slots[i], key) == InSlots(slots, key) + InSlot(slot, key)
    decreases i
  {
    var updated := slots[i := slot];
    if i == 0 {
      assert updated[1..] == slots[1..];
    } else {
      assert updated[1..] == slots[1..][i - 1 := slot];
      InSlotsUpdate(slots[1..], i - 1, slot, key);
    }
  }

  lemma InSettledAppend(settled: seq<Settlement>, more: Settlement, key: nat)
    ensures InSettled(settled + [more], key) == InSettled(settled, key) + One(more.key == key)
  {
    assert (settled + [more])[..|settled|] == settled;
  }

  lemma {:induction false} ClosedAllSettles(settled: seq<Settlement>, queue: seq<Request>, key: nat)
    ensures InSettled(settled + ClosedAll(queue), key) == InSettled(settled, key) + InQueue(queue, key)
    decreases |queue|
  {
    if queue == [] {
      assert settled + [] == settled;
    } else {
      var first := Settlement(queue[0].key, Rejected(Closed));
      assert settled + ClosedAll(queue) == (settled + [first]) + ClosedAll(queue[1..]);
      ClosedAllSettles(settled + [first], queue[1..], key);
      InSettledAppend(settled, first, key);
    }
  }

  // ----- Dispatch bookkeeping -----

  function Count(log: seq<Dispatch>, key: nat): nat {
    if log == [] then 0
    else Count(log[..|log| - 1], key) + if log[|log| - 1].key == key then 1 else 0
  }

  lemma CountAppend(log: seq<Dispatch>, d: Dispatch, key: nat)
    ensures Count(log + [d], key) == Count(log, key) + if d.key == key then 1 else 0
  {
    assert (log + [d])[..|log|] == log;
  }

  lemma {:induction false} NotLogged(log: seq<Dispatch>, key: nat)
    requires forall j :: 0 <= j < |log| ==> log[j].key != key
    ensures Count(log, key) == 0
    decreases |log|
  {
    if log != [] {
      NotLogged(log[..|log| - 1], key);
    }
  }

  /** Wire ids are the numbers of the dispatches: they never repeat. */
  ghost predicate FreshIds(s: Pool) {
    s.nextId == |s.log| + 1 && forall j :: 0 <= j < |s.log| ==> s.log[j].rid == j + 1
  }

  /** `rid` is the wire id of the latest dispatch of `key`, and that dispatch went to `proc`. */
  ghost predicate Latest(log: seq<Dispatch>, key: nat, rid: nat, proc: nat) {
    && 1 <= rid <= |log| && log[rid - 1].key == key && log[rid - 1].proc == proc
    && forall j :: rid <= j < |log| ==> log[j].key != key
  }

  /** A request in a slot was dispatched there last, to the process the slot has now. */
  ghost predicate SlotFits(log: seq<Dispatch>, i: nat, slot: Slot) {
    && (slot.busy <==> slot.current.Some?)
    && (slot.current.Some? ==>
      var req := slot.current.value;
      && slot.proc.Some? && Latest(log, req.key, req.rid, slot.proc.value)
      && log[req.rid - 1].slot == i
      && req.attempts == Count(log, req.key) && 1 <= req.attempts <= MAX_ATTEMPTS)
  }

  ghost predicate InFlight(s: Pool) {
    forall i :: 0 <= i < |s.slots| ==> SlotFits(s.log, i, s.slots[i])
  }

  /** Queued requests know how often they were dispatched, and may be dispatched once more. */
  ghost predicate Queued(s: Pool) {
    forall j :: 0 <= j < |s.queue| ==>
      s.queue[j].attempts == Count(s.log, s.queue[j].key) && s.queue[j].attempts < MAX_ATTEMPTS
  }

  ghost predicate AtMostTwice(s: Pool) {
    && (forall key :: Count(s.log, key) <= MAX_ATTEMPTS)
    && (forall j :: 0 <= j < |s.log| ==> s.log[j].key < s.issued)
  }

  /** A resolved request got the reply to its latest attempt, from the process it was sent to. */
  ghost predicate Honest(s: Pool) {
    forall j :: 0 <= j < |s.settled| && s.settled[j].outcome.Resolved? ==>
      Latest(s.log, s.settled[j].key, s.settled[j].outcome.rid, s.settled[j].outcome.proc)
  }

  /** Waiting for a first dispatch in request order: nothing dispatched is newer than a request
      that was never dispatched, and those wait in order. */
  ghost predicate InOrder(s: Pool) {
    && (forall i, j :: 0 <= i < |s.log| && 0 <= j < |s.queue| && s.queue[j].attempts == 0 ==>
          s.log[i].key < s.queue[j].key)
    && (forall i, j :: 0 <= i < j < |s.queue| && s.queue[j].attempts == 0 ==> s.queue[i].key < s.queue[j].key)
  }

  /** First dispatches follow request order, retries notwithstanding. */
  ghost predicate FirstsInOrder(log: seq<Dispatch>) {
    forall i, j :: 0 <= i < j < |log| && (forall h :: 0 <= h < j ==> log[h].key != log[j].key) ==>
      log[i].key < log[j].key
  }

  ghost predicate ClosedIsEmpty(s: Pool) {
    s.closed ==> s.queue == [] && forall i :: 0 <= i < |s.slots| ==> s.slots[i] == VACANT
  }

  ghost predicate Core(s: Pool) {
    && OnePlace(s) && FreshIds(s) && InFlight(s) && Queued(s) && AtMostTwice(s) && Honest(s)
    && InOrder(s) && FirstsInOrder(s.log)
  }

  ghost predicate Inv(s: Pool) {
    Core(s) && ClosedIsEmpty(s)
  }

  // ----- One place: consequences -----

  lemma {:induction false} QueuedKeyCounted(queue: seq<Request>, j: nat)
    requires j < |queue|
    ensures InQueue(queue, queue[j].key) >= 1
    decreases j
  {
    if j > 0 {
      QueuedKeyCounted(queue[1..], j - 1);
    }
  }

  lemma {:induction false} SlotKeyCounted(slots: seq<Slot>, i: nat)
    requires i < |slots| && slots[i].current.Some?
    ensures InSlots(slots, slots[i].current.value.key) >= 1
    decreases i
  {
    if i > 0 {
      SlotKeyCounted(slots[1..], i - 1);
    }
  }

  lemma {:induction false} SettledKeyCounted(settled: seq<Settlement>, j: nat)
    requires j < |settled|
    ensures InSettled(settled, settled[j].key) >= 1
    decreases |settled|
  {
    if j < |settled| - 1 {
      SettledKeyCounted(settled[..|settled| - 1], j);
    }
  }

  /** A queued request is in no slot, is not settled, was issued, and is queued once. */
  lemma QueuedIsNowhereElse(s: Pool, j: nat)
    requires OnePlace(s) && j < |s.queue|
    ensures s.queue[j].key < s.issued && InQueue(s.queue, s.queue[j].key) == 1
    ensures forall i :: 0 <= i < |s.slots| && s.slots[i].current.Some? ==>
      s.slots[i].current.value.key != s.queue[j].key
    ensures forall i :: 0 <= i < |s.settled| ==> s.settled[i].key != s.queue[j].key
  {
    var k := s.queue[j].key;
    QueuedKeyCounted(s.queue, j);
    assert Places(s, k) == One(k < s.issued);
    forall i | 0 <= i < |s.slots| && s.slots[i].current.Some?
      ensures s.slots[i].current.value.key != k
    {
      SlotKeyCounted(s.slots, i);
    }
    forall i | 0 <= i < |s.settled|
      ensures s.settled[i].key != k
    {
      SettledKeyCounted(s.settled, i);
    }
  }

  // ----- One dispatch -----

  /** The head of the queue was sent to the i-th slot as dispatch `d`. */
  ghost predicate Sent(s: Pool, t: Pool, i: nat, d: Dispatch)
    requires s.queue != [] && i < |s.slots|
  {
    && d.key == s.queue[0].key && d.rid == s.nextId && d.slot == i
    && t.log == s.log + [d] && t.nextId == s.nextId + 1
  }

  function Occupied(d: Dispatch, buffer: string, attempts: nat): Slot {
    Slot(Some(d.proc), buffer, true, Some(PendingRequest(d.key, d.rid, attempts)))
  }

  /** The two ways in which a dispatch ends: the request is in the slot, or it is rejected (before
      or after it was sent) and the slot is free. */
  ghost predicate Dispatched(s: Pool, t: Pool, i: nat)
    requires s.queue != [] && i < |s.slots|
  {
    && t.queue == s.queue[1..] && t.issued == s.issued && t.closed == s.closed
    && |t.slots| == |s.slots| && t.slots == s.slots[i := t.slots[i]]
    && ((t.log == s.log && t.nextId == s.nextId) || exists d :: Sent(s, t, i, d))
    && ((t.slots[i] == VACANT
         && exists reason :: t.settled == s.settled + [Settlement(s.queue[0].key, Rejected(reason))])
        || (t.settled == s.settled
            && exists d :: Sent(s, t, i, d) && t.slots[i] == Occupied(d, t.slots[i].buffer, s.queue[0].attempts + 1)))
  }

  lemma DispatchToDispatches(s: Pool, env: Environment, i: nat)
    requires s.queue != [] && i < |s.slots|
    ensures Dispatched(s, DispatchTo(s, env, i), i)
  {
    var t := DispatchTo(s, env, i);
    if t.log != s.log {
      assert Sent(s, t, i, t.log[|s.log|]);
    }
  }

  lemma DispatchOnePlace(s: Pool, t: Pool, i: nat)
    requires OnePlace(s) && s.queue != [] && i < |s.slots| && s.slots[i].current.None? && Dispatched(s, t, i)
    ensures OnePlace(t)
  {
    forall key: nat
      ensures Places(t, key) == One(key < t.issued)
    {
      assert Places(s, key) == One(key < s.issued);
      InSlotsUpdate(s.slots, i, t.slots[i], key);
      if t.settled != s.settled {
        InSettledAppend(s.settled, t.settled[|s.settled|], key);
      }
    }
  }

  /** What a dispatch appends to the log keeps every other request's latest dispatch. */
  lemma LatestKept(log: seq<Dispatch>, d: Dispatch, key: nat, rid: nat, proc: nat)
    requires Latest(log, key, rid, proc) && d.key != key
    ensures Latest(log + [d], key, rid, proc)
  {
  }

  lemma SlotStillFits(log: seq<Dispatch>, d: Dispatch, i: nat, slot: Slot)
    requires SlotFits(log, i, slot) && (slot.current.Some? ==> slot.current.value.key != d.key)
    ensures SlotFits(log + [d], i, slot)
  {
    if slot.current.Some? {
      LatestKept(log, d, slot.current.value.key, slot.current.value.rid, slot.proc.value);
      CountAppend(log, d, slot.current.value.key);
    }
  }

  lemma DispatchInFlight(s: Pool, t: Pool, i: nat)
    requires OnePlace(s) && FreshIds(s) && InFlight(s) && Queued(s) && s.queue != [] && i < |s.slots|
    requires Dispatched(s, t, i)
    ensures InFlight(t)
  {
    QueuedIsNowhereElse(s, 0);
    forall j | 0 <= j < |t.slots|
      ensures SlotFits(t.log, j, t.slots[j])
    {
      if t.log != s.log {
        var d :| Sent(s, t, i, d);
        if j != i {
          SlotStillFits(s.log, d, j, s.slots[j]);
        } else {
          CountAppend(s.log, d, d.key);
        }
      }
    }
  }

  lemma DispatchQueued(s: Pool, t: Pool, i: nat)
    requires OnePlace(s) && Queued(s) && s.queue != [] && i < |s.slots| && Dispatched(s, t, i)
    ensures Queued(t)
  {
    QueuedIsNowhereElse(s, 0);
    forall j | 0 <= j < |t.queue|
      ensures t.queue[j].attempts == Count(t.log, t.queue[j].key) && t.queue[j].attempts < MAX_ATTEMPTS
    {
      assert t.queue[j] == s.queue[j + 1];
      if t.log != s.log {
        var d :| Sent(s, t, i, d);
        CountAppend(s.log, d, t.queue[j].key);
        QueuedKeyCounted(s.queue[1..], j);
      }
    }
  }

  lemma DispatchAtMostTwice(s: Pool, t: Pool, i: nat)
    requires OnePlace(s) && Queued(s) && AtMostTwice(s) && s.queue != [] && i < |s.slots| && Dispatched(s, t, i)
    ensures AtMostTwice(t)
  {
    QueuedIsNowhereElse(s, 0);
    if t.log != s.log {
      var d :| Sent(s, t, i, d);
      forall key
        ensures Count(t.log, key) <= MAX_ATTEMPTS
      {
        CountAppend(s.log, d, key);
      }
    }
  }

  lemma DispatchHonest(s: Pool, t: Pool, i: nat)
    requires OnePlace(s) && Honest(s) && s.queue != [] && i < |s.slots| && Dispatched(s, t, i)
    ensures Honest(t)
  {
    QueuedIsNowhereElse(s, 0);
    forall j | 0 <= j < |t.settled| && t.settled[j].outcome.Resolved?
      ensures Latest(t.log, t.settled[j].key, t.settled[j].outcome.rid, t.settled[j].outcome.proc)
    {
      assert t.settled[j] == s.settled[j];
      if t.log != s.log {
        var d :| Sent(s, t, i, d);
        LatestKept(s.log, d, s.settled[j].key, s.settled[j].outcome.rid, s.settled[j].outcome.proc);
      }
    }
  }

  lemma DispatchInOrder(s: Pool, t: Pool, i: nat)
    requires InOrder(s) && s.queue != [] && i < |s.slots| && Dispatched(s, t, i)
    ensures InOrder(t)
  {
    assert forall j :: 0 <= j < |t.queue| ==> t.queue[j] == s.queue[j + 1];
  }

  lemma DispatchFirstsInOrder(s: Pool, t: Pool, i: nat)
    requires InOrder(s) && Queued(s) && FirstsInOrder(s.log) && s.queue != [] && i < |s.slots| && Dispatched(s, t, i)
    ensures FirstsInOrder(t.log)
  {
    if t.log != s.log {
      var n := |s.log|;
      forall a, b | 0 <= a < b < |t.log| && (forall h :: 0 <= h < b ==> t.log[h].key != t.log[b].key)
        ensures t.log[a].key < t.log[b].key
      {
        if b < n {
          assert forall h :: 0 <= h < b ==> s.log[h].key == t.log[h].key;
        } else {
          assert forall h :: 0 <= h < n ==> s.log[h].key == t.log[h].key;
          NotLogged(s.log, s.queue[0].key);
        }
      }
    }
  }

  lemma DispatchFreshIds(s: Pool, t: Pool, i: nat)
    requires FreshIds(s) && ClosedIsEmpty(s) && s.queue != [] && i < |s.slots| && Dispatched(s, t, i)
    ensures FreshIds(t) && ClosedIsEmpty(t)
  {
  }

  lemma DispatchKeepsInv(s: Pool, t: Pool, i: nat)
    requires Inv(s) && s.queue != [] && i < |s.slots| && !s.slots[i].busy && Dispatched(s, t, i)
    ensures Inv(t)
  {
    assert s.slots[i].current.None?;
    DispatchOnePlace(s, t, i);
    DispatchFreshIds(s, t, i);
    DispatchInFlight(s, t, i);
    DispatchQueued(s, t, i);
    DispatchAtMostTwice(s, t, i);
    DispatchHonest(s, t, i);
    DispatchInOrder(s, t, i);
    DispatchFirstsInOrder(s, t, i);
  }

  lemma {:induction false} PumpKeepsInv(s: Pool, env: Environment)
    requires Inv(s)
    ensures Inv(Pump(s, env)) && Idle(Pump(s, env))
    decreases |s.queue|
  {
    if !Idle(s) {
      var i := FreeSlot(s.slots).value;
      DispatchToDispatches(s, env, i);
      DispatchKeepsInv(s, DispatchTo(s, env, i), i);
      PumpKeepsInv(DispatchTo(s, env, i), env);
    }
  }

  // ----- Freeing a slot -----

  /** A slot may keep its process or lose it, and a result is reported for its own latest attempt. */
  ghost predicate MayVacate(slot: Slot, proc: Option<nat>, outcome: Outcome) {
    && (proc == None || proc == slot.proc)
    && (outcome.Resolved? ==>
          slot.current.Some? && slot.proc.Some? && outcome == Resolved(slot.current.value.rid, slot.proc.value))
  }

  lemma VacateKeepsPlaces(s: Pool, i: nat, proc: Option<nat>, outcome: Outcome, key: nat)
    requires i < |s.slots|
    ensures Places(Vacate(s, i, proc, outcome), key) == Places(s, key)
  {
    var t := Vacate(s, i, proc, outcome);
    InSlotsUpdate(s.slots, i, t.slots[i], key);
    if s.slots[i].current.Some? {
      InSettledAppend(s.settled, Settlement(s.slots[i].current.value.key, outcome), key);
    }
  }

  lemma VacateOnePlace(s: Pool, i: nat, proc: Option<nat>, outcome: Outcome)
    requires OnePlace(s) && i < |s.slots|
    ensures OnePlace(Vacate(s, i, proc, outcome))
  {
    forall key: nat
      ensures Places(Vacate(s, i, proc, outcome), key) == One(key < s.issued)
    {
      VacateKeepsPlaces(s, i, proc, outcome, key);
    }
  }

  lemma VacateHonest(s: Pool, i: nat, proc: Option<nat>, outcome: Outcome)
    requires Honest(s) && InFlight(s) && i < |s.slots| && MayVacate(s.slots[i], proc, outcome)
    ensures Honest(Vacate(s, i, proc, outcome))
  {
    var t := Vacate(s, i, proc, outcome);
    forall j | 0 <= j < |t.settled| && t.settled[j].outcome.Resolved?
      ensures Latest(t.log, t.settled[j].key, t.settled[j].outcome.rid, t.settled[j].outcome.proc)
    {
      if j == |s.settled| {
        assert SlotFits(s.log, i, s.slots[i]);
      } else {
        assert t.settled[j] == s.settled[j];
      }
    }
  }

  lemma FreedInFlight(s: Pool, t: Pool, i: nat)
    requires InFlight(s) && i < |s.slots| == |t.slots| && t.log == s.log
    requires t.slots == s.slots[i := t.slots[i]] && t.slots[i].current.None? && !t.slots[i].busy
    ensures InFlight(t)
  {
    forall j | 0 <= j < |t.slots|
      ensures SlotFits(t.log, j, t.slots[j])
    {
      assert SlotFits(s.log, j, s.slots[j]);
    }
  }

  lemma VacateKeepsCore(s: Pool, i: nat, proc: Option<nat>, outcome: Outcome)
    requires Core(s) && i < |s.slots| && MayVacate(s.slots[i], proc, outcome)
    ensures Core(Vacate(s, i, proc, outcome))
  {
    VacateOnePlace(s, i, proc, outcome);
    VacateHonest(s, i, proc, outcome);
    FreedInFlight(s, Vacate(s, i, proc, outcome), i);
  }

  lemma VacateAndPump(s: Pool, env: Environment, i: nat, proc: Option<nat>, outcome: Outcome)
    requires Inv(s) && i < |s.slots| && s.slots[i].proc.Some? && MayVacate(s.slots[i], proc, outcome)
    ensures Inv(Pump(Vacate(s, i, proc, outcome), env)) && Idle(Pump(Vacate(s, i, proc, outcome), env))
  {
    assert !s.closed;
    VacateKeepsCore(s, i, proc, outcome);
    PumpKeepsInv(Vacate(s, i, proc, outcome), env);
  }

  // ----- Handlers -----

  /** The pool with one more request at the end of the queue. */
  function Accepted(s: Pool): Pool {
    s.(queue := s.queue + [PendingRequest(s.issued, 0, 0)], issued := s.issued + 1)
  }

  lemma AcceptedOnePlace(s: Pool)
    requires OnePlace(s)
    ensures OnePlace(Accepted(s))
  {
    forall key: nat
      ensures Places(Accepted(s), key) == One(key < s.issued + 1)
    {
      assert Places(s, key) == One(key < s.issued);
      InQueueAppend(s.queue, PendingRequest(s.issued, 0, 0), key);
    }
  }

  lemma AcceptedInOrder(s: Pool)
    requires OnePlace(s) && Queued(s) && AtMostTwice(s) && InOrder(s)
    ensures Queued(Accepted(s)) && InOrder(Accepted(s))
  {
    NotLogged(s.log, s.issued);
    forall j | 0 <= j < |s.queue|
      ensures s.queue[j].key < s.issued
    {
      QueuedIsNowhereElse(s, j);
    }
  }

  lemma OnRequestKeepsInv(s: Pool, env: Environment)
    requires Inv(s) && Idle(s)
    ensures Inv(OnRequest(s, env)) && Idle(OnRequest(s, env))
  {
    if !s.closed {
      AcceptedOnePlace(s);
      AcceptedInOrder(s);
      assert Inv(Accepted(s));
      PumpKeepsInv(Accepted(s), env);
    }
  }

  /** The pool after the first timeout of the request in the i-th slot. */
  function Retried(s: Pool, i: nat): Pool
    requires i < |s.slots| && s.slots[i].current.Some?
  {
    s.(queue := [s.slots[i].current.value] + s.queue, slots := s.slots[i := VACANT])
  }

  lemma RetriedOnePlace(s: Pool, i: nat)
    requires OnePlace(s) && i < |s.slots| && s.slots[i].current.Some?
    ensures OnePlace(Retried(s, i))
  {
    var t := Retried(s, i);
    forall key: nat
      ensures Places(t, key) == One(key < t.issued)
    {
      assert Places(s, key) == One(key < s.issued);
      InSlotsUpdate(s.slots, i, t.slots[i], key);
      assert t.queue[1..] == s.queue;
    }
  }

  lemma RetriedInOrder(s: Pool, i: nat)
    requires InFlight(s) && Queued(s) && InOrder(s)
    requires i < |s.slots| && s.slots[i].current.Some? && s.slots[i].current.value.attempts < MAX_ATTEMPTS
    ensures InOrder(Retried(s, i)) && Queued(Retried(s, i))
  {
    assert SlotFits(s.log, i, s.slots[i]);
    RetryInOrder(s, Retried(s, i), s.slots[i].current.value);
  }

  lemma RetriedLogged(s: Pool, i: nat)
    requires FreshIds(s) && AtMostTwice(s) && Honest(s) && FirstsInOrder(s.log) && !s.closed
    requires i < |s.slots| && s.slots[i].current.Some?
    ensures var t := Retried(s, i);
            FreshIds(t) && AtMostTwice(t) && Honest(t) && FirstsInOrder(t.log) && ClosedIsEmpty(t)
  {
  }

  lemma RetryKeepsInv(s: Pool, i: nat)
    requires Inv(s) && i < |s.slots| && s.slots[i].current.Some? && s.slots[i].current.value.attempts < MAX_ATTEMPTS
    ensures Inv(Retried(s, i))
  {
    RetriedOnePlace(s, i);
    FreedInFlight(s, Retried(s, i), i);
    RetriedInOrder(s, i);
    RetriedLogged(s, i);
  }

  lemma RetryInOrder(s: Pool, t: Pool, req: Request)
    requires InOrder(s) && Queued(s) && t.queue == [req] + s.queue && t.log == s.log
    requires 1 <= req.attempts == Count(s.log, req.key) < MAX_ATTEMPTS && 1 <= req.rid <= |s.log|
    requires s.log[req.rid - 1].key == req.key
    ensures InOrder(t) && Queued(t)
  {
    assert forall j :: 0 < j < |t.queue| ==> t.queue[j] == s.queue[j - 1];
  }

  lemma OnTimeoutKeepsInv(s: Pool, env: Environment, i: nat, key: nat)
    requires Inv(s) && Idle(s)
    ensures Inv(OnTimeout(s, env, i, key)) && Idle(OnTimeout(s, env, i, key))
  {
    if i < |s.slots| && s.slots[i].current.Some? && s.slots[i].current.value.key == key {
      assert SlotFits(s.log, i, s.slots[i]);
      var req := s.slots[i].current.value;
      if req.attempts < MAX_ATTEMPTS {
        RetryKeepsInv(s, i);
        PumpKeepsInv(Retried(s, i), env);
      } else {
        VacateAndPump(s, env, i, None, Rejected(TimedOut));
      }
    }
  }

  lemma OnGoneKeepsInv(s: Pool, env: Environment, i: nat, proc: nat, reason: Reason)
    requires Inv(s) && Idle(s)
    ensures Inv(OnGone(s, env, i, proc, reason)) && Idle(OnGone(s, env, i, proc, reason))
  {
    if i < |s.slots| && s.slots[i].proc == Some(proc) {
      VacateAndPump(s, env, i, None, Rejected(reason));
    }
  }

  lemma OnLineKeepsInv(s: Pool, env: Environment, i: nat, proc: nat, line: Line)
    requires Inv(s) && Idle(s)
    ensures Inv(OnLine(s, env, i, proc, line)) && Idle(OnLine(s, env, i, proc, line))
  {
    if i < |s.slots| && s.slots[i].proc == Some(proc) && s.slots[i].current.Some? {
      var effect := EffectOf(s.slots[i].current.value, proc, line);
      if effect.Vacates? {
        VacateAndPump(s, env, i, effect.proc, effect.outcome);
      }
    }
  }

  lemma BufferOnePlace(s: Pool, i: nat, buffer: string)
    requires OnePlace(s) && i < |s.slots|
    ensures OnePlace(Buffered(s, i, buffer))
  {
    forall key: nat
      ensures Places(Buffered(s, i, buffer), key) == One(key < s.issued)
    {
      assert Places(s, key) == One(key < s.issued);
      InSlotsUpdate(s.slots, i, s.slots[i].(buffer := buffer), key);
    }
  }

  lemma BufferInFlight(s: Pool, i: nat, buffer: string)
    requires InFlight(s) && i < |s.slots|
    ensures InFlight(Buffered(s, i, buffer))
  {
    var t := Buffered(s, i, buffer);
    forall j | 0 <= j < |t.slots|
      ensures SlotFits(t.log, j, t.slots[j])
    {
      assert SlotFits(s.log, j, s.slots[j]);
    }
  }

  lemma BufferIdle(s: Pool, i: nat, buffer: string)
    requires i < |s.slots|
    ensures FreeSlot(Buffered(s, i, buffer).slots).None? <==> FreeSlot(s.slots).None?
  {
    var slots := Buffered(s, i, buffer).slots;
    assert forall j :: 0 <= j < |slots| ==> slots[j].busy == s.slots[j].busy;
  }

  lemma BufferKeepsInv(s: Pool, i: nat, buffer: string)
    requires Inv(s) && Idle(s) && i < |s.slots| && s.slots[i].proc.Some?
    ensures Inv(Buffered(s, i, buffer)) && Idle(Buffered(s, i, buffer))
  {
    assert !s.closed;
    BufferOnePlace(s, i, buffer);
    BufferInFlight(s, i, buffer);
    BufferIdle(s, i, buffer);
  }

  lemma {:induction false} OnTextKeepsInv(s: Pool, env: Environment, i: nat, proc: nat, text: string)
    requires Inv(s) && Idle(s)
    ensures Inv(OnText(s, env, i, proc, text)) && Idle(OnText(s, env, i, proc, text))
    decreases |text|
  {
    if i < |s.slots| && s.slots[i].proc == Some(proc) {
      if FirstBreak(text).None? {
        BufferKeepsInv(s, i, text);
      } else {
        var n := FirstBreak(text).value;
        var line, rest := Stripped(text[..n]), text[n + 1..];
        RawLineKeepsInv(s, env, i, proc, line, rest);
        OnTextKeepsInv(OnRawLine(Buffered(s, i, rest), env, i, proc, line), env, i, proc, rest);
      }
    }
  }

  lemma RawLineKeepsInv(s: Pool, env: Environment, i: nat, proc: nat, line: string, rest: string)
    requires Inv(s) && Idle(s) && i < |s.slots| && s.slots[i].proc == Some(proc)
    ensures var t := OnRawLine(Buffered(s, i, rest), env, i, proc, line); Inv(t) && Idle(t)
  {
    BufferKeepsInv(s, i, rest);
    OnLineKeepsInv(Buffered(s, i, rest), env, i, proc, env.parse(line));
  }

  lemma {:induction false} DetachKeepsCore(s: Pool, i: nat)
    requires Core(s) && i <= |s.slots| && forall j :: 0 <= j < i ==> s.slots[j] == VACANT
    ensures var t := DetachFrom(s, i);
            && Core(t) && t.queue == s.queue && t.closed == s.closed
            && forall j :: 0 <= j < |t.slots| ==> t.slots[j] == VACANT
    decreases |s.slots| - i
  {
    if i < |s.slots| {
      VacateKeepsCore(s, i, None, Rejected(Closed));
      DetachKeepsCore(Vacate(s, i, None, Rejected(Closed)), i + 1);
    }
  }

  lemma {:induction false} ClosedAllRejects(queue: seq<Request>)
    ensures forall j :: 0 <= j < |ClosedAll(queue)| ==> ClosedAll(queue)[j].outcome == Rejected(Closed)
    decreases |queue|
  {
    if queue != [] {
      ClosedAllRejects(queue[1..]);
    }
  }

  lemma OnCloseKeepsInv(s: Pool)
    requires Inv(s)
    ensures Inv(OnClose(s)) && Idle(OnClose(s))
  {
    var t := s.(closed := true, queue := [], settled := s.settled + ClosedAll(s.queue));
    forall key: nat
      ensures Places(t, key) == One(key < t.issued)
    {
      assert Places(s, key) == One(key < s.issued);
      ClosedAllSettles(s.settled, s.queue, key);
    }
    ClosedAllRejects(s.queue);
    assert Honest(t);
    DetachKeepsCore(t, 0);
  }

  // ----- Every run -----

  /** Each handler keeps the invariant, and after it the queue is empty or every slot is busy. */
  lemma StepKeepsInv(s: Pool, env: Environment, e: Event)
    requires Inv(s) && Idle(s)
    ensures Inv(Step(s, env, e)) && Idle(Step(s, env, e))
  {
    match e
    case Ask => OnRequestKeepsInv(s, env);
    case Data(i, proc, chunk) =>
      if i < |s.slots| { OnTextKeepsInv(s, env, i, proc, s.slots[i].buffer + chunk); }
    case Timeout(i, key) => OnTimeoutKeepsInv(s, env, i, key);
    case Exit(i, proc) => OnGoneKeepsInv(s, env, i, proc, Crashed);
    case SpawnError(i, proc) => OnGoneKeepsInv(s, env, i, proc, SpawnFailed);
    case Close => OnCloseKeepsInv(s);
  }

  lemma {:induction false} InitialInv(poolSize: nat)
    ensures Inv(Initial(poolSize)) && Idle(Initial(poolSize))
  {
    forall key: nat
      ensures Places(Initial(poolSize), key) == 0
    {
      NoneInSlots(Initial(poolSize).slots, key);
    }
  }

  lemma {:induction false} NoneInSlots(slots: seq<Slot>, key: nat)
    requires forall i :: 0 <= i < |slots| ==> slots[i].current.None?
    ensures InSlots(slots, key) == 0
  {
    if slots != [] {
      NoneInSlots(slots[1..], key);
    }
  }

  lemma {:induction false} RunKeepsInv(s: Pool, env: Environment, events: seq<Event>)
    requires Inv(s) && Idle(s)
    ensures Inv(RunOf(s, env, events)) && Idle(RunOf(s, env, events))
    decreases |events|
  {
    if events != [] {
      StepKeepsInv(s, env, events[0]);
      RunKeepsInv(Step(s, env, events[0]), env, events[1..]);
    }
  }

  /** Over every interleaving of requests, replies, timeouts, exits, spawn failures and close: each
      accepted request is queued, in one slot, or settled, exactly one of them and once; it is
      dispatched at most twice; wire ids never repeat; a result came from the process that the
      latest attempt went to, under its wire id; first dispatches follow request order; and no
      request waits while a slot is free. */
  lemma EveryRun(poolSize: nat, env: Environment, events: seq<Event>)
    ensures var s := RunOf(Initial(poolSize), env, events);
      && (forall key: nat :: key < s.issued ==>
            InQueue(s.queue, key) + InSlots(s.slots, key) + InSettled(s.settled, key) == 1)
      && (forall key :: Count(s.log, key) <= 2)
      && (forall i, j :: 0 <= i < j < |s.log| ==> s.log[i].rid != s.log[j].rid)
      && (forall j :: 0 <= j < |s.settled| && s.settled[j].outcome.Resolved? ==>
            Latest(s.log, s.settled[j].key, s.settled[j].outcome.rid, s.settled[j].outcome.proc))
      && FirstsInOrder(s.log)
      && (s.queue == [] || forall i :: 0 <= i < |s.slots| ==> s.slots[i].busy)
  {
    InitialInv(poolSize);
    RunKeepsInv(Initial(poolSize), env, events);
    var s := RunOf(Initial(poolSize), env, events);
    forall key: nat | key < s.issued
      ensures InQueue(s.queue, key) + InSlots(s.slots, key) + InSettled(s.settled, key) == 1
    {
      assert Places(s, key) == One(key < s.issued);
    }
  }

  /** Once the pool is closed, every request it ever accepted is settled. */
  lemma ClosedSettlesEverything(s: Pool, key: nat)
    requires Inv(s) && s.closed && key < s.issued
    ensures InSettled(s.settled, key) == 1
  {
    NoneInSlots(s.slots, key);
    assert Places(s, key) == One(key < s.issued);
  }

  /** A request that timed out once is the next to be dispatched, ahead of everything queued, and
      fails only if its dispatch does. */
  lemma RetryIsServedNext(s: Pool, env: Environment, i: nat)
    requires i < |s.slots| && s.slots[i].current.Some? && s.slots[i].current.value.attempts < MAX_ATTEMPTS
    ensures var key := s.slots[i].current.value.key;
            var t := OnTimeout(s, env, i, key);
            || (|t.log| > |s.log| && t.log[..|s.log|] == s.log && t.log[|s.log|].key == key)
            || (|t.settled| > |s.settled| && t.settled[|s.settled|] == Settlement(key, Rejected(SpawnFailed)))
  {
    var r := Retried(s, i);
    assert r.slots[i] == VACANT;
    assert !Idle(r);
    var d := DispatchTo(r, env, FreeSlot(r.slots).value);
    PumpExtends(d, env);
    assert Pump(r, env) == Pump(d, env);
    if d.log != s.log {
      assert d.log == s.log + [d.log[|s.log|]];
    }
  }

  /** Pumping only appends to the log and to the settlements. */
  lemma {:induction false} PumpExtends(s: Pool, env: Environment)
    ensures s.log <= Pump(s, env).log && s.settled <= Pump(s, env).settled
    decreases |s.queue|
  {
    if !Idle(s) {
      PumpExtends(DispatchTo(s, env, FreeSlot(s.slots).value), env);
    }
  }
}
