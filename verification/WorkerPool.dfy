/** The worker pool as an object: the handlers update the queue and the slots in place, and pumping
    and dispatching call each other. Each handler refines one step of the pool machine. */
module WorkerPool {
  import opened Prelude
  import opened PoolMachine
  import opened PoolSafety

  class WorkerPool {
    const env: Environment
    var queue: seq<Request>
    var slots: seq<Slot>
    var nextId: nat
    var nextProc: nat
    var closed: bool
    var tries: nat
    var issued: nat
    ghost var log: seq<Dispatch>
    ghost var settled: seq<Settlement>

    ghost function State(): Pool
      reads this
    {
      Pool(queue, slots, nextId, nextProc, closed, tries, issued, log, settled)
    }

    constructor (poolSize: nat, env: Environment)
      requires poolSize >= 1
      ensures this.env == env && State() == Initial(poolSize)
      ensures Inv(State()) && Idle(State())
    {
      this.env := env;
      queue, slots := [], seq(poolSize, i requires 0 <= i < poolSize => Slot(Some(i), "", false, None));
      nextId, nextProc, closed, tries, issued, log, settled := 1, poolSize, false, 0, 0, [], [];
      new;
      InitialInv(poolSize);
    }

    /** Assign queued requests to free slots, oldest first. */
    method Pump()
      requires closed ==> queue == []
      modifies this
      ensures State() == PoolMachine.Pump(old(State()), env) && closed == old(closed)
      decreases |queue|, 1
    {
      while queue != []
        invariant PoolMachine.Pump(State(), env) == PoolMachine.Pump(old(State()), env)
        invariant closed == old(closed) && (closed ==> queue == [])
        decreases |queue|
      {
        var slot := FreeSlot(slots);
        if slot.None? { break; }
        DispatchHead(slot.value);
      }
    }

    /** Dispatch the head of the queue. When that fails the request is rejected and the queue is
        pumped from here; pumping is idempotent, so the caller's own loop then has nothing to do. */
    method DispatchHead(i: nat)
      requires queue != [] && !closed && FreeSlot(slots) == Some(i)
      modifies this
      ensures PoolMachine.Pump(State(), env) == PoolMachine.Pump(old(State()), env)
      ensures |queue| < |old(queue)| && closed == old(closed)
      decreases |queue|, 0
    {
      ghost var before := State();
      var sent := SendHead(i);
      if !sent {
        PumpAfter(before, i);
      }
    }

    /** Take the head of the queue to the slot's process, which is spawned when there is none. */
    method SendHead(i: nat) returns (sent: bool)
      requires queue != [] && i < |slots|
      modifies this
      ensures State() == DispatchTo(old(State()), env, i)
    {
      var req := queue[0];
      queue := queue[1..];
      var answer := env.answer(tries);
      tries := tries + 1;
      var proc, buffer := slots[i].proc, slots[i].buffer;
      if proc.None? || !answer.alive {
        if !answer.spawns {
          slots := slots[i := VACANT];
          settled := settled + [Settlement(req.key, Rejected(SpawnFailed))];
          return false;
        }
        proc, buffer := Some(nextProc), "";
        nextProc := nextProc + 1;
      }
      var pending := PendingRequest(req.key, nextId, req.attempts + 1);
      log := log + [Dispatch(req.key, nextId, i, proc.value)];
      nextId := nextId + 1;
      if !answer.writes {
        slots := slots[i := VACANT];
        settled := settled + [Settlement(req.key, Rejected(Crashed))];
        return false;
      }
      slots := slots[i := Slot(proc, buffer, true, Some(pending))];
      return true;
    }

    /** The nested pump of a failed dispatch. */
    method PumpAfter(ghost before: Pool, ghost i: nat)
      requires before.queue != [] && !before.closed && FreeSlot(before.slots) == Some(i)
      requires State() == DispatchTo(before, env, i)
      modifies this
      ensures PoolMachine.Pump(State(), env) == PoolMachine.Pump(before, env)
      ensures |queue| < |before.queue| && closed == before.closed
      decreases |queue|, 2
    {
      PumpShrinks(State(), env);
      Pump();
    }

    /** Every handler keeps the invariant. */
    twostate predicate KeepsInv()
      reads this
    {
      old(Inv(State()) && Idle(State())) ==> Inv(State()) && Idle(State())
    }

    /** Queue a request and pump; a closed pool rejects it at once. */
    method Request() returns (accepted: bool)
      modifies this
      ensures accepted == !old(closed)
      ensures State() == Step(old(State()), env, Ask) && KeepsInv()
    {
      if Inv(State()) && Idle(State()) {
        StepKeepsInv(State(), env, Ask);
      }
      if closed {
        return false;
      }
      Enqueue();
      return true;
    }

    method Enqueue()
      requires !closed
      modifies this
      ensures State() == OnRequest(old(State()), env)
    {
      queue := queue + [PendingRequest(issued, 0, 0)];
      issued := issued + 1;
      Pump();
    }

    /** Free a slot, settle the request in it, if any, and pump. */
    method Settle(i: nat, proc: Option<nat>, outcome: Outcome)
      requires i < |slots| && (closed ==> queue == [])
      modifies this
      ensures State() == PoolMachine.Pump(Vacate(old(State()), i, proc, outcome), env) && closed == old(closed)
    {
      if slots[i].current.Some? {
        settled := settled + [Settlement(slots[i].current.value.key, outcome)];
      }
      slots := slots[i := Slot(proc, if proc.Some? then slots[i].buffer else "", false, None)];
      Pump();
    }

    /** One line of output of the slot's current process. */
    method HandleLine(i: nat, proc: nat, line: Line)
      requires i < |slots| && slots[i].proc == Some(proc) && ClosedIsEmpty(State())
      modifies this
      ensures State() == OnLine(old(State()), env, i, proc, line) && closed == old(closed)
    {
      var current := slots[i].current;
      if current.None? { return; }
      match line {
        case Unparseable => Settle(i, None, Rejected(Protocol));
        case NonObject => Settle(i, None, Rejected(Protocol));
        case Reply(id, isError, hasResult) =>
          if id != Some(current.value.rid) {
            return;
          }
          if isError {
            Settle(i, Some(proc), Rejected(Rpc));
          } else if !hasResult {
            Settle(i, None, Rejected(Protocol));
          } else {
            Settle(i, Some(proc), Resolved(current.value.rid, proc));
          }
      }
    }

    /** A chunk of output of a process. */
    method HandleData(i: nat, proc: nat, chunk: string)
      requires ClosedIsEmpty(State())
      modifies this
      ensures State() == Step(old(State()), env, Data(i, proc, chunk)) && KeepsInv()
    {
      if Inv(State()) && Idle(State()) {
        StepKeepsInv(State(), env, Data(i, proc, chunk));
      }
      if i < |slots| && slots[i].proc == Some(proc) {
        HandleText(i, proc, slots[i].buffer + chunk);
      }
    }

    /** The complete lines of the buffer, until one of them makes the slot drop the process. */
    method HandleText(i: nat, proc: nat, text: string)
      requires i < |slots| && slots[i].proc == Some(proc) && ClosedIsEmpty(State())
      modifies this
      ensures State() == OnText(old(State()), env, i, proc, text)
    {
      var rest, nl := text, FirstBreak(text);
      while nl.Some?
        invariant i < |slots| && slots[i].proc == Some(proc) && ClosedIsEmpty(State()) && nl == FirstBreak(rest)
        invariant OnText(State(), env, i, proc, rest) == OnText(old(State()), env, i, proc, text)
        decreases |rest|
      {
        var line := Stripped(rest[..nl.value]);
        rest := rest[nl.value + 1..];
        slots := slots[i := slots[i].(buffer := rest)];
        if !Blank(line) {
          HandleLine(i, proc, env.parse(line));
          if i >= |slots| || slots[i].proc != Some(proc) {
            return;
          }
        }
        nl := FirstBreak(rest);
      }
      slots := slots[i := slots[i].(buffer := rest)];
    }

    /** The timer of a request fires: the worker is dropped, and the request is retried once. */
    method HandleTimeout(i: nat, key: nat)
      requires ClosedIsEmpty(State())
      modifies this
      ensures State() == Step(old(State()), env, Timeout(i, key)) && KeepsInv()
    {
      if Inv(State()) && Idle(State()) {
        StepKeepsInv(State(), env, Timeout(i, key));
      }
      if i >= |slots| || slots[i].current.None? || slots[i].current.value.key != key {
        return;
      }
      var req := slots[i].current.value;
      if req.attempts < MAX_ATTEMPTS {
        slots := slots[i := VACANT];
        queue := [req] + queue;
        assert !closed;
        Pump();
      } else {
        Settle(i, None, Rejected(TimedOut));
      }
    }

    method HandleExit(i: nat, proc: nat)
      requires ClosedIsEmpty(State())
      modifies this
      ensures State() == Step(old(State()), env, Exit(i, proc)) && KeepsInv()
    {
      if Inv(State()) && Idle(State()) {
        StepKeepsInv(State(), env, Exit(i, proc));
      }
      if i < |slots| && slots[i].proc == Some(proc) {
        Settle(i, None, Rejected(Crashed));
      }
    }

    method HandleSpawnError(i: nat, proc: nat)
      requires ClosedIsEmpty(State())
      modifies this
      ensures State() == Step(old(State()), env, SpawnError(i, proc)) && KeepsInv()
    {
      if Inv(State()) && Idle(State()) {
        StepKeepsInv(State(), env, SpawnError(i, proc));
      }
      if i < |slots| && slots[i].proc == Some(proc) {
        Settle(i, None, Rejected(SpawnFailed));
      }
    }

    /** Reject everything queued and in flight, and detach every process. */
    method Close()
      modifies this
      ensures State() == Step(old(State()), env, PoolMachine.Close) && KeepsInv()
    {
      if Inv(State()) && Idle(State()) {
        StepKeepsInv(State(), env, PoolMachine.Close);
      }
      if closed { return; }
      RejectAll();
    }

    method RejectAll()
      modifies this
      ensures State() == OnClose(old(State()))
    {
      closed := true;
      settled := settled + ClosedAll(queue);
      queue := [];
      DetachAll();
    }

    method DetachAll()
      modifies this
      ensures State() == DetachFrom(old(State()), 0)
    {
      ghost var end := DetachFrom(State(), 0);
      var i := 0;
      while i < |slots|
        invariant i <= |slots| && DetachFrom(State(), i) == end
      {
        if slots[i].current.Some? {
          settled := settled + [Settlement(slots[i].current.value.key, Rejected(Closed))];
        }
        slots := slots[i := VACANT];
        i := i + 1;
      }
    }
  }

  /** Pumping leaves nothing for a second pump, and never lengthens the queue. */
  lemma {:induction false} PumpShrinks(s: Pool, env: Environment)
    ensures var t := PoolMachine.Pump(s, env);
            Idle(t) && |t.queue| <= |s.queue| && t.closed == s.closed && PoolMachine.Pump(t, env) == t
    decreases |s.queue|
  {
    if !Idle(s) {
      PumpShrinks(DispatchTo(s, env, FreeSlot(s.slots).value), env);
    }
  }
}
