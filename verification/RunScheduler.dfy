/** The run scheduler and its semaphore as objects. Each method is the code between two awaits, and
    refines one step of the scheduler machine. */
module RunScheduler {
  import opened Prelude
  import opened SchedulerMachine
  import opened SchedulerSafety

  /** FIFO counting semaphore. */
  class Semaphore {
    var slots: int
    var closed: bool
    var waiters: seq<Id>

    constructor (capacity: nat)
      ensures slots == capacity && !closed && waiters == []
    {
      slots, closed, waiters := capacity, false, [];
    }

    method TryAcquire() returns (taken: bool)
      modifies this
      ensures taken == (!closed && old(slots) > 0) && slots == old(slots) - (if taken then 1 else 0)
      ensures closed == old(closed) && waiters == old(waiters)
    {
      if closed || slots <= 0 {
        return false;
      }
      slots := slots - 1;
      return true;
    }

    /** The answer, or none yet: the caller waits its turn. */
    method Acquire(id: Id) returns (granted: Option<bool>)
      modifies this
      ensures closed == old(closed)
      ensures granted == if closed then Some(false) else if old(slots) > 0 then Some(true) else None
      ensures slots == old(slots) - (if granted == Some(true) then 1 else 0)
      ensures waiters == if granted.None? then old(waiters) + [id] else old(waiters)
    {
      var taken := TryAcquire();
      if taken {
        return Some(true);
      }
      if closed {
        return Some(false);
      }
      waiters := waiters + [id];
      return None;
    }

    /** Free a slot; the waiter that now owns it, if any. */
    method Release() returns (next: Option<Id>)
      modifies this
      ensures closed == old(closed)
      ensures old(waiters) != [] ==>
        next == Some(old(waiters)[0]) && waiters == old(waiters)[1..] && slots == old(slots)
      ensures old(waiters) == [] ==> next == None && waiters == [] && slots == old(slots) + 1
    {
      if waiters != [] {
        next := Some(waiters[0]);
        waiters := waiters[1..];
      } else {
        slots := slots + 1;
        next := None;
      }
    }

    /** Wake every waiter without a slot. */
    method Close() returns (refused: seq<Id>)
      modifies this
      ensures closed && waiters == [] && slots == old(slots) && refused == old(waiters)
    {
      refused := waiters;
      closed, waiters := true, [];
    }
  }

  class RunScheduler {
    const semaphore: Semaphore
    const maxParallelRuns: nat
    var rows: map<Id, Status>
    var queued: seq<Id>
    /** The live executions, each at the await it is suspended in. */
    var executions: map<Id, Phase>
    var slotOwners: set<Id>
    var pauseRequested: set<Id>
    var cancelled: set<Id>
    var resumeWaiters: set<Id>
    var closed: bool

    ghost function State(): Sched
      reads this, semaphore
    {
      Sched(rows, queued, executions, slotOwners, pauseRequested, cancelled, resumeWaiters,
            semaphore.slots, semaphore.waiters, semaphore.closed, closed)
    }

    ghost predicate Valid()
      reads this, semaphore
    {
      Inv(State(), maxParallelRuns)
    }

    /** A new scheduler starts over whatever rows it finds; it queues their recovery. */
    constructor (maxParallelRuns: nat, rows: map<Id, Status>)
      requires maxParallelRuns >= 1
      ensures this.maxParallelRuns == maxParallelRuns && fresh(semaphore)
      ensures State() == Fresh(rows, maxParallelRuns) && Valid()
    {
      this.maxParallelRuns := maxParallelRuns;
      semaphore := new Semaphore(maxParallelRuns);
      this.rows, queued, executions := rows, [], map[];
      slotOwners, pauseRequested, cancelled, resumeWaiters, closed := {}, {}, {}, {}, false;
      new;
      FreshInv(rows, maxParallelRuns);
    }

    /** Restart recovery, one operation on the write queue: rows left running become paused, and
        `order`, the rows left queued, are queued again. */
    method RecoverStaleRuns(order: seq<Id>)
      requires Valid() && Sound(State(), Recover(order))
      modifies this, semaphore
      ensures State() == Step(old(State()), Recover(order), maxParallelRuns) && Valid()
    {
      StepKeepsInv(State(), Recover(order), maxParallelRuns);
      rows := Recovered(rows);
      queued := queued + order;
      Pump();
    }

    /** Start queued runs while slots are free, first come first served among the startable ones. */
    method Pump()
      modifies this, semaphore
      ensures State() == SchedulerMachine.Pump(old(State()))
    {
      if closed { return; }
      while queued != []
        invariant SchedulerMachine.Pump(State()) == SchedulerMachine.Pump(old(State())) && !closed
        decreases |queued|
      {
        var next := Startable(queued, pauseRequested);
        if next.None? { return; }
        var taken := semaphore.TryAcquire();
        if !taken { return; }
        var id := queued[next.value];
        queued := queued[..next.value] + queued[next.value + 1..];
        slotOwners := slotOwners + {id};
        executions := executions[id := Starting];
      }
    }

    /** Give a slot back: the longest waiter resumes with it. */
    method ReleaseSlot()
      modifies this`executions, semaphore
      ensures State() == Release(old(State()))
    {
      var next := semaphore.Release();
      if next.Some? {
        executions := executions[next.value := Granted(true)];
      }
    }

    method CallWaiter(id: Id)
      modifies this`executions, this`resumeWaiters
      ensures State() == Wake(old(State()), id)
    {
      if id in resumeWaiters {
        resumeWaiters := resumeWaiters - {id};
        if id in executions {
          executions := executions[id := Released(executions[id])];
        }
      }
    }

    /** createRun, once its row is inserted. */
    method CreateDone(id: Id)
      requires Valid() && Sound(State(), Event.CreateDone(id))
      modifies this, semaphore
      ensures State() == Step(old(State()), Event.CreateDone(id), maxParallelRuns) && Valid()
    {
      StepKeepsInv(State(), Event.CreateDone(id), maxParallelRuns);
      queued := queued + [id];
      Pump();
    }

    /** pause, up to its first row update. */
    method RequestPause(id: Id)
      requires Valid()
      modifies this`pauseRequested
      ensures State() == Step(old(State()), PauseFlag(id), maxParallelRuns) && Valid()
    {
      StepKeepsInv(State(), PauseFlag(id), maxParallelRuns);
      pauseRequested := pauseRequested + {id};
    }

    /** resume, up to its first row update. */
    method ClearPause(id: Id)
      requires Valid()
      modifies this`pauseRequested
      ensures State() == Step(old(State()), ResumeFlag(id), maxParallelRuns) && Valid()
    {
      StepKeepsInv(State(), ResumeFlag(id), maxParallelRuns);
      pauseRequested := pauseRequested - {id};
    }

    /** resume, once the pause flag of the row is cleared; `read` is the status it started from. It
        keeps the invariant exactly when it does not queue a run that has a live execution. */
    method ResumeWake(id: Id, read: Status)
      requires Valid()
      modifies this
      ensures State() == Step(old(State()), Event.ResumeWake(id, read), maxParallelRuns)
      ensures Valid() <==> !old(RequeuesLiveRun(State(), id, read))
    {
      ResumeKeepsInvIff(State(), id, read, maxParallelRuns);
      if id in resumeWaiters {
        CallWaiter(id);
      } else if read == Paused {
        if id !in queued {
          queued := queued + [id];
        }
      }
    }

    /** The end of a resume that queued its run. */
    method FinishResume()
      modifies this, semaphore
      ensures State() == Step(old(State()), ResumePump, maxParallelRuns)
      ensures old(Valid()) ==> Valid()
    {
      if Valid() {
        StepKeepsInv(State(), ResumePump, maxParallelRuns);
      }
      Pump();
    }

    /** cancel, up to its row update; `read` is the status it started from. */
    method RequestCancel(id: Id, read: Status) returns (goesOn: bool)
      requires Valid()
      modifies this`cancelled
      ensures State() == Step(old(State()), CancelFlag(id, read), maxParallelRuns) && Valid()
      ensures goesOn == !Terminal(read)
    {
      StepKeepsInv(State(), CancelFlag(id, read), maxParallelRuns);
      if Terminal(read) {
        return false;
      }
      cancelled := cancelled + {id};
      return true;
    }

    /** cancel, once the row is cancelled. */
    method CancelDone(id: Id, read: Status)
      requires Valid() && !Terminal(read)
      modifies this
      ensures State() == Step(old(State()), Event.CancelDone(id, read), maxParallelRuns) && Valid()
    {
      StepKeepsInv(State(), Event.CancelDone(id, read), maxParallelRuns);
      queued := Without(queued, id);
      CallWaiter(id);
    }

    /** close begins: nothing starts any more, and the queue is taken over. */
    method StartClose() returns (taken: seq<Id>)
      requires Valid()
      modifies this`closed, this`queued
      ensures State() == Step(old(State()), CloseStart, maxParallelRuns) && Valid() && taken == old(queued)
    {
      StepKeepsInv(State(), CloseStart, maxParallelRuns);
      closed := true;
      taken, queued := queued, [];
    }

    /** close flags one run, before its row update. */
    method FlagInClose(id: Id, wasQueued: bool)
      requires Valid() && closed
      modifies this`cancelled, this`pauseRequested
      ensures State() == Step(old(State()), CloseFlag(id, wasQueued), maxParallelRuns) && Valid()
    {
      StepKeepsInv(State(), CloseFlag(id, wasQueued), maxParallelRuns);
      cancelled := cancelled + {id};
      if wasQueued {
        pauseRequested := pauseRequested - {id};
      }
    }

    /** The last phase of close: nobody is left waiting for a resume or for a slot. */
    method CloseWake()
      requires Valid() && closed
      modifies this, semaphore
      ensures State() == Step(old(State()), Event.CloseWake, maxParallelRuns) && Valid()
      ensures forall id :: id in executions ==>
        executions[id] != Blocked && executions[id] != Yielding(false) && executions[id] != Acquiring
    {
      StepKeepsInv(State(), Event.CloseWake, maxParallelRuns);
      var waiters := resumeWaiters;
      resumeWaiters := {};
      var refused := semaphore.Close();
      executions := map id | id in executions ::
        if id in refused then Granted(false)
        else if id in waiters then Released(executions[id])
        else executions[id];
    }

    /** An update of one row, under the guard of its statement. */
    method UpdateRow(id: Id, update: Update)
      requires Valid()
      modifies this`rows
      ensures State() == Step(old(State()), Row(id, update), maxParallelRuns) && Valid()
      ensures RowsKept(old(rows), rows)
    {
      StepKeepsInv(State(), Row(id, update), maxParallelRuns);
      StepKeepsRows(State(), Row(id, update), maxParallelRuns);
      if id in rows {
        rows := rows[id := Updated(update, rows[id])];
      }
    }

    /** A checkpoint between agent steps. */
    method CheckRun(id: Id)
      requires id in executions
      modifies this`executions, this`resumeWaiters
      ensures State() == Checkpoint(old(State()), id)
    {
      if id in cancelled || closed {
        executions := executions[id := Finishing(Cancelled)];
      } else if id in pauseRequested {
        resumeWaiters := resumeWaiters + {id};
        executions := executions[id := Yielding(false)];
      } else {
        executions := executions[id := Active];
      }
    }

    /** The checkpoint's second look, once a yield is over. */
    method RecheckRun(id: Id)
      modifies this`executions
      ensures State() == Recheck(old(State()), id)
    {
      executions := executions[id := if id in cancelled || closed then Finishing(Cancelled) else Active];
    }

    /** The pipeline of a run returned, or an await of its execution threw. */
    method PipelineEnded(id: Id, outcome: Status)
      requires Valid()
      modifies this`executions, this`pauseRequested
      ensures State() == Step(old(State()), Finish(id, outcome), maxParallelRuns) && Valid()
    {
      StepKeepsInv(State(), Finish(id, outcome), maxParallelRuns);
      if id !in executions {
        return;
      }
      var phase := executions[id];
      if phase == Starting || phase == Active || phase == Remarking || phase.Yielding? {
        if id in cancelled || closed {
          executions := executions[id := Finishing(Cancelled)];
        } else {
          executions := executions[id := Finishing(outcome)];
          pauseRequested := pauseRequested - {id};
        }
      }
    }

    /** Resume one suspended execution, up to its next await. */
    method Continue(id: Id)
      requires Valid()
      modifies this, semaphore
      ensures State() == Step(old(State()), Advance(id), maxParallelRuns) && Valid()
    {
      StepKeepsInv(State(), Advance(id), maxParallelRuns);
      if id in executions {
        AdvanceExecution(id);
      }
    }

    method AdvanceExecution(id: Id)
      requires id in executions
      modifies this, semaphore
      ensures State() == AdvanceRun(old(State()), id)
    {
      match executions[id] {
        case Starting => CheckRun(id);
        case Active => CheckRun(id);
        case Yielding(released) => YieldSlot(id, released);
        case Blocked =>
        case Woken => Reacquire(id);
        case Acquiring =>
        case Granted(granted) => TakeSlot(id, granted);
        case Remarking => RecheckRun(id);
        case Finishing(_) => Settle(id);
      }
    }

    /** The paused row is written: give the slot up and let queued runs start. */
    method YieldSlot(id: Id, released: bool)
      requires id in executions
      modifies this, semaphore
      ensures State() == Yielded(old(State()), id, released)
    {
      slotOwners := slotOwners - {id};
      executions := executions[id := if released then Woken else Blocked];
      ReleaseSlot();
      Pump();
    }

    method Reacquire(id: Id)
      requires id in executions
      modifies this`executions, semaphore
      ensures State() == Rewoken(old(State()), id)
    {
      if id in cancelled || closed {
        executions := executions[id := Finishing(Cancelled)];
        return;
      }
      var granted := semaphore.Acquire(id);
      executions := executions[id := if granted.Some? then Granted(granted.value) else Acquiring];
    }

    method TakeSlot(id: Id, granted: bool)
      requires id in executions
      modifies this, semaphore
      ensures State() == AfterGrant(old(State()), id, granted)
    {
      if !granted || closed || id in cancelled {
        if granted {
          ReleaseSlot();
        }
        RecheckRun(id);
        return;
      }
      slotOwners := slotOwners + {id};
      executions := executions[id := Remarking];
    }

    /** The end of an execution, however it ended. */
    method Settle(id: Id)
      requires id in executions
      modifies this, semaphore
      ensures State() == Ended(old(State()), id)
    {
      var owned := id in slotOwners;
      executions := executions - {id};
      cancelled := cancelled - {id};
      pauseRequested := pauseRequested - {id};
      slotOwners := slotOwners - {id};
      if owned {
        ReleaseSlot();
      }
      Pump();
    }
  }
}
