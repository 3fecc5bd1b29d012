/** The run scheduler as a state machine. Everything between two awaits is one atomic step; row
    updates are steps of their own, so they may fall anywhere between the steps around them. */
module SchedulerMachine {
  import opened Prelude

  type Id = nat

  datatype Status = Queued | Running | Paused | Done | Failed | Cancelled

  predicate Terminal(s: Status) {
    s == Done || s == Failed || s == Cancelled
  }

  /** Where an execution is: before its first row update; between agent steps; writing its paused
      row (already released or not); waiting for resume; released; in the semaphore's queue; woken
      by the semaphore, with or without a slot; writing its running row again; finalizing. */
  datatype Phase =
    | Starting
    | Active
    | Yielding(released: bool)
    | Blocked
    | Woken
    | Acquiring
    | Granted(granted: bool)
    | Remarking
    | Finishing(outcome: Status)

  /** `phases` has an entry per run with a live execution; `waiting` are the runs with a resume
      waiter. */
  datatype Sched = Sched(
    rows: map<Id, Status>, queued: seq<Id>, phases: map<Id, Phase>, owners: set<Id>,
    pauseRequested: set<Id>, cancelled: set<Id>, waiting: set<Id>,
    free: int, acquirers: seq<Id>, semaphoreClosed: bool, closed: bool)

  // ----- Row updates, each with the guard of its statement -----

  /** `CancelRead` is the update of a cancel that read the row's status earlier, and returned if it
      was terminal; `CancelAny` is the one by which close cancels a run of its queue. */
  datatype Update =
    | PauseQueued
    | RequeuePaused
    | CancelRead(read: Status)
    | CancelAny
    | CancelUnfinished
    | MarkRunning
    | YieldRunning
    | Finalize(outcome: Status)

  function Updated(u: Update, s: Status): Status {
    match u
    case PauseQueued => if s == Queued then Paused else s
    case RequeuePaused => if s == Paused then Queued else s
    case CancelRead(read) => if !Terminal(read) then Cancelled else s
    case CancelAny => Cancelled
    case CancelUnfinished => if s != Done && s != Failed then Cancelled else s
    case MarkRunning => if !Terminal(s) then Running else s
    case YieldRunning => if s == Running then Paused else s
    case Finalize(outcome) => if (outcome == Done || outcome == Failed) && s != Cancelled then outcome else s
  }

  function UpdateRow(rows: map<Id, Status>, id: Id, u: Update): map<Id, Status> {
    if id in rows then rows[id := Updated(u, rows[id])] else rows
  }

  // ----- The semaphore -----

  /** Free one slot: it goes to the longest-waiting acquirer, or back to the pool. */
  function Release(s: Sched): Sched {
    if s.acquirers != [] then
      s.(acquirers := s.acquirers[1..], phases := s.phases[s.acquirers[0] := Granted(true)])
    else s.(free := s.free + 1)
  }

  /** A resumed execution asks for a slot. */
  function Acquire(s: Sched, id: Id): Sched {
    if !s.semaphoreClosed && s.free > 0 then s.(free := s.free - 1, phases := s.phases[id := Granted(true)])
    else if s.semaphoreClosed then s.(phases := s.phases[id := Granted(false)])
    else s.(acquirers := s.acquirers + [id], phases := s.phases[id := Acquiring])
  }

  // ----- Starting queued runs -----

  /** The first queued run that is not pause-requested. */
  function Startable(queued: seq<Id>, pauseRequested: set<Id>): (r: Option<nat>)
    ensures r.Some? ==> r.value < |queued| && queued[r.value] !in pauseRequested
    ensures r.Some? ==> forall i :: 0 <= i < r.value ==> queued[i] in pauseRequested
    ensures r.None? ==> forall i :: 0 <= i < |queued| ==> queued[i] in pauseRequested
  {
    if queued == [] then None
    else if queued[0] !in pauseRequested then Some(0)
    else
      var rest := Startable(queued[1..], pauseRequested);
      if rest.Some? then Some(rest.value + 1) else None
  }

  predicate CanStart(s: Sched) {
    !s.closed && Startable(s.queued, s.pauseRequested).Some? && !s.semaphoreClosed && s.free > 0
  }

  function Start(s: Sched, i: nat): Sched
    requires i < |s.queued|
  {
    s.(queued := s.queued[..i] + s.queued[i + 1..], free := s.free - 1,
       owners := s.owners + {s.queued[i]}, phases := s.phases[s.queued[i] := Starting])
  }

  function Pump(s: Sched): Sched
    decreases |s.queued|
  {
    if CanStart(s) then Pump(Start(s, Startable(s.queued, s.pauseRequested).value)) else s
  }

  // ----- Executions -----

  predicate Stopped(s: Sched, id: Id) {
    id in s.cancelled || s.closed
  }

  /** A checkpoint between agent steps: abort, yield, or go on. */
  function Checkpoint(s: Sched, id: Id): Sched {
    if Stopped(s, id) then s.(phases := s.phases[id := Finishing(Cancelled)])
    else if id in s.pauseRequested then s.(phases := s.phases[id := Yielding(false)], waiting := s.waiting + {id})
    else s.(phases := s.phases[id := Active])
  }

  /** Back from a yield: the checkpoint looks again before the run goes on. */
  function Recheck(s: Sched, id: Id): Sched {
    s.(phases := s.phases[id := if Stopped(s, id) then Finishing(Cancelled) else Active])
  }

  /** The paused row is written: give the slot up, let queued runs start, wait for the release. */
  function Yielded(s: Sched, id: Id, released: bool): Sched {
    Pump(Release(s.(owners := s.owners - {id}, phases := s.phases[id := if released then Woken else Blocked])))
  }

  function Rewoken(s: Sched, id: Id): Sched {
    if Stopped(s, id) then s.(phases := s.phases[id := Finishing(Cancelled)]) else Acquire(s, id)
  }

  function AfterGrant(s: Sched, id: Id, granted: bool): Sched {
    if granted && !Stopped(s, id) then s.(owners := s.owners + {id}, phases := s.phases[id := Remarking])
    else Recheck(if granted then Release(s) else s, id)
  }

  function Forgotten(s: Sched, id: Id): Sched {
    s.(phases := s.phases - {id}, cancelled := s.cancelled - {id}, pauseRequested := s.pauseRequested - {id},
       owners := s.owners - {id})
  }

  /** The end of an execution: forget it, free its slot, let queued runs start. */
  function Ended(s: Sched, id: Id): Sched {
    var rest := Forgotten(s, id);
    Pump(if id in s.owners then Release(rest) else rest)
  }

  /** What calling its resume waiter does to an execution. */
  function Released(phase: Phase): Phase {
    if phase == Blocked then Woken else if phase.Yielding? then Yielding(true) else phase
  }

  /** Call the resume waiter of a run, if it has one. */
  function Wake(s: Sched, id: Id): Sched {
    if id !in s.waiting then s
    else s.(waiting := s.waiting - {id},
            phases := if id in s.phases then s.phases[id := Released(s.phases[id])] else s.phases)
  }

  // ----- Steps -----

  datatype Event =
    | CreateRow(id: Id)
    | CreateDone(id: Id)
    | PauseFlag(id: Id)
    | ResumeFlag(id: Id)
    | ResumeWake(id: Id, read: Status)
    | ResumePump
    | CancelFlag(id: Id, read: Status)
    | CancelDone(id: Id, read: Status)
    | CloseStart
    | CloseFlag(id: Id, wasQueued: bool)
    | CloseWake
    | Row(id: Id, update: Update)
    | Advance(id: Id)
    | Finish(id: Id, outcome: Status)
    | Restart
    | Recover(order: seq<Id>)

  /** Move one execution on by its next step. */
  function AdvanceRun(s: Sched, id: Id): Sched
    requires id in s.phases
  {
    match s.phases[id]
    case Starting => Checkpoint(s, id)
    case Active => Checkpoint(s, id)
    case Yielding(released) => Yielded(s, id, released)
    case Blocked => s
    case Woken => Rewoken(s, id)
    case Acquiring => s
    case Granted(granted) => AfterGrant(s, id, granted)
    case Remarking => Recheck(s, id)
    case Finishing(_) => Ended(s, id)
  }

  /** The pipeline returned, or an await of the execution threw. */
  function FinishRun(s: Sched, id: Id, outcome: Status): Sched
    requires id in s.phases
  {
    var phase := s.phases[id];
    if phase == Starting || phase == Active || phase == Remarking || phase.Yielding? then
      if Stopped(s, id) then s.(phases := s.phases[id := Finishing(Cancelled)])
      else s.(phases := s.phases[id := Finishing(outcome)], pauseRequested := s.pauseRequested - {id})
    else s
  }

  /** The wake phase of close: call every resume waiter, refuse every acquirer. */
  function WakeAll(s: Sched): Sched {
    s.(waiting := {}, acquirers := [], semaphoreClosed := true,
       phases := map id | id in s.phases ::
         if id in s.acquirers then Granted(false)
         else if id in s.waiting then Released(s.phases[id])
         else s.phases[id])
  }

  /** Restart recovery: running rows become paused. */
  function Recovered(rows: map<Id, Status>): map<Id, Status> {
    map id | id in rows :: if rows[id] == Running then Paused else rows[id]
  }

  /** A new scheduler over the rows it finds. */
  function Fresh(rows: map<Id, Status>, maxParallelRuns: nat): Sched {
    Sched(rows, [], map[], {}, {}, {}, {}, maxParallelRuns, [], false, false)
  }

  function Without(queued: seq<Id>, id: Id): seq<Id> {
    if queued == [] then [] else if queued[0] == id then queued[1..] else [queued[0]] + Without(queued[1..], id)
  }

  function Step(s: Sched, e: Event, maxParallelRuns: nat): Sched {
    match e
    case CreateRow(id) => if id in s.rows then s else s.(rows := s.rows[id := Queued])
    case CreateDone(id) => Pump(s.(queued := s.queued + [id]))
    case PauseFlag(id) => s.(pauseRequested := s.pauseRequested + {id})
    case ResumeFlag(id) => s.(pauseRequested := s.pauseRequested - {id})
    case ResumeWake(id, read) =>
      if id in s.waiting then Wake(s, id)
      else if read == Paused && id !in s.queued then s.(queued := s.queued + [id])
      else s
    case ResumePump => Pump(s)
    case CancelFlag(id, read) => if Terminal(read) then s else s.(cancelled := s.cancelled + {id})
    case CancelDone(id, read) => if Terminal(read) then s else Wake(s.(queued := Without(s.queued, id)), id)
    case CloseStart => s.(closed := true, queued := [])
    case CloseFlag(id, wasQueued) =>
      if s.closed then
        s.(cancelled := s.cancelled + {id},
           pauseRequested := if wasQueued then s.pauseRequested - {id} else s.pauseRequested)
      else s
    case CloseWake => if s.closed then WakeAll(s) else s
    case Row(id, update) => s.(rows := UpdateRow(s.rows, id, update))
    case Advance(id) => if id in s.phases then AdvanceRun(s, id) else s
    case Finish(id, outcome) => if id in s.phases then FinishRun(s, id, outcome) else s
    case Restart => Fresh(s.rows, maxParallelRuns)
    case Recover(order) => Pump(s.(rows := Recovered(s.rows), queued := s.queued + order))
  }

  function RunOf(s: Sched, events: seq<Event>, maxParallelRuns: nat): Sched
    decreases |events|
  {
    if events == [] then s else RunOf(Step(s, events[0], maxParallelRuns), events[1..], maxParallelRuns)
  }
}
