/** What every run of the scheduler keeps. */
module SchedulerSafety {
  import opened SchedulerMachine

  // ----- Terminal rows -----

  lemma UpdatesKeepTerminal(u: Update, s: Status)
    ensures Terminal(s) ==> Terminal(Updated(u, s))
    ensures s == Cancelled ==> Updated(u, s) == Cancelled
  {
  }

  /** The rows after a step: none is lost, a terminal one stays terminal, `cancelled` stays. */
  /** The updates that bring a row to another status, from where and to where. */
  lemma RowChangesIff(u: Update, from: Status, to: Status)
    requires from != to
    ensures Updated(u, from) == to <==>
      || (from == Queued && to == Paused && u == PauseQueued)
      || (from == Running && to == Paused && u == YieldRunning)
      || (from == Paused && to == Queued && u == RequeuePaused)
      || (from in {Queued, Paused} && to == Running && u == MarkRunning)
      || (from != Cancelled && to in {Done, Failed} && u == Finalize(to))
      || (to == Cancelled && (u in {CancelRead(Queued), CancelRead(Running), CancelRead(Paused), CancelAny}
                              || (from !in {Done, Failed} && u == CancelUnfinished)))
  {
  }

  /** A restart and its recovery leave no row running: what ran is paused, and the other rows are as before. */
  lemma RecoveryPauses(s: Sched, order: seq<Id>, max: nat, id: Id)
    requires id in s.rows
    ensures var t := Step(Step(s, Restart, max), Recover(order), max);
      id in t.rows && t.rows[id] == if s.rows[id] == Running then Paused else s.rows[id]
  {
    var r := Step(s, Restart, max);
    PumpKeepsRows(r.(rows := Recovered(r.rows), queued := r.queued + order));
  }

  ghost predicate RowsKept(before: map<Id, Status>, after: map<Id, Status>) {
    forall id :: id in before ==>
      && id in after && (Terminal(before[id]) ==> Terminal(after[id]))
      && (before[id] == Cancelled ==> after[id] == Cancelled)
  }

  lemma {:induction false} PumpKeepsRows(s: Sched)
    ensures Pump(s).rows == s.rows
    decreases |s.queued|
  {
    if CanStart(s) {
      PumpKeepsRows(Start(s, Startable(s.queued, s.pauseRequested).value));
    }
  }

  lemma StepKeepsRows(s: Sched, e: Event, max: nat)
    ensures RowsKept(s.rows, Step(s, e, max).rows)
  {
    match e
    case CreateDone(id) => PumpKeepsRows(s.(queued := s.queued + [id]));
    case ResumePump => PumpKeepsRows(s);
    case Row(id, update) => if id in s.rows { UpdatesKeepTerminal(update, s.rows[id]); }
    case Advance(id) => if id in s.phases { AdvanceKeepsRows(s, id); }
    case Recover(order) => PumpKeepsRows(s.(rows := Recovered(s.rows), queued := s.queued + order));
    case _ =>
  }

  lemma AdvanceKeepsRows(s: Sched, id: Id)
    requires id in s.phases
    ensures AdvanceRun(s, id).rows == s.rows
  {
    match s.phases[id]
    case Yielding(released) =>
      var phase := if released then Woken else Blocked;
      PumpKeepsRows(Release(s.(owners := s.owners - {id}, phases := s.phases[id := phase])));
    case Finishing(_) =>
      var rest := Forgotten(s, id);
      PumpKeepsRows(if id in s.owners then Release(rest) else rest);
    case _ =>
  }

  /** Over every run, restarts included: a done, failed or cancelled row never becomes queued,
      running or paused again, and a cancelled row stays cancelled. */
  lemma {:induction false} TerminalRowsStay(s: Sched, events: seq<Event>, max: nat)
    ensures RowsKept(s.rows, RunOf(s, events, max).rows)
    decreases |events|
  {
    if events != [] {
      StepKeepsRows(s, events[0], max);
      TerminalRowsStay(Step(s, events[0], max), events[1..], max);
    }
  }

  /** The updates that take a row out of `done`: a cancel that read an unfinished row, close's for a
      queued run, and the failure of a second execution. */
  predicate Undoes(u: Update) {
    u == CancelAny || (u.CancelRead? && !Terminal(u.read)) || u == Finalize(Failed)
  }

  /** `done` alone is not absorbing. A step keeps a row `done` exactly if it is no such update of it. */
  lemma DoneStaysIff(s: Sched, id: Id, e: Event, max: nat)
    requires id in s.rows && s.rows[id] == Done
    ensures id in Step(s, e, max).rows
    ensures Step(s, e, max).rows[id] == Done <==> !(e.Row? && e.id == id && Undoes(e.update))
  {
    match e
    case CreateDone(other) => PumpKeepsRows(s.(queued := s.queued + [other]));
    case ResumePump => PumpKeepsRows(s);
    case Advance(other) => if other in s.phases { AdvanceKeepsRows(s, other); }
    case Recover(order) => PumpKeepsRows(s.(rows := Recovered(s.rows), queued := s.queued + order));
    case _ =>
  }

  /** So a row stays `done` over every run without such an update of it. */
  lemma {:induction false} DoneStays(s: Sched, id: Id, events: seq<Event>, max: nat)
    requires id in s.rows && s.rows[id] == Done
    requires forall i :: 0 <= i < |events| ==> !(events[i].Row? && events[i].id == id && Undoes(events[i].update))
    ensures id in RunOf(s, events, max).rows && RunOf(s, events, max).rows[id] == Done
    decreases |events|
  {
    if events != [] {
      DoneStaysIff(s, id, events[0], max);
      DoneStays(Step(s, events[0], max), id, events[1..], max);
    }
  }

  // ----- Slots -----

  predicate HoldsSlot(phase: Phase) {
    phase == Starting || phase == Active || phase.Yielding? || phase == Remarking
  }

  predicate GivenUpSlot(phase: Phase) {
    phase == Blocked || phase == Woken || phase == Acquiring || phase.Granted?
  }

  /** Executions that were granted a slot and have not recorded it yet. */
  ghost function Unrecorded(phases: map<Id, Phase>): set<Id> {
    set id | id in phases && phases[id] == Granted(true)
  }

  ghost function Slots(s: Sched): int {
    s.free + |s.owners| + |Unrecorded(s.phases)|
  }

  ghost predicate Distinct(q: seq<Id>) {
    forall i, j :: 0 <= i < j < |q| ==> q[i] != q[j]
  }

  /** Owners are live executions, in a phase that fits. */
  ghost predicate OwnersFit(s: Sched) {
    && s.free >= 0
    && (forall id :: id in s.owners ==> id in s.phases)
    && (forall id :: id in s.phases && HoldsSlot(s.phases[id]) ==> id in s.owners)
    && (forall id :: id in s.phases && GivenUpSlot(s.phases[id]) ==> id !in s.owners)
  }

  /** One live execution per run: a queued run has none, and is queued once. */
  ghost predicate OneExecution(s: Sched) {
    Distinct(s.queued) && forall id :: id in s.queued ==> id !in s.phases
  }

  /** The semaphore's queue holds the acquiring executions, and only while no slot is free. */
  ghost predicate AcquirersFit(s: Sched) {
    && Distinct(s.acquirers)
    && (forall id :: id in s.acquirers ==> id in s.phases && s.phases[id] == Acquiring)
    && (forall id :: id in s.phases && s.phases[id] == Acquiring ==> id in s.acquirers)
    && (s.acquirers != [] ==> s.free == 0)
  }

  /** No wake-up is lost: whoever waits, or is about to wait, for a release has a waiter; once the
      wake phase of close has run, nobody waits for a release or for a slot. */
  ghost predicate WaitersFit(s: Sched) {
    && (forall id :: id in s.phases && (s.phases[id] == Blocked || s.phases[id] == Yielding(false)) ==> id in s.waiting)
    && (forall id :: id in s.phases && s.phases[id] == Granted(false) ==> s.semaphoreClosed)
    && (s.semaphoreClosed ==> s.closed && s.acquirers == [] && s.waiting == {})
  }

  ghost predicate Inv(s: Sched, max: int) {
    Slots(s) == max && OwnersFit(s) && OneExecution(s) && AcquirersFit(s) && WaitersFit(s)
  }

  /** A resume that read its run as paused, finds no waiter and no place of the run in the queue, and
      queues it beside a live execution. */
  predicate RequeuesLiveRun(s: Sched, id: Id, read: Status) {
    id !in s.waiting && read == Paused && id !in s.queued && id in s.phases
  }

  /** The hypotheses on the environment: created ids are new, and recovery, which comes before
      everything else, lists each queued row once. */
  ghost predicate Lawful(s: Sched, e: Event) {
    match e
    case CreateDone(id) => id !in s.queued && id !in s.phases
    case Recover(order) => Distinct(s.queued + order) && forall id :: id in order ==> id !in s.phases
    case _ => true
  }

  /** A step under these hypotheses that does not queue a live run. */
  ghost predicate Sound(s: Sched, e: Event) {
    Lawful(s, e) && (e.ResumeWake? ==> !RequeuesLiveRun(s, e.id, e.read))
  }

  lemma UnrecordedUpdate(phases: map<Id, Phase>, id: Id, phase: Phase)
    ensures Unrecorded(phases[id := phase]) ==
            if phase == Granted(true) then Unrecorded(phases) + {id} else Unrecorded(phases) - {id}
  {
  }

  // ----- Release, acquire, pump -----

  lemma ReleaseSlots(s: Sched)
    requires AcquirersFit(s)
    ensures Slots(Release(s)) == Slots(s) + 1
  {
    if s.acquirers != [] {
      assert s.acquirers[0] in s.acquirers;
      UnrecordedUpdate(s.phases, s.acquirers[0], Granted(true));
      assert s.acquirers[0] !in Unrecorded(s.phases);
    }
  }

  lemma ReleaseAcquirers(s: Sched)
    requires AcquirersFit(s)
    ensures AcquirersFit(Release(s))
  {
    if s.acquirers != [] {
      var t := Release(s);
      assert s.acquirers == [s.acquirers[0]] + t.acquirers;
      assert forall id :: id in t.acquirers ==> id in s.acquirers && id != s.acquirers[0];
      assert forall id :: id in s.acquirers ==> id == s.acquirers[0] || id in t.acquirers;
    }
  }

  lemma ReleaseFits(s: Sched)
    requires OwnersFit(s) && OneExecution(s) && AcquirersFit(s) && WaitersFit(s)
    ensures OwnersFit(Release(s)) && OneExecution(Release(s)) && WaitersFit(Release(s))
  {
    if s.acquirers != [] {
      var first := s.acquirers[0];
      assert first in s.acquirers && s.phases[first] == Acquiring;
      assert first !in s.queued && first !in s.owners;
    }
  }

  lemma ReleaseKeeps(s: Sched)
    requires OwnersFit(s) && OneExecution(s) && AcquirersFit(s) && WaitersFit(s)
    ensures Inv(Release(s), Slots(s) + 1)
  {
    ReleaseSlots(s);
    ReleaseAcquirers(s);
    ReleaseFits(s);
  }

  lemma StartOneExecution(s: Sched, i: nat)
    requires OneExecution(s) && i < |s.queued|
    ensures OneExecution(Start(s, i))
  {
    var t := Start(s, i);
    forall q | q in t.queued
      ensures q in s.queued && q != s.queued[i]
    {
      var j :| 0 <= j < |t.queued| && t.queued[j] == q;
      assert q == if j < i then s.queued[j] else s.queued[j + 1];
    }
  }

  lemma StartSlots(s: Sched, i: nat)
    requires OwnersFit(s) && i < |s.queued| && s.queued[i] !in s.phases
    ensures Slots(Start(s, i)) == Slots(s)
  {
    var id := s.queued[i];
    UnrecordedUpdate(s.phases, id, Starting);
    assert Unrecorded(s.phases) - {id} == Unrecorded(s.phases);
    assert id !in s.owners;
  }

  lemma StartFits(s: Sched, i: nat)
    requires OwnersFit(s) && AcquirersFit(s) && WaitersFit(s) && i < |s.queued| && s.queued[i] !in s.phases
    requires s.free > 0 && !s.semaphoreClosed
    ensures OwnersFit(Start(s, i)) && AcquirersFit(Start(s, i)) && WaitersFit(Start(s, i))
  {
  }

  lemma StartKeeps(s: Sched, max: nat, i: nat)
    requires Inv(s, max) && i < |s.queued| && s.free > 0 && !s.semaphoreClosed
    ensures Inv(Start(s, i), max)
  {
    assert s.queued[i] in s.queued;
    StartOneExecution(s, i);
    StartSlots(s, i);
    StartFits(s, i);
  }

  lemma {:induction false} PumpKeeps(s: Sched, max: nat)
    requires Inv(s, max)
    ensures Inv(Pump(s), max) && !CanStart(Pump(s))
    decreases |s.queued|
  {
    if CanStart(s) {
      var i := Startable(s.queued, s.pauseRequested).value;
      StartKeeps(s, max, i);
      PumpKeeps(Start(s, i), max);
    }
  }

  lemma AcquireSlots(s: Sched, id: Id)
    requires id in s.phases && s.phases[id] == Woken
    ensures Slots(Acquire(s, id)) == Slots(s)
  {
    UnrecordedUpdate(s.phases, id, Acquire(s, id).phases[id]);
    assert Unrecorded(s.phases) - {id} == Unrecorded(s.phases);
  }

  lemma AcquireAcquirers(s: Sched, id: Id)
    requires OwnersFit(s) && AcquirersFit(s) && id in s.phases && s.phases[id] == Woken
    ensures AcquirersFit(Acquire(s, id))
  {
    var t := Acquire(s, id);
    assert id !in s.acquirers;
    if t.acquirers != s.acquirers {
      assert t.acquirers == s.acquirers + [id];
    }
  }

  lemma AcquireFits(s: Sched, id: Id)
    requires OwnersFit(s) && OneExecution(s) && WaitersFit(s) && id in s.phases && s.phases[id] == Woken
    ensures OwnersFit(Acquire(s, id)) && OneExecution(Acquire(s, id)) && WaitersFit(Acquire(s, id))
  {
  }

  lemma AcquireKeeps(s: Sched, max: nat, id: Id)
    requires Inv(s, max) && id in s.phases && s.phases[id] == Woken
    ensures Inv(Acquire(s, id), max)
  {
    AcquireSlots(s, id);
    AcquireAcquirers(s, id);
    AcquireFits(s, id);
  }

  // ----- Executions -----

  lemma MoveSlots(s: Sched, id: Id, phase: Phase)
    requires id in s.phases && s.phases[id] != Granted(true) && phase != Granted(true)
    ensures Slots(s.(phases := s.phases[id := phase])) == Slots(s)
  {
    UnrecordedUpdate(s.phases, id, phase);
    assert Unrecorded(s.phases) - {id} == Unrecorded(s.phases);
  }

  lemma MoveAcquirers(s: Sched, id: Id, phase: Phase)
    requires AcquirersFit(s) && id in s.phases && s.phases[id] != Acquiring && phase != Acquiring
    ensures AcquirersFit(s.(phases := s.phases[id := phase]))
  {
    assert id !in s.acquirers;
  }

  /** Moving one execution between phases that both hold, or both do not hold, a slot. */
  lemma MoveKeeps(s: Sched, max: nat, id: Id, phase: Phase)
    requires Inv(s, max) && id in s.phases && s.phases[id] != Acquiring && s.phases[id] != Granted(true)
    requires phase != Acquiring && !phase.Granted?
    requires (phase == Blocked || phase == Yielding(false)) ==> id in s.waiting
    requires (HoldsSlot(phase) ==> id in s.owners) && (GivenUpSlot(phase) ==> id !in s.owners)
    ensures Inv(s.(phases := s.phases[id := phase]), max)
  {
    MoveSlots(s, id, phase);
    MoveAcquirers(s, id, phase);
  }

  lemma CheckpointKeeps(s: Sched, max: nat, id: Id)
    requires Inv(s, max) && id in s.phases && HoldsSlot(s.phases[id])
    ensures Inv(Checkpoint(s, id), max)
  {
    if Stopped(s, id) {
      MoveKeeps(s, max, id, Finishing(Cancelled));
    } else if id in s.pauseRequested {
      assert !s.semaphoreClosed;
      MoveKeeps(s.(waiting := s.waiting + {id}), max, id, Yielding(false));
    } else {
      MoveKeeps(s, max, id, Active);
    }
  }

  /** An owner that gives its slot up, which is not yet released. */
  lemma GivenUpSlots(s: Sched, id: Id, phase: Phase)
    requires id in s.owners && id in s.phases && s.phases[id] != Granted(true) && phase != Granted(true)
    ensures Slots(s.(owners := s.owners - {id}, phases := s.phases[id := phase])) == Slots(s) - 1
  {
    UnrecordedUpdate(s.phases, id, phase);
    assert Unrecorded(s.phases) - {id} == Unrecorded(s.phases);
    assert |s.owners - {id}| == |s.owners| - 1;
  }

  lemma GivenUpFits(s: Sched, id: Id, released: bool)
    requires OwnersFit(s) && OneExecution(s) && WaitersFit(s) && id in s.phases && s.phases[id] == Yielding(released)
    ensures var t := s.(owners := s.owners - {id}, phases := s.phases[id := if released then Woken else Blocked]);
            OwnersFit(t) && OneExecution(t) && WaitersFit(t)
  {
  }

  lemma YieldedKeeps(s: Sched, max: nat, id: Id, released: bool)
    requires Inv(s, max) && id in s.phases && s.phases[id] == Yielding(released)
    ensures Inv(Yielded(s, id, released), max)
  {
    var phase := if released then Woken else Blocked;
    GivenUpSlots(s, id, phase);
    GivenUpFits(s, id, released);
    MoveAcquirers(s, id, phase);
    var t := s.(owners := s.owners - {id}, phases := s.phases[id := phase]);
    assert AcquirersFit(t);
    ReleaseKeeps(t);
    PumpKeeps(Release(t), max);
  }

  lemma RecordedSlots(s: Sched, id: Id)
    requires id in s.phases && s.phases[id] == Granted(true) && id !in s.owners
    ensures Slots(s.(owners := s.owners + {id}, phases := s.phases[id := Remarking])) == Slots(s)
  {
    UnrecordedUpdate(s.phases, id, Remarking);
    assert id in Unrecorded(s.phases);
  }

  lemma RecordedKeeps(s: Sched, max: nat, id: Id)
    requires Inv(s, max) && id in s.phases && s.phases[id] == Granted(true)
    ensures Inv(s.(owners := s.owners + {id}, phases := s.phases[id := Remarking]), max)
  {
    RecordedSlots(s, id);
    MoveAcquirers(s, id, Remarking);
    RecordedFits(s, id);
  }

  lemma RecordedFits(s: Sched, id: Id)
    requires OwnersFit(s) && OneExecution(s) && WaitersFit(s) && id in s.phases
    ensures var t := s.(owners := s.owners + {id}, phases := s.phases[id := Remarking]);
            OwnersFit(t) && OneExecution(t) && WaitersFit(t)
  {
  }

  /** An execution that held a slot, or was granted one, stops counting towards the slots. */
  lemma GiveUpKeeps(s: Sched, max: nat, id: Id)
    requires Inv(s, max) && id in s.phases && s.phases[id] == Granted(true)
    ensures Inv(Release(s.(phases := s.phases[id := Finishing(Cancelled)])), max)
  {
    var t := s.(phases := s.phases[id := Finishing(Cancelled)]);
    UnrecordedUpdate(s.phases, id, Finishing(Cancelled));
    assert id in Unrecorded(s.phases) && id !in s.acquirers;
    ReleaseKeeps(t);
  }

  lemma ReleaseElsewhere(s: Sched, id: Id, phase: Phase)
    requires id !in s.acquirers
    ensures Release(s.(phases := s.phases[id := phase])) == Release(s).(phases := Release(s).phases[id := phase])
  {
    if s.acquirers != [] {
      assert s.acquirers[0] in s.acquirers;
      var first := s.acquirers[0];
      assert s.phases[id := phase][first := Granted(true)] == s.phases[first := Granted(true)][id := phase];
    }
  }

  lemma AfterGrantKeeps(s: Sched, max: nat, id: Id, granted: bool)
    requires Inv(s, max) && id in s.phases && s.phases[id] == Granted(granted)
    ensures Inv(AfterGrant(s, id, granted), max)
  {
    assert id !in s.acquirers;
    if granted && !Stopped(s, id) {
      RecordedKeeps(s, max, id);
    } else if granted {
      GiveUpKeeps(s, max, id);
      ReleaseElsewhere(s, id, Finishing(Cancelled));
    } else {
      MoveKeeps(s, max, id, Finishing(Cancelled));
    }
  }

  /** Forgetting a finished execution that owns no slot. */
  lemma ForgetKeeps(s: Sched, id: Id)
    requires OwnersFit(s) && OneExecution(s) && AcquirersFit(s) && WaitersFit(s)
    requires id in s.phases && s.phases[id].Finishing?
    ensures var t := Forgotten(s, id);
            && OwnersFit(t) && OneExecution(t) && AcquirersFit(t) && WaitersFit(t)
            && Slots(t) == Slots(s) - if id in s.owners then 1 else 0
  {
    assert Unrecorded(s.phases - {id}) == Unrecorded(s.phases);
    assert id !in s.acquirers;
    assert id !in s.owners ==> s.owners - {id} == s.owners;
  }

  lemma EndedKeeps(s: Sched, max: nat, id: Id)
    requires Inv(s, max) && id in s.phases && s.phases[id].Finishing?
    ensures Inv(Ended(s, id), max)
  {
    var rest := Forgotten(s, id);
    ForgetKeeps(s, id);
    if id in s.owners {
      ReleaseKeeps(rest);
      PumpKeeps(Release(rest), max);
    } else {
      PumpKeeps(rest, max);
    }
  }

  lemma AdvanceKeeps(s: Sched, max: nat, id: Id)
    requires Inv(s, max) && id in s.phases
    ensures Inv(AdvanceRun(s, id), max)
  {
    match s.phases[id]
    case Starting => CheckpointKeeps(s, max, id);
    case Active => CheckpointKeeps(s, max, id);
    case Yielding(released) => YieldedKeeps(s, max, id, released);
    case Woken => if Stopped(s, id) { MoveKeeps(s, max, id, Finishing(Cancelled)); } else { AcquireKeeps(s, max, id); }
    case Granted(granted) => AfterGrantKeeps(s, max, id, granted);
    case Remarking => MoveKeeps(s, max, id, if Stopped(s, id) then Finishing(Cancelled) else Active);
    case Finishing(_) => EndedKeeps(s, max, id);
    case Blocked =>
    case Acquiring =>
  }

  lemma WakeKeeps(s: Sched, max: nat, id: Id)
    requires Inv(s, max)
    ensures Inv(Wake(s, id), max)
  {
    if id in s.waiting && id in s.phases {
      var phase := Released(s.phases[id]);
      UnrecordedUpdate(s.phases, id, phase);
    }
  }

  lemma WakeAllKeeps(s: Sched, max: nat)
    requires Inv(s, max) && s.closed
    ensures Inv(WakeAll(s), max)
  {
    assert Unrecorded(WakeAll(s).phases) == Unrecorded(s.phases);
    WakeAllFits(s);
  }

  lemma WakeAllFits(s: Sched)
    requires OwnersFit(s) && AcquirersFit(s) && WaitersFit(s) && s.closed
    ensures OwnersFit(WakeAll(s)) && AcquirersFit(WakeAll(s)) && WaitersFit(WakeAll(s))
  {
  }

  lemma {:induction false} WithoutKeeps(queued: seq<Id>, id: Id)
    requires Distinct(queued)
    ensures Distinct(Without(queued, id)) && forall q :: q in Without(queued, id) ==> q in queued
  {
    if queued != [] && queued[0] != id {
      WithoutKeeps(queued[1..], id);
      var rest := Without(queued[1..], id);
      forall j | 0 <= j < |rest|
        ensures rest[j] != queued[0]
      {
        assert rest[j] in queued[1..];
      }
    }
  }

  lemma FreshInv(rows: map<Id, Status>, max: nat)
    ensures Inv(Fresh(rows, max), max)
  {
    assert Unrecorded(map[]) == {};
  }

  /** The rows do not matter to the invariant, and neither do new runs at the end of the queue. */
  lemma QueueKeeps(s: Sched, max: nat, rows: map<Id, Status>, order: seq<Id>)
    requires Inv(s, max) && Distinct(s.queued + order) && forall id :: id in order ==> id !in s.phases
    ensures Inv(s.(rows := rows, queued := s.queued + order), max)
  {
  }

  lemma DistinctPlus(queued: seq<Id>, id: Id)
    requires Distinct(queued) && id !in queued
    ensures Distinct(queued + [id])
  {
  }

  lemma FinishKeeps(s: Sched, max: nat, id: Id, outcome: Status)
    requires Inv(s, max) && id in s.phases
    ensures Inv(FinishRun(s, id, outcome), max)
  {
    if HoldsSlot(s.phases[id]) {
      MoveKeeps(s, max, id, Finishing(if Stopped(s, id) then Cancelled else outcome));
    }
  }

  /** A step keeps the invariant exactly when it is not a resume that queues a live run. */
  lemma StepKeepsInv(s: Sched, e: Event, max: nat)
    requires Inv(s, max) && Lawful(s, e)
    ensures Inv(Step(s, e, max), max) <==> Sound(s, e)
  {
    match e
    case CreateDone(id) => CreatedKeeps(s, max, id);
    case ResumeWake(id, read) => ResumeKeepsInvIff(s, id, read, max);
    case ResumePump => PumpKeeps(s, max);
    case CancelDone(id, read) => if !Terminal(read) { DequeuedKeeps(s, max, id); }
    case CloseWake => if s.closed { WakeAllKeeps(s, max); }
    case Advance(id) => if id in s.phases { AdvanceKeeps(s, max, id); }
    case Finish(id, outcome) => if id in s.phases { FinishKeeps(s, max, id, outcome); }
    case Restart => FreshInv(s.rows, max);
    case Recover(order) => RecoveredKeeps(s, max, order);
    case _ => MarkKeeps(s, e, max);
  }

  /** The step writes a row or sets flags, or takes the queue over; executions are where they were. */
  predicate Marks(e: Event) {
    e.CreateRow? || e.PauseFlag? || e.ResumeFlag? || e.CancelFlag? || e.CloseStart? || e.CloseFlag? || e.Row?
  }

  lemma MarkKeeps(s: Sched, e: Event, max: nat)
    requires Inv(s, max) && Marks(e)
    ensures Inv(Step(s, e, max), max) && Step(s, e, max).phases == s.phases
  {
  }

  lemma CreatedKeeps(s: Sched, max: nat, id: Id)
    requires Inv(s, max) && id !in s.queued && id !in s.phases
    ensures Inv(Pump(s.(queued := s.queued + [id])), max)
  {
    DistinctPlus(s.queued, id);
    QueueKeeps(s, max, s.rows, [id]);
    PumpKeeps(s.(queued := s.queued + [id]), max);
  }

  lemma RecoveredKeeps(s: Sched, max: nat, order: seq<Id>)
    requires Inv(s, max) && Distinct(s.queued + order) && forall id :: id in order ==> id !in s.phases
    ensures Inv(Pump(s.(rows := Recovered(s.rows), queued := s.queued + order)), max)
  {
    QueueKeeps(s, max, Recovered(s.rows), order);
    PumpKeeps(s.(rows := Recovered(s.rows), queued := s.queued + order), max);
  }

  lemma DequeuedKeeps(s: Sched, max: nat, id: Id)
    requires Inv(s, max)
    ensures Inv(Wake(s.(queued := Without(s.queued, id)), id), max)
  {
    WithoutKeeps(s.queued, id);
    WakeKeeps(s.(queued := Without(s.queued, id)), max, id);
  }

  /** A resume keeps the invariant exactly when it does not queue a live run. */
  lemma ResumeKeepsInvIff(s: Sched, id: Id, read: Status, max: nat)
    requires Inv(s, max)
    ensures Inv(Step(s, ResumeWake(id, read), max), max) <==> !RequeuesLiveRun(s, id, read)
  {
    if id in s.waiting {
      WakeKeeps(s, max, id);
    } else if id !in s.queued && read == Paused {
      var t := Step(s, ResumeWake(id, read), max);
      assert t.queued[|s.queued|] == id;
      if id !in s.phases {
        DistinctPlus(s.queued, id);
        QueueKeeps(s, max, s.rows, [id]);
      }
    }
  }

  ghost predicate AllLawful(s: Sched, events: seq<Event>, max: nat)
    decreases |events|
  {
    events != [] ==> Lawful(s, events[0]) && AllLawful(Step(s, events[0], max), events[1..], max)
  }

  ghost predicate AllSound(s: Sched, events: seq<Event>, max: nat)
    decreases |events|
  {
    events != [] ==> Sound(s, events[0]) && AllSound(Step(s, events[0], max), events[1..], max)
  }

  // ----- Every run -----

  /** Free slots, owners and granted-but-unrecorded acquires add up to the cap; no run is both queued
      and executing; while somebody waits for a slot none is free, so pumping starts nothing; an
      execution that waits for a release has its waiter registered; after the wake phase of close
      nobody waits. */
  ghost predicate Safe(s: Sched, max: nat) {
    && s.free + |s.owners| + |Unrecorded(s.phases)| == max && s.free >= 0
    && (forall id :: id in s.queued ==> id !in s.phases && id !in s.owners)
    && (s.acquirers != [] ==> s.free == 0 && Pump(s) == s)
    && (forall id :: id in s.phases && s.phases[id] == Blocked ==> id in s.waiting)
    && (s.semaphoreClosed ==> forall id :: id in s.phases ==>
          s.phases[id] != Blocked && s.phases[id] != Yielding(false) && s.phases[id] != Acquiring)
  }

  /** Safe now and after each event. */
  ghost predicate SafeThroughout(s: Sched, events: seq<Event>, max: nat)
    decreases |events|
  {
    Safe(s, max) && (events != [] ==> SafeThroughout(Step(s, events[0], max), events[1..], max))
  }

  lemma {:induction false} SafeThroughoutIff(s: Sched, events: seq<Event>, max: nat)
    requires Inv(s, max) && AllLawful(s, events, max)
    ensures SafeThroughout(s, events, max) <==> AllSound(s, events, max)
    decreases |events|
  {
    assert Safe(s, max);
    if events != [] {
      var t := Step(s, events[0], max);
      if Sound(s, events[0]) {
        StepKeepsInv(s, events[0], max);
        SafeThroughoutIff(t, events[1..], max);
      } else {
        assert t.queued[|s.queued|] == events[0].id && events[0].id in t.phases;
        assert !Safe(t, max);
      }
    }
  }

  /** Over every interleaving of API calls, executions, close and restarts: the scheduler is safe all
      the way exactly when no resume queues a run that has a live execution. */
  lemma EveryRun(rows: map<Id, Status>, max: nat, events: seq<Event>)
    requires AllLawful(Fresh(rows, max), events, max)
    ensures SafeThroughout(Fresh(rows, max), events, max) <==> AllSound(Fresh(rows, max), events, max)
  {
    FreshInv(rows, max);
    SafeThroughoutIff(Fresh(rows, max), events, max);
  }

  /** The wake phase of close closes the semaphore for good: only a restart brings a new one. */
  lemma {:induction false} SemaphoreStaysClosed(s: Sched, events: seq<Event>, max: nat)
    requires s.semaphoreClosed && forall i :: 0 <= i < |events| ==> !events[i].Restart?
    ensures RunOf(s, events, max).semaphoreClosed
    decreases |events|
  {
    if events != [] {
      StepKeepsClosed(s, events[0], max);
      SemaphoreStaysClosed(Step(s, events[0], max), events[1..], max);
    }
  }

  lemma {:induction false} PumpWhenClosed(s: Sched)
    requires s.semaphoreClosed
    ensures Pump(s) == s
  {
  }

  lemma StepKeepsClosed(s: Sched, e: Event, max: nat)
    requires s.semaphoreClosed && !e.Restart?
    ensures Step(s, e, max).semaphoreClosed
  {
    if e.Advance? && e.id in s.phases && s.phases[e.id].Finishing? {
      var rest := Forgotten(s, e.id);
      PumpWhenClosed(if e.id in s.owners then Release(rest) else rest);
    }
  }

  // ----- No slot idles while a run could start, with two exceptions -----

  /** A stopped execution gives back the slot it was just granted; it pumps only when it ends. */
  predicate GivesBack(s: Sched, id: Id) {
    id in s.phases && s.phases[id] == Granted(true) && Stopped(s, id)
  }

  /** Some queued run is not asked to pause. */
  ghost predicate SomeStartable(s: Sched) {
    exists i :: 0 <= i < |s.queued| && s.queued[i] !in s.pauseRequested
  }

  /** The steps that leave a startable run beside a free slot: a resume that clears the flag of a
      queued run, or queues one that is not asked to pause; and a stopped execution that gives back a
      slot for which nobody waits. */
  ghost predicate Strands(s: Sched, e: Event) {
    && !s.closed && !s.semaphoreClosed
    && match e
       case ResumeFlag(id) => s.free > 0 && id in s.queued
       case ResumeWake(id, read) =>
         s.free > 0 && id !in s.waiting && read == Paused && id !in s.queued && id !in s.pauseRequested
       case Advance(id) => GivesBack(s, id) && s.acquirers == [] && SomeStartable(s)
       case _ => false
  }

  /** From a state without a startable run beside a free slot, a step leads to one exactly then. */
  lemma StepStrandsIff(s: Sched, e: Event, max: nat)
    requires Inv(s, max) && !CanStart(s)
    ensures CanStart(Step(s, e, max)) <==> Strands(s, e)
  {
    match e
    case Finish(id, outcome) => if id in s.phases { FinishStrandsNobody(s, id, outcome); }
    case CreateDone(id) => PumpStops(s.(queued := s.queued + [id]));
    case ResumePump => PumpStops(s);
    case CancelDone(id, read) => DequeueStrandsNobody(s, id);
    case ResumeFlag(id) => FlagStrandsIff(s, id, max);
    case ResumeWake(id, read) => RequeueStrandsIff(s, id, read, max);
    case Advance(id) => if id in s.phases { AdvanceStrandsIff(s, max, id); }
    case Recover(order) => PumpStops(s.(rows := Recovered(s.rows), queued := s.queued + order));
    case _ =>
  }

  lemma {:induction false} WithoutIsPart(queued: seq<Id>, id: Id)
    ensures forall q :: q in Without(queued, id) ==> q in queued
  {
    if queued != [] && queued[0] != id {
      WithoutIsPart(queued[1..], id);
    }
  }

  lemma DequeueStrandsNobody(s: Sched, id: Id)
    requires !CanStart(s)
    ensures !CanStart(Wake(s.(queued := Without(s.queued, id)), id))
  {
    WithoutIsPart(s.queued, id);
    var fewer := Without(s.queued, id);
    var i := Startable(fewer, s.pauseRequested);
    assert i.Some? ==> fewer[i.value] in s.queued;
  }

  lemma FinishStrandsNobody(s: Sched, id: Id, outcome: Status)
    requires OneExecution(s) && !CanStart(s) && id in s.phases
    ensures !CanStart(FinishRun(s, id, outcome))
  {
    var i := Startable(s.queued, FinishRun(s, id, outcome).pauseRequested);
    assert i.Some? ==> s.queued[i.value] in s.queued;
  }

  lemma FlagStrandsIff(s: Sched, id: Id, max: nat)
    requires !CanStart(s)
    ensures CanStart(Step(s, ResumeFlag(id), max)) <==>
            !s.closed && !s.semaphoreClosed && s.free > 0 && id in s.queued
  {
    if id in s.queued {
      var i :| 0 <= i < |s.queued| && s.queued[i] == id;
      assert s.queued[i] !in Step(s, ResumeFlag(id), max).pauseRequested;
    }
  }

  lemma RequeueStrandsIff(s: Sched, id: Id, read: Status, max: nat)
    requires !CanStart(s)
    ensures CanStart(Step(s, ResumeWake(id, read), max)) <==> Strands(s, ResumeWake(id, read))
  {
    var t := Step(s, ResumeWake(id, read), max);
    if id !in s.waiting && read == Paused && id !in s.queued {
      assert t.queued[|s.queued|] == id;
      assert forall i :: 0 <= i < |s.queued| ==> t.queued[i] == s.queued[i];
    }
  }

  lemma AdvanceStrandsIff(s: Sched, max: nat, id: Id)
    requires s.free >= 0 && !CanStart(s) && id in s.phases
    ensures CanStart(AdvanceRun(s, id)) <==> Strands(s, Advance(id))
  {
    if GivesBack(s, id) {
      GivenBackStrandsIff(s, id);
    } else {
      AdvanceLeavesNothingStartable(s, max, id);
    }
  }

  lemma GivenBackStrandsIff(s: Sched, id: Id)
    requires s.free >= 0 && !CanStart(s) && GivesBack(s, id)
    ensures CanStart(AdvanceRun(s, id)) <==> !s.closed && !s.semaphoreClosed && s.acquirers == [] && SomeStartable(s)
  {
  }

  lemma AdvanceLeavesNothingStartable(s: Sched, max: nat, id: Id)
    requires !CanStart(s) && id in s.phases && !GivesBack(s, id)
    ensures !CanStart(AdvanceRun(s, id))
  {
    match s.phases[id]
    case Yielding(released) =>
      var phase := if released then Woken else Blocked;
      PumpStops(Release(s.(owners := s.owners - {id}, phases := s.phases[id := phase])));
    case Finishing(_) =>
      var rest := Forgotten(s, id);
      PumpStops(if id in s.owners then Release(rest) else rest);
    case _ =>
  }

  lemma {:induction false} PumpStops(s: Sched)
    ensures !CanStart(Pump(s))
    decreases |s.queued|
  {
    if CanStart(s) {
      PumpStops(Start(s, Startable(s.queued, s.pauseRequested).value));
    }
  }

  // ----- One live execution per run: exactly when resume keeps it -----

  /** A resume without a waiter, having read `paused`, keeps one execution per run exactly when the
      run is already queued or has no live execution. */
  lemma RequeueKeepsOneExecution(s: Sched, id: Id, max: nat)
    requires OneExecution(s) && id !in s.waiting
    ensures OneExecution(Step(s, ResumeWake(id, Paused), max)) <==> id in s.queued || id !in s.phases
  {
    if id !in s.queued {
      var t := Step(s, ResumeWake(id, Paused), max);
      assert t.queued[|s.queued|] == id;
    }
  }
}
