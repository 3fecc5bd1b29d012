/** A cancel stops its run and a resume lets it go on: whoever waits is released, and ends up where it should
    by its own next steps, whatever happens in between. */
module SchedulerRelease {
  import opened Prelude
  import opened SchedulerMachine
  import opened SchedulerSafety

  /** The execution waits for no resume. */
  ghost predicate Freed(s: Sched, id: Id) {
    && id in s.phases && id !in s.waiting
    && s.phases[id] != Blocked && s.phases[id] != Yielding(false)
  }

  /** It is to stop, and waits for no resume. */
  ghost predicate Stopping(s: Sched, id: Id) {
    Freed(s, id) && (id in s.cancelled || s.closed)
  }

  /** What the calls set at once. A cancel that read a terminal status changes nothing, now or later; close
      flags every run that it finds, and asks a queued one no longer to pause. */
  lemma FlagsDecide(s: Sched, max: nat, id: Id, read: Status, wasQueued: bool)
    ensures Step(s, PauseFlag(id), max) == s.(pauseRequested := s.pauseRequested + {id})
    ensures Step(s, ResumeFlag(id), max) == s.(pauseRequested := s.pauseRequested - {id})
    ensures read in {Done, Failed, Cancelled} ==>
      Step(s, CancelFlag(id, read), max) == Step(s, CancelDone(id, read), max) == s
      && Step(s, Row(id, CancelRead(read)), max).rows == s.rows
    ensures read !in {Done, Failed, Cancelled} ==>
      Step(s, CancelFlag(id, read), max) == s.(cancelled := s.cancelled + {id})
    ensures var t := Step(s, CloseFlag(id, wasQueued), max);
      if !s.closed then t == s
      else
        && t == s.(cancelled := t.cancelled, pauseRequested := t.pauseRequested)
        && t.cancelled == s.cancelled + {id}
        && (id in t.pauseRequested <==> id in s.pauseRequested && !wasQueued)
        && t.pauseRequested - {id} == s.pauseRequested - {id}
    ensures !s.closed ==> Step(s, CloseWake, max) == s
    ensures Step(s, CloseStart, max) == s.(closed := true, queued := [])
  {
  }

  /** A cancel that has updated its row leaves the run out of the queue, and does not leave its execution
      waiting. */
  lemma CancelReleases(s: Sched, max: nat, id: Id, read: Status)
    requires Inv(s, max) && read != Done && read != Failed && read != Cancelled && id in s.cancelled
    ensures var t := Step(s, CancelDone(id, read), max);
      id !in t.queued && id !in t.waiting && (id in s.phases ==> Stopping(t, id))
  {
    WithoutOne(s.queued, id);
  }

  lemma {:induction false} WithoutOne(queued: seq<Id>, id: Id)
    requires Distinct(queued)
    ensures forall q :: q in Without(queued, id) <==> q in queued && q != id
    decreases |queued|
  {
    if queued != [] {
      assert queued == [queued[0]] + queued[1..];
      if queued[0] != id {
        WithoutOne(queued[1..], id);
      }
    }
  }

  /** A resume that finds a waiter calls it, whatever status it read. */
  lemma ResumeReleases(s: Sched, max: nat, id: Id, read: Status)
    requires Inv(s, max) && id in s.waiting
    ensures var t := Step(s, ResumeWake(id, read), max);
      && id !in t.waiting && t.queued == s.queued
      && (id in s.phases ==> Freed(t, id))
      && (id in s.phases && s.phases[id] == Blocked ==> t.phases[id] == Woken)
  {
  }

  // ----- Stopping -----

  /** The steps of its own that a stopping execution has left; while it waits for a slot, the grant is one. */
  function StepsLeft(phase: Phase): nat {
    match phase
    case Finishing(_) => 1
    case Yielding(_) => 3
    case Acquiring => 3
    case _ => 2
  }

  /** Pumping and a released slot leave an execution where it is, unless it waits for that slot. */
  lemma {:induction false} PumpLeaves(s: Sched, id: Id)
    requires id !in s.queued
    ensures id !in Pump(s).queued && (id in Pump(s).phases <==> id in s.phases)
    ensures id in s.phases ==> Pump(s).phases[id] == s.phases[id]
    ensures Pump(s).waiting == s.waiting && Pump(s).cancelled == s.cancelled && Pump(s).closed == s.closed
    ensures Pump(s).acquirers == s.acquirers && Pump(s).pauseRequested == s.pauseRequested
    decreases |s.queued|
  {
    if CanStart(s) {
      var i := Startable(s.queued, s.pauseRequested).value;
      var t := Start(s, i);
      assert s.queued[i] in s.queued;
      forall q | q in t.queued
        ensures q in s.queued
      {
        var j :| 0 <= j < |t.queued| && t.queued[j] == q;
        assert q == if j < i then s.queued[j] else s.queued[j + 1];
      }
      PumpLeaves(t, id);
    }
  }

  lemma OwnStepYields(s: Sched, max: nat, id: Id)
    requires Inv(s, max) && Freed(s, id) && s.phases[id] == Yielding(true)
    ensures var t := Step(s, Advance(id), max);
      && Freed(t, id) && t.phases[id] == Woken && t.cancelled == s.cancelled && t.closed == s.closed
  {
    var g := s.(owners := s.owners - {id}, phases := s.phases[id := Woken]);
    assert id !in s.queued;
    assert id !in s.acquirers;
    assert s.acquirers != [] ==> s.acquirers[0] in s.acquirers;
    PumpLeaves(Release(g), id);
  }

  lemma OwnStepEnds(s: Sched, max: nat, id: Id)
    requires Inv(s, max) && Freed(s, id) && s.phases[id].Finishing?
    ensures id !in Step(s, Advance(id), max).phases
  {
    var rest := Forgotten(s, id);
    assert id !in s.queued;
    assert s.acquirers != [] ==> s.acquirers[0] in s.acquirers;
    PumpLeaves(if id in s.owners then Release(rest) else rest, id);
  }

  lemma ReleaseLeaves(s: Sched, max: nat, id: Id)
    requires Inv(s, max) && id in s.phases && s.phases[id] != Acquiring
    ensures id in Release(s).phases && Release(s).phases[id] == s.phases[id]
  {
    assert s.acquirers != [] ==> s.acquirers[0] in s.acquirers;
  }

  /** A step of its own brings a stopping execution to its end: it finishes as cancelled, if it was not
      finishing already, and then it is gone. */
  lemma OwnStepStops(s: Sched, max: nat, id: Id)
    requires Inv(s, max) && Stopping(s, id) && s.phases[id] != Acquiring
    ensures var t := Step(s, Advance(id), max);
      if s.phases[id].Finishing? then id !in t.phases
      else
        && Stopping(t, id) && StepsLeft(t.phases[id]) < StepsLeft(s.phases[id])
        && (t.phases[id].Finishing? ==> t.phases[id] == Finishing(Cancelled))
  {
    match s.phases[id]
    case Yielding(_) => OwnStepYields(s, max, id);
    case Finishing(_) => OwnStepEnds(s, max, id);
    case Granted(granted) => if granted { ReleaseLeaves(s, max, id); }
    case _ =>
  }

  /** An execution that ends is forgotten with all its flags, and those of other runs stay. */
  lemma EndForgets(s: Sched, max: nat, id: Id)
    requires Inv(s, max) && id in s.phases && s.phases[id].Finishing?
    ensures var t := Step(s, Advance(id), max);
      && id !in t.phases && id !in t.owners
      && t.cancelled == s.cancelled - {id} && t.pauseRequested == s.pauseRequested - {id}
  {
    var rest := Forgotten(s, id);
    assert id !in s.queued;
    assert s.acquirers != [] ==> s.acquirers[0] in s.acquirers;
    PumpLeaves(if id in s.owners then Release(rest) else rest, id);
    StepKeepsInv(s, Advance(id), max);
  }

  /** A pipeline that returns, or an await that throws, finishes its execution: as cancelled if it is to stop,
      and else with its outcome, and then no pause is asked for any more. */
  lemma FinishDecides(s: Sched, max: nat, id: Id, outcome: Status)
    requires id in s.phases && (s.phases[id] in {Starting, Active, Remarking} || s.phases[id].Yielding?)
    ensures var t := Step(s, Finish(id, outcome), max);
      if id in s.cancelled || s.closed then t == s.(phases := s.phases[id := Finishing(Cancelled)])
      else t == s.(phases := s.phases[id := Finishing(outcome)], pauseRequested := s.pauseRequested - {id})
  {
  }

  lemma EndedElsewhere(s: Sched, max: nat, id: Id, other: Id)
    requires Inv(s, max) && Freed(s, id) && other != id && other in s.phases
    ensures var t := Ended(s, other);
      && id in t.phases && t.waiting == s.waiting && t.closed == s.closed && (id in t.cancelled <==> id in s.cancelled)
      && (t.phases[id] == s.phases[id] || (s.phases[id] == Acquiring && t.phases[id] == Granted(true)))
  {
    var rest := Forgotten(s, other);
    PumpLeaves(if other in s.owners then Release(rest) else rest, id);
  }

  lemma YieldedElsewhere(s: Sched, max: nat, id: Id, other: Id, released: bool)
    requires Inv(s, max) && Freed(s, id) && other != id && other in s.phases
    ensures var t := Yielded(s, other, released);
      && id in t.phases && t.waiting == s.waiting && t.closed == s.closed && t.cancelled == s.cancelled
      && (t.phases[id] == s.phases[id] || (s.phases[id] == Acquiring && t.phases[id] == Granted(true)))
  {
    var g := s.(owners := s.owners - {other}, phases := s.phases[other := if released then Woken else Blocked]);
    PumpLeaves(Release(g), id);
  }

  /** A step of another execution leaves it where it is, or gives it the slot that it waits for. */
  lemma AdvanceElsewhere(s: Sched, max: nat, id: Id, other: Id)
    requires Inv(s, max) && Freed(s, id) && other != id && other in s.phases
    ensures var t := Step(s, Advance(other), max);
      && Freed(t, id) && t.closed == s.closed && (id in t.cancelled <==> id in s.cancelled)
      && (t.phases[id] == s.phases[id] || (s.phases[id] == Acquiring && t.phases[id] == Granted(true)))
  {
    match s.phases[other]
    case Yielding(released) => YieldedElsewhere(s, max, id, other, released);
    case Finishing(_) => EndedElsewhere(s, max, id, other);
    case _ =>
  }

  /** Where the steps of others may bring it. */
  ghost predicate Nudged(before: Phase, after: Phase) {
    after == before || (before == Acquiring && after.Granted?) || after.Finishing?
  }

  /** Whatever else happens, it stays released, and only its own end or an await that throws moves it. */
  lemma OtherStepKeeps(s: Sched, max: nat, id: Id, e: Event)
    requires Inv(s, max) && Freed(s, id) && Sound(s, e) && !e.Restart? && e != Advance(id)
    ensures var t := Step(s, e, max);
      && Freed(t, id) && Nudged(s.phases[id], t.phases[id])
      && (s.closed ==> t.closed) && (id in s.cancelled ==> id in t.cancelled)
      && (Stopping(s, id) && t.phases[id].Finishing? ==> t.phases[id] in {s.phases[id], Finishing(Cancelled)})
  {
    match e
    case CreateDone(other) => PumpElsewhere(s, max, id, e);
    case ResumePump => PumpElsewhere(s, max, id, e);
    case Recover(order) => PumpElsewhere(s, max, id, e);
    case Advance(other) => if other in s.phases { AdvanceElsewhere(s, max, id, other); }
    case CancelDone(other, _) => WakeElsewhere(s, max, id, other);
    case ResumeWake(other, _) => WakeElsewhere(s, max, id, other);
    case _ =>
  }

  lemma PumpElsewhere(s: Sched, max: nat, id: Id, e: Event)
    requires Inv(s, max) && Freed(s, id) && Lawful(s, e) && (e.CreateDone? || e.ResumePump? || e.Recover?)
    ensures var t := Step(s, e, max);
      Freed(t, id) && t.phases[id] == s.phases[id] && t.closed == s.closed && t.cancelled == s.cancelled
  {
    match e
    case CreateDone(other) => PumpLeaves(s.(queued := s.queued + [other]), id);
    case ResumePump => PumpLeaves(s, id);
    case Recover(order) => PumpLeaves(s.(rows := Recovered(s.rows), queued := s.queued + order), id);
  }

  lemma WakeElsewhere(s: Sched, max: nat, id: Id, other: Id)
    requires Inv(s, max) && Freed(s, id)
    ensures Wake(s, other).phases[id] == s.phases[id] && Freed(Wake(s, other), id)
  {
  }

  // ----- Over whole runs -----

  /** The state in which the k-th event of a run arrives. */
  function Before(s: Sched, events: seq<Event>, max: nat, k: nat): Sched
    requires k <= |events|
    decreases k
  {
    if k == 0 then s else Before(Step(s, events[0], max), events[1..], max, k - 1)
  }

  /** The steps of its own that an execution takes in a run: those in which it does not wait for a slot. */
  function OwnSteps(s: Sched, events: seq<Event>, max: nat, id: Id): nat
    decreases |events|
  {
    if events == [] then 0
    else
      (if Counts(s, id, events[0]) then 1 else 0)
      + OwnSteps(Step(s, events[0], max), events[1..], max, id)
  }

  ghost predicate NoRestart(events: seq<Event>) {
    forall k :: 0 <= k < |events| ==> !events[k].Restart?
  }

  /** At some point of the run the execution is gone. */
  ghost predicate GoneIn(s: Sched, events: seq<Event>, max: nat, id: Id) {
    exists k: nat :: k <= |events| && id !in Before(s, events, max, k).phases
  }

  lemma GoneLater(s: Sched, events: seq<Event>, max: nat, id: Id)
    requires events != [] && GoneIn(Step(s, events[0], max), events[1..], max, id)
    ensures GoneIn(s, events, max, id)
  {
    var t, rest := Step(s, events[0], max), events[1..];
    var k: nat :| k <= |rest| && id !in Before(t, rest, max, k).phases;
    assert Before(s, events, max, k + 1) == Before(t, rest, max, k);
  }

  lemma GoneNow(s: Sched, events: seq<Event>, max: nat, id: Id)
    requires id !in s.phases
    ensures GoneIn(s, events, max, id)
  {
    assert Before(s, events, max, 0) == s;
  }

  /** The step is one of those counted. */
  predicate Counts(s: Sched, id: Id, e: Event) {
    e == Advance(id) && id in s.phases && s.phases[id] != Acquiring
  }

  lemma StoppingStep(s: Sched, max: nat, id: Id, e: Event)
    requires Inv(s, max) && Stopping(s, id) && Sound(s, e) && !e.Restart?
    ensures var t := Step(s, e, max);
      && Inv(t, max)
      && (id in t.phases ==>
          Stopping(t, id)
          && StepsLeft(t.phases[id]) + (if Counts(s, id, e) then 1 else 0) <= StepsLeft(s.phases[id]))
  {
    StepKeepsInv(s, e, max);
    if e != Advance(id) {
      OtherStepKeeps(s, max, id, e);
    } else if s.phases[id] != Acquiring {
      OwnStepStops(s, max, id);
    }
  }

  /** Until a stopping execution is gone, each of its own steps uses up one of those it has left. */
  lemma {:induction false} StoppingRunsOut(s: Sched, events: seq<Event>, max: nat, id: Id)
    requires Inv(s, max) && Stopping(s, id) && AllSound(s, events, max) && NoRestart(events)
    ensures var t := RunOf(s, events, max);
      || GoneIn(s, events, max, id)
      || (Stopping(t, id) && StepsLeft(t.phases[id]) + OwnSteps(s, events, max, id) <= StepsLeft(s.phases[id]))
    decreases |events|
  {
    if events != [] {
      var t, rest := Step(s, events[0], max), events[1..];
      StoppingStep(s, max, id, events[0]);
      if id !in t.phases {
        GoneNow(t, rest, max, id);
        GoneLater(s, events, max, id);
      } else {
        StoppingRunsOut(t, rest, max, id);
        if GoneIn(t, rest, max, id) {
          GoneLater(s, events, max, id);
        }
      }
    }
  }

  /** After a cancel, whatever happens in between: an execution that takes three steps of its own (not
      counting those in which it waits for a slot) is gone. */
  lemma CancelledRunStops(s: Sched, max: nat, id: Id, read: Status, events: seq<Event>)
    requires Inv(s, max) && !Terminal(read) && id in s.cancelled && id in s.phases
    requires var t := Step(s, CancelDone(id, read), max);
      AllSound(t, events, max) && NoRestart(events) && OwnSteps(t, events, max, id) >= 3
    ensures GoneIn(Step(s, CancelDone(id, read), max), events, max, id)
  {
    CancelReleases(s, max, id, read);
    StepKeepsInv(s, CancelDone(id, read), max);
    StoppingRunsOut(Step(s, CancelDone(id, read), max), events, max, id);
  }

  /** The wake phase of close leaves every execution stopping, and none of them waiting for anything; so each
      is gone after three steps of its own. */
  lemma CloseStopsAll(s: Sched, max: nat, id: Id, events: seq<Event>)
    requires Inv(s, max) && s.closed && id in s.phases
    ensures var t := Step(s, CloseWake, max);
      && Stopping(t, id) && t.phases[id] != Acquiring && t.acquirers == [] && t.semaphoreClosed
      && (AllSound(t, events, max) && NoRestart(events) && OwnSteps(t, events, max, id) >= 3 ==>
          GoneIn(t, events, max, id))
  {
    var t := Step(s, CloseWake, max);
    StepKeepsInv(s, CloseWake, max);
    if AllSound(t, events, max) && NoRestart(events) {
      StoppingRunsOut(t, events, max, id);
    }
  }

  /** And no run starts any more. */
  lemma {:induction false} ClosedStartsNothing(s: Sched, max: nat, e: Event, id: Id)
    requires Inv(s, max) && Sound(s, e) && (s.closed || e.CloseStart?) && !e.Restart? && id !in s.phases
    ensures var t := Step(s, e, max); id !in t.phases && t.closed
  {
    match e
    case Advance(other) => if other in s.phases { ClosedAdvance(s, max, other, id); }
    case _ =>
  }

  lemma ClosedAdvance(s: Sched, max: nat, other: Id, id: Id)
    requires Inv(s, max) && s.closed && other in s.phases && id !in s.phases
    ensures var t := Step(s, Advance(other), max); id !in t.phases && t.closed
  {
    assert s.acquirers != [] ==> s.acquirers[0] in s.acquirers;
  }

  // ----- Going on -----

  /** The steps of its own that a released execution needs to go on, the grant of its slot included. */
  function StepsToGo(phase: Phase): nat {
    match phase
    case Yielding(_) => 5
    case Woken => 4
    case Acquiring => 3
    case Granted(_) => 2
    case Remarking => 1
    case _ => 0
  }

  /** It has a way to go, and nothing asks it to stop. */
  ghost predicate Resuming(s: Sched, id: Id) {
    Freed(s, id) && id !in s.cancelled && !s.closed && StepsToGo(s.phases[id]) > 0
  }

  /** A step of its own brings it on: to a slot, or into its semaphore's queue, and at last back to work. */
  lemma OwnStepGoesOn(s: Sched, max: nat, id: Id)
    requires Inv(s, max) && Resuming(s, id) && s.phases[id] != Acquiring
    ensures var t := Step(s, Advance(id), max);
      && Freed(t, id) && t.cancelled == s.cancelled && t.closed == s.closed
      && StepsToGo(t.phases[id]) < StepsToGo(s.phases[id])
      && (StepsToGo(t.phases[id]) == 0 ==> t.phases[id] == Active)
      && (s.phases[id] == Woken ==> t.phases[id] == if s.free > 0 then Granted(true) else Acquiring)
  {
    match s.phases[id]
    case Yielding(_) => OwnStepYields(s, max, id);
    case _ =>
  }

  /** At some point of the run it is back at work, or finishes, or is asked to stop. */
  ghost predicate GoesOnIn(s: Sched, events: seq<Event>, max: nat, id: Id) {
    exists k: nat :: k <= |events| && !Resuming(Before(s, events, max, k), id)
  }

  lemma ResumingStep(s: Sched, max: nat, id: Id, e: Event)
    requires Inv(s, max) && Resuming(s, id) && Sound(s, e) && !e.Restart?
    ensures var t := Step(s, e, max);
      && Inv(t, max)
      && (Resuming(t, id) ==>
          StepsToGo(t.phases[id]) + (if Counts(s, id, e) then 1 else 0) <= StepsToGo(s.phases[id]))
  {
    StepKeepsInv(s, e, max);
    if e != Advance(id) {
      OtherStepKeeps(s, max, id, e);
    } else if s.phases[id] != Acquiring {
      OwnStepGoesOn(s, max, id);
    }
  }

  /** Until then, each of its own steps brings it nearer. */
  lemma {:induction false} ResumingRunsOut(s: Sched, events: seq<Event>, max: nat, id: Id)
    requires Inv(s, max) && Resuming(s, id) && AllSound(s, events, max) && NoRestart(events)
    ensures var t := RunOf(s, events, max);
      || GoesOnIn(s, events, max, id)
      || (Resuming(t, id) && StepsToGo(t.phases[id]) + OwnSteps(s, events, max, id) <= StepsToGo(s.phases[id]))
    decreases |events|
  {
    if events != [] {
      var t, rest := Step(s, events[0], max), events[1..];
      ResumingStep(s, max, id, events[0]);
      if !Resuming(t, id) {
        assert Before(s, events, max, 1) == Before(t, rest, max, 0) == t;
      } else {
        ResumingRunsOut(t, rest, max, id);
        if GoesOnIn(t, rest, max, id) {
          var k: nat :| k <= |rest| && !Resuming(Before(t, rest, max, k), id);
          assert Before(s, events, max, k + 1) == Before(t, rest, max, k);
        }
      }
    }
  }

  // ----- Queued runs in order -----

  /** With a slot free, the first queued run that is not asked to pause starts, in front of all others. */
  lemma PumpStartsTheFirst(s: Sched, max: nat, i: nat)
    requires Inv(s, max) && !s.closed && s.free > 0 && i < |s.queued| && s.queued[i] !in s.pauseRequested
    requires forall j :: 0 <= j < i ==> s.queued[j] in s.pauseRequested
    ensures var t, id := Pump(s), s.queued[i];
      id !in t.queued && id in t.phases && t.phases[id] == Starting
  {
    var id := s.queued[i];
    assert Startable(s.queued, s.pauseRequested).value == i;
    StartOneExecution(s, i);
    assert id in Start(s, i).phases;
    PumpLeaves(Start(s, i), id);
  }

  // ----- Slots in order -----

  /** Slots are granted in the order in which they were asked for: a step leaves the waiting ones in place,
      lets one more wait behind them, or grants the first one its slot. */
  ghost predicate InTurn(s: Sched, t: Sched) {
    || t.acquirers == s.acquirers
    || (exists id :: t.acquirers == s.acquirers + [id])
    || (s.acquirers != [] && t.acquirers == s.acquirers[1..]
        && (s.acquirers[0] in t.phases ==> t.phases[s.acquirers[0]] == Granted(true)))
  }

  lemma {:induction false} PumpKeepsAcquirers(s: Sched)
    ensures Pump(s).acquirers == s.acquirers
    decreases |s.queued|
  {
    if CanStart(s) {
      PumpKeepsAcquirers(Start(s, Startable(s.queued, s.pauseRequested).value));
    }
  }

  /** Only close and a restart are different: they leave nobody waiting. */
  lemma SlotsGoInTurn(s: Sched, max: nat, e: Event)
    requires Inv(s, max) && Lawful(s, e)
    ensures var t := Step(s, e, max);
      if e.Restart? || (e.CloseWake? && s.closed) then t.acquirers == [] else InTurn(s, t)
  {
    match e
    case CreateDone(other) => PumpKeepsAcquirers(s.(queued := s.queued + [other]));
    case ResumePump => PumpKeepsAcquirers(s);
    case Recover(order) => PumpKeepsAcquirers(s.(rows := Recovered(s.rows), queued := s.queued + order));
    case Advance(id) => if id in s.phases { AdvanceGoesInTurn(s, max, id); }
    case _ =>
  }

  lemma ReleaseInTurn(s: Sched, g: Sched)
    requires g.acquirers == s.acquirers
    requires s.acquirers != [] ==> s.acquirers[0] !in g.queued
    ensures InTurn(s, Release(g)) && InTurn(s, Pump(Release(g)))
  {
    PumpKeepsAcquirers(Release(g));
    if s.acquirers != [] {
      PumpLeaves(Release(g), s.acquirers[0]);
    }
  }

  lemma YieldedInTurn(s: Sched, max: nat, id: Id, released: bool)
    requires Inv(s, max) && id in s.phases
    ensures InTurn(s, Yielded(s, id, released))
  {
    assert s.acquirers != [] ==> s.acquirers[0] in s.acquirers;
    ReleaseInTurn(s, s.(owners := s.owners - {id}, phases := s.phases[id := if released then Woken else Blocked]));
  }

  lemma EndedInTurn(s: Sched, max: nat, id: Id)
    requires Inv(s, max) && id in s.phases
    ensures InTurn(s, Ended(s, id))
  {
    assert s.acquirers != [] ==> s.acquirers[0] in s.acquirers;
    if id in s.owners {
      ReleaseInTurn(s, Forgotten(s, id));
    } else {
      PumpKeepsAcquirers(Forgotten(s, id));
    }
  }

  lemma GrantedInTurn(s: Sched, max: nat, id: Id, granted: bool)
    requires Inv(s, max) && id in s.phases && s.phases[id] == Granted(granted)
    ensures InTurn(s, AfterGrant(s, id, granted))
  {
    assert s.acquirers != [] ==> s.acquirers[0] in s.acquirers;
  }

  lemma AdvanceGoesInTurn(s: Sched, max: nat, id: Id)
    requires Inv(s, max) && id in s.phases
    ensures InTurn(s, Step(s, Advance(id), max))
  {
    match s.phases[id]
    case Yielding(released) => YieldedInTurn(s, max, id, released);
    case Finishing(_) => EndedInTurn(s, max, id);
    case Granted(granted) => GrantedInTurn(s, max, id, granted);
    case _ =>
  }
}
