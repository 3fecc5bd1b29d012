/** Sound runs of a new scheduler with one slot that end where one would not want them to. */
module SchedulerRuns {
  import opened SchedulerMachine
  import opened SchedulerSafety

  /** A sound run of a new scheduler leads to `t`. */
  ghost predicate Reaches(events: seq<Event>, t: Sched) {
    AllSound(Fresh(map[], 1), events, 1) && RunOf(Fresh(map[], 1), events, 1) == t
  }

  lemma {:induction false} RunAppend(s: Sched, events: seq<Event>, e: Event, max: nat)
    ensures RunOf(s, events + [e], max) == Step(RunOf(s, events, max), e, max)
    ensures AllSound(s, events + [e], max) <==> AllSound(s, events, max) && Sound(RunOf(s, events, max), e)
    decreases |events|
  {
    if events == [] {
      assert ([] + [e])[1..] == [];
      assert RunOf(Step(s, e, max), [], max) == Step(s, e, max);
      assert AllSound(Step(s, e, max), [], max);
    } else {
      RunAppend(Step(s, events[0], max), events[1..], e, max);
      assert (events + [e])[1..] == events[1..] + [e];
    }
  }

  lemma Next(events: seq<Event>, s: Sched, e: Event, t: Sched)
    requires Reaches(events, s) && Sound(s, e) && Step(s, e, 1) == t
    ensures Reaches(events + [e], t)
  {
    RunAppend(Fresh(map[], 1), events, e, 1);
  }

  /** Nobody holds the slot. */
  function Idle(rows: map<Id, Status>): Sched {
    Fresh(rows, 1)
  }

  /** One execution, which holds the slot. */
  function Alone(id: Id, status: Status, phase: Phase): Sched {
    Idle(map[id := status]).(phases := map[id := phase], owners := {id}, free := 0)
  }

  // ----- A run begins -----

  function Started(id: Id): seq<Event> {
    [CreateRow(id)] + [CreateDone(id)]
  }

  lemma ReachesStarted(id: Id)
    ensures Reaches(Started(id), Alone(id, Queued, Starting))
  {
    var none: seq<Event> := [];
    assert none + [CreateRow(id)] == [CreateRow(id)];
    assert Reaches(none, Idle(map[]));
    Next(none, Idle(map[]), CreateRow(id), Idle(map[id := Queued]));
    PumpOne(Idle(map[id := Queued]), id);
    Next([CreateRow(id)], Idle(map[id := Queued]), CreateDone(id), Alone(id, Queued, Starting));
  }

  lemma PumpOne(s: Sched, id: Id)
    requires s.queued == [] && s.free == 1 && !s.closed && !s.semaphoreClosed && id !in s.pauseRequested
    ensures Pump(s.(queued := [id])) == s.(free := 0, owners := s.owners + {id}, phases := s.phases[id := Starting])
  {
    var t := s.(queued := [id]);
    assert Startable(t.queued, t.pauseRequested).value == 0;
    assert Start(t, 0).queued == [];
  }

  function Begin(id: Id): seq<Event> {
    Started(id) + [Row(id, MarkRunning)] + [Advance(id)]
  }

  /** The run is created, started and marked as running. */
  lemma ReachesBegin(id: Id)
    ensures Reaches(Begin(id), Alone(id, Running, Active))
  {
    ReachesStarted(id);
    Next(Started(id), Alone(id, Queued, Starting), Row(id, MarkRunning), Alone(id, Running, Starting));
    Next(Started(id) + [Row(id, MarkRunning)], Alone(id, Running, Starting), Advance(id), Alone(id, Running, Active));
  }

  // ----- A stale cancel -----

  function Finished(id: Id): seq<Event> {
    Begin(id) + [Finish(id, Done)] + [Row(id, Finalize(Done))]
  }

  /** The run is done, and only its execution has yet to end. */
  lemma ReachesFinished(id: Id)
    ensures Reaches(Finished(id), Alone(id, Done, Finishing(Done)))
  {
    ReachesBegin(id);
    Next(Begin(id), Alone(id, Running, Active), Finish(id, Done), Alone(id, Running, Finishing(Done)));
    Next(Begin(id) + [Finish(id, Done)], Alone(id, Running, Finishing(Done)), Row(id, Finalize(Done)),
         Alone(id, Done, Finishing(Done)));
  }

  function Overwritten(id: Id): seq<Event> {
    Finished(id) + [CancelFlag(id, Running)] + [Row(id, CancelRead(Running))]
  }

  /** A cancel that read the run as running when it had just begun overwrites the row once it is
      done, although it would have changed nothing had it read the row then. */
  lemma DoneCanBecomeCancelled(id: Id)
    ensures Reaches(Begin(id), Alone(id, Running, Active))
    ensures Reaches(Finished(id), Alone(id, Done, Finishing(Done)))
    ensures Reaches(Overwritten(id), Alone(id, Cancelled, Finishing(Done)).(cancelled := {id}))
  {
    ReachesBegin(id);
    ReachesFinished(id);
    var s := Alone(id, Done, Finishing(Done));
    Next(Finished(id), s, CancelFlag(id, Running), s.(cancelled := {id}));
    Next(Finished(id) + [CancelFlag(id, Running)], s.(cancelled := {id}), Row(id, CancelRead(Running)),
         Alone(id, Cancelled, Finishing(Done)).(cancelled := {id}));
  }

  // ----- Two stale resumes -----

  function Asked(id: Id): seq<Event> {
    Begin(id) + [PauseFlag(id)] + [Advance(id)]
  }

  function Paused1(id: Id): seq<Event> {
    Asked(id) + [Row(id, YieldRunning)] + [Advance(id)]
  }

  lemma ReachesAsked(id: Id)
    ensures Reaches(Asked(id), Alone(id, Running, Yielding(false)).(pauseRequested := {id}, waiting := {id}))
  {
    ReachesBegin(id);
    var s := Alone(id, Running, Active).(pauseRequested := {id});
    Next(Begin(id), Alone(id, Running, Active), PauseFlag(id), s);
    Next(Begin(id) + [PauseFlag(id)], s, Advance(id), s.(phases := map[id := Yielding(false)], waiting := {id}));
  }

  function Yielded1(id: Id): Sched {
    Idle(map[id := Paused]).(phases := map[id := Blocked], pauseRequested := {id}, waiting := {id})
  }

  lemma YieldStep(id: Id)
    ensures Step(Alone(id, Paused, Yielding(false)).(pauseRequested := {id}, waiting := {id}), Advance(id), 1)
            == Yielded1(id)
  {
    assert Pump(Yielded1(id)) == Yielded1(id);
  }

  /** The run is asked to pause and yields: it waits for a resume, and the slot is free. */
  lemma ReachesPaused(id: Id)
    ensures Reaches(Paused1(id), Yielded1(id))
  {
    ReachesAsked(id);
    var s := Alone(id, Paused, Yielding(false)).(pauseRequested := {id}, waiting := {id});
    var asked := Alone(id, Running, Yielding(false)).(pauseRequested := {id}, waiting := {id});
    Next(Asked(id), asked, Row(id, YieldRunning), s);
    YieldStep(id);
    Next(Asked(id) + [Row(id, YieldRunning)], s, Advance(id), Yielded1(id));
  }

  function FirstResume(id: Id): seq<Event> {
    Paused1(id) + [ResumeFlag(id)] + [ResumeFlag(id)] + [ResumeWake(id, Paused)]
  }

  function Released1(id: Id): Sched {
    Idle(map[id := Paused]).(phases := map[id := Woken])
  }

  /** Both resumes have read the row as paused; the first has released the execution. */
  lemma ReachesFirstResume(id: Id)
    ensures Reaches(FirstResume(id), Released1(id))
  {
    ReachesPaused(id);
    var s := Yielded1(id).(pauseRequested := {});
    Next(Paused1(id), Yielded1(id), ResumeFlag(id), s);
    Next(Paused1(id) + [ResumeFlag(id)], s, ResumeFlag(id), s);
    Next(Paused1(id) + [ResumeFlag(id)] + [ResumeFlag(id)], s, ResumeWake(id, Paused), Released1(id));
  }

  lemma SecondResume(id: Id)
    ensures RequeuesLiveRun(Released1(id), id, Paused)
    ensures var t := Released1(id).(queued := [id]);
            Step(Released1(id), ResumeWake(id, Paused), 1) == t && CanStart(t) && !Safe(t, 1)
  {
    var t := Released1(id).(queued := [id]);
    assert t.queued[0] == id && id in t.phases;
  }

  /** The second resume then queues the run again beside its execution, ready to be started a second
      time. */
  lemma TwoResumesQueueALiveRun(id: Id)
    ensures Reaches(FirstResume(id), Released1(id)) && RequeuesLiveRun(Released1(id), id, Paused)
    ensures var t := Step(Released1(id), ResumeWake(id, Paused), 1);
            t == Released1(id).(queued := [id]) && CanStart(t) && !Safe(t, 1)
  {
    ReachesFirstResume(id);
    SecondResume(id);
  }

  // ----- A stale resume of a queued run -----

  function SecondCreated(id: Id, other: Id): seq<Event> {
    Finished(id) + [CreateRow(other)] + [CreateDone(other)]
  }

  function Beside(id: Id, other: Id): Sched {
    Alone(id, Done, Finishing(Done)).(rows := map[id := Done, other := Queued], queued := [other])
  }

  lemma CreatedBeside(s: Sched, id: Id)
    requires s.free == 0 && s.queued == []
    ensures Step(s, CreateDone(id), 1) == s.(queued := [id])
  {
  }

  /** Another run is created while the first one holds the slot. */
  lemma ReachesSecondCreated(id: Id, other: Id)
    requires id != other
    ensures Reaches(SecondCreated(id, other), Beside(id, other))
  {
    ReachesFinished(id);
    var s := Beside(id, other).(queued := []);
    Next(Finished(id), Alone(id, Done, Finishing(Done)), CreateRow(other), s);
    CreatedBeside(s, other);
    Next(Finished(id) + [CreateRow(other)], s, CreateDone(other), Beside(id, other));
  }

  function SecondParked(id: Id, other: Id): seq<Event> {
    SecondCreated(id, other) + [PauseFlag(other)] + [Advance(id)]
  }

  function Parked(id: Id, other: Id): Sched {
    Idle(map[id := Done, other := Queued]).(queued := [other], pauseRequested := {other})
  }

  lemma EndOfFirst(id: Id, other: Id)
    requires id != other
    ensures Step(Beside(id, other).(pauseRequested := {other}), Advance(id), 1) == Parked(id, other)
  {
    var s := Beside(id, other).(pauseRequested := {other});
    assert Pump(Parked(id, other)) == Parked(id, other);
    assert s.phases - {id} == map[] && s.owners - {id} == {};
    assert s.cancelled - {id} == {} && s.pauseRequested - {id} == {other};
  }

  /** It is asked to pause, and the first run ends beside it. */
  lemma ReachesSecondParked(id: Id, other: Id)
    requires id != other
    ensures Reaches(SecondParked(id, other), Parked(id, other))
  {
    ReachesSecondCreated(id, other);
    var s := Beside(id, other).(pauseRequested := {other});
    Next(SecondCreated(id, other), Beside(id, other), PauseFlag(other), s);
    EndOfFirst(id, other);
    Next(SecondCreated(id, other) + [PauseFlag(other)], s, Advance(id), Parked(id, other));
  }

  /** A resume that read the row as queued, before the pause had written it, clears the flag and does
      not pump: the run waits beside a free slot. */
  lemma ResumeStrandsAQueuedRun(id: Id, other: Id)
    requires id != other
    ensures Reaches(SecondParked(id, other) + [ResumeFlag(other)] + [ResumeWake(other, Queued)],
                    Parked(id, other).(pauseRequested := {}))
    ensures CanStart(Parked(id, other).(pauseRequested := {}))
  {
    ReachesSecondParked(id, other);
    var s := Parked(id, other).(pauseRequested := {});
    Next(SecondParked(id, other), Parked(id, other), ResumeFlag(other), s);
    assert s.queued[0] !in s.pauseRequested;
    Next(SecondParked(id, other) + [ResumeFlag(other)], s, ResumeWake(other, Queued), s);
  }
}
