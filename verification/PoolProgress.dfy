/** Every accepted request comes to an end, and the output of a process may arrive in any pieces. */
module PoolProgress {
  import opened Prelude
  import opened PoolMachine
  import opened PoolSafety

  // ----- What is left to do -----

  /** How many processes may still serve a queued request. */
  function Rank(req: Request): nat {
    if req.attempts == 0 then 2 else 1
  }

  /** The same for a request in a slot, with the process that serves it. */
  function SlotRank(slot: Slot): nat {
    if slot.current.None? then 0 else if slot.current.value.attempts <= 1 then 2 else 1
  }

  function QueueRank(queue: seq<Request>): nat {
    if queue == [] then 0 else Rank(queue[0]) + QueueRank(queue[1..])
  }

  function SlotsRank(slots: seq<Slot>): nat {
    if slots == [] then 0 else SlotRank(slots[0]) + SlotsRank(slots[1..])
  }

  function Left(s: Pool): nat {
    QueueRank(s.queue) + SlotsRank(s.slots)
  }

  lemma {:induction false} SlotsRankUpdate(slots: seq<Slot>, i: nat, slot: Slot)
    requires i < |slots|
    ensures SlotsRank(slots[i := slot]) + SlotRank(slots[i]) == SlotsRank(slots) + SlotRank(slot)
    decreases i
  {
    if i == 0 {
      assert slots[0 := slot][1..] == slots[1..];
    } else {
      assert slots[i := slot][1..] == slots[1..][i - 1 := slot];
      SlotsRankUpdate(slots[1..], i - 1, slot);
    }
  }

  lemma {:induction false} QueueRankAppend(queue: seq<Request>, req: Request)
    ensures QueueRank(queue + [req]) == QueueRank(queue) + Rank(req)
    decreases |queue|
  {
    if queue == [] {
      assert [] + [req] == [req] && [req][1..] == [];
    } else {
      assert (queue + [req])[1..] == queue[1..] + [req];
      QueueRankAppend(queue[1..], req);
    }
  }

  lemma DispatchLeavesNoMore(s: Pool, env: Environment, i: nat)
    requires s.queue != [] && i < |s.slots|
    ensures Left(DispatchTo(s, env, i)) <= Left(s)
  {
    SlotsRankUpdate(s.slots, i, DispatchTo(s, env, i).slots[i]);
  }

  lemma {:induction false} PumpLeavesNoMore(s: Pool, env: Environment)
    ensures Left(Pump(s, env)) <= Left(s)
    decreases |s.queue|
  {
    if !Idle(s) {
      var i := FreeSlot(s.slots).value;
      DispatchLeavesNoMore(s, env, i);
      PumpLeavesNoMore(DispatchTo(s, env, i), env);
    }
  }

  lemma VacatingLeaves(s: Pool, env: Environment, i: nat, proc: Option<nat>, outcome: Outcome)
    requires i < |s.slots|
    ensures Left(Pump(Vacate(s, i, proc, outcome), env)) + SlotRank(s.slots[i]) <= Left(s)
  {
    SlotsRankUpdate(s.slots, i, Vacate(s, i, proc, outcome).slots[i]);
    PumpLeavesNoMore(Vacate(s, i, proc, outcome), env);
  }

  lemma RetryLeavesLess(s: Pool, env: Environment, i: nat)
    requires i < |s.slots| && s.slots[i].current.Some? && s.slots[i].current.value.attempts == 1
    ensures Left(Pump(Retried(s, i), env)) < Left(s)
  {
    var t := Retried(s, i);
    assert t.queue[1..] == s.queue;
    SlotsRankUpdate(s.slots, i, VACANT);
    PumpLeavesNoMore(t, env);
  }

  // ----- Events that bring a request further -----

  /** The line settles the request with that wire id, or drops its process. */
  predicate Decides(line: Line, rid: nat) {
    line.Reply? ==> line.id == Some(rid)
  }

  /** Some complete line of the text does. */
  predicate Answers(env: Environment, text: string, rid: nat)
    decreases |text|
  {
    var n := FirstBreak(text);
    n.Some? &&
    var line := Stripped(text[..n.value]);
    (!Blank(line) && Decides(env.parse(line), rid)) || Answers(env, text[n.value + 1..], rid)
  }

  /** The text, from the process of a slot, answers the request in it. */
  predicate Answered(s: Pool, env: Environment, i: nat, proc: nat, text: string) {
    && i < |s.slots| && s.slots[i].proc == Some(proc) && s.slots[i].current.Some?
    && Answers(env, text, s.slots[i].current.value.rid)
  }

  /** A process that serves a request has answered it, timed out, or is gone. */
  predicate Ends(s: Pool, env: Environment, e: Event) {
    match e
    case Ask => false
    case Data(i, proc, chunk) => i < |s.slots| && Answered(s, env, i, proc, s.slots[i].buffer + chunk)
    case Timeout(i, key) => i < |s.slots| && s.slots[i].current.Some? && s.slots[i].current.value.key == key
    case Exit(i, proc) => i < |s.slots| && s.slots[i].proc == Some(proc) && s.slots[i].current.Some?
    case SpawnError(i, proc) => i < |s.slots| && s.slots[i].proc == Some(proc) && s.slots[i].current.Some?
    case Close => false
  }

  /** The slot that an end is about. */
  function SlotOf(e: Event): nat
    requires !e.Ask? && !e.Close?
  {
    e.slot
  }

  lemma LineLeaves(s: Pool, env: Environment, i: nat, proc: nat, line: Line)
    ensures Left(OnLine(s, env, i, proc, line)) <= Left(s)
    ensures i < |s.slots| && s.slots[i].proc == Some(proc) && s.slots[i].current.Some? ==>
      if Decides(line, s.slots[i].current.value.rid) then Left(OnLine(s, env, i, proc, line)) < Left(s)
      else OnLine(s, env, i, proc, line) == s
  {
    if i < |s.slots| && s.slots[i].current.Some? {
      var effect := EffectOf(s.slots[i].current.value, proc, line);
      if effect.Vacates? {
        VacatingLeaves(s, env, i, effect.proc, effect.outcome);
      }
    }
  }

  lemma BufferLeaves(s: Pool, i: nat, buffer: string)
    requires i < |s.slots|
    ensures Left(Buffered(s, i, buffer)) == Left(s)
  {
    SlotsRankUpdate(s.slots, i, s.slots[i].(buffer := buffer));
  }

  /** A line that decides leaves less; another one leaves the request where it is. */
  lemma RawLineLeaves(s: Pool, env: Environment, i: nat, proc: nat, line: string, rest: string)
    requires i < |s.slots| && s.slots[i].proc == Some(proc)
    ensures var t := OnRawLine(Buffered(s, i, rest), env, i, proc, line);
      && Left(t) <= Left(s)
      && (s.slots[i].current.Some? ==>
          if !Blank(line) && Decides(env.parse(line), s.slots[i].current.value.rid) then Left(t) < Left(s)
          else t == Buffered(s, i, rest))
  {
    BufferLeaves(s, i, rest);
    LineLeaves(Buffered(s, i, rest), env, i, proc, env.parse(line));
  }

  lemma {:induction false} TextLeaves(s: Pool, env: Environment, i: nat, proc: nat, text: string)
    ensures Left(OnText(s, env, i, proc, text)) <= Left(s)
    ensures Answered(s, env, i, proc, text) ==> Left(OnText(s, env, i, proc, text)) < Left(s)
    decreases |text|
  {
    if i < |s.slots| && s.slots[i].proc == Some(proc) {
      if FirstBreak(text).None? {
        BufferLeaves(s, i, text);
      } else {
        var n := FirstBreak(text).value;
        var line, rest := Stripped(text[..n]), text[n + 1..];
        RawLineLeaves(s, env, i, proc, line, rest);
        TextLeaves(OnRawLine(Buffered(s, i, rest), env, i, proc, line), env, i, proc, rest);
      }
    }
  }

  lemma TimeoutLeaves(s: Pool, env: Environment, i: nat, key: nat)
    requires InFlight(s)
    ensures Left(OnTimeout(s, env, i, key)) <= Left(s)
    ensures Ends(s, env, Timeout(i, key)) ==> Left(OnTimeout(s, env, i, key)) < Left(s)
  {
    if i < |s.slots| && s.slots[i].current.Some? && s.slots[i].current.value.key == key {
      assert SlotFits(s.log, i, s.slots[i]);
      if s.slots[i].current.value.attempts < MAX_ATTEMPTS {
        RetryLeavesLess(s, env, i);
      } else {
        VacatingLeaves(s, env, i, None, Rejected(TimedOut));
      }
    }
  }

  lemma GoneLeaves(s: Pool, env: Environment, i: nat, proc: nat, reason: Reason)
    ensures Left(OnGone(s, env, i, proc, reason)) <= Left(s)
    ensures i < |s.slots| && s.slots[i].proc == Some(proc) && s.slots[i].current.Some? ==>
      Left(OnGone(s, env, i, proc, reason)) < Left(s)
  {
    if i < |s.slots| && s.slots[i].proc == Some(proc) {
      VacatingLeaves(s, env, i, None, Rejected(reason));
    }
  }

  lemma {:induction false} DetachLeaves(s: Pool, i: nat)
    ensures Left(DetachFrom(s, i)) <= Left(s)
    decreases |s.slots| - i
  {
    if i < |s.slots| {
      SlotsRankUpdate(s.slots, i, VACANT);
      DetachLeaves(Vacate(s, i, None, Rejected(Closed)), i + 1);
    }
  }

  lemma AskLeaves(s: Pool, env: Environment)
    ensures Left(OnRequest(s, env)) <= Left(s) + 2 * (OnRequest(s, env).issued - s.issued)
  {
    if !s.closed {
      QueueRankAppend(s.queue, PendingRequest(s.issued, 0, 0));
      PumpLeavesNoMore(Accepted(s), env);
      PumpKeepsIssued(Accepted(s), env);
    }
  }

  lemma {:induction false} PumpKeepsIssued(s: Pool, env: Environment)
    ensures Pump(s, env).issued == s.issued
    decreases |s.queue|
  {
    if !Idle(s) {
      PumpKeepsIssued(DispatchTo(s, env, FreeSlot(s.slots).value), env);
    }
  }

  /** At most two processes are left to serve a new request; every end takes one away, and nothing adds
      any. */
  lemma StepLeaves(s: Pool, env: Environment, e: Event)
    requires Inv(s)
    ensures Left(Step(s, env, e)) + (if Ends(s, env, e) then 1 else 0)
            <= Left(s) + if e.Ask? && !s.closed then 2 else 0
  {
    match e
    case Ask =>
      AskLeaves(s, env);
      PumpKeepsIssued(Accepted(s), env);
    case Data(i, proc, chunk) => if i < |s.slots| { TextLeaves(s, env, i, proc, s.slots[i].buffer + chunk); }
    case Timeout(i, key) => TimeoutLeaves(s, env, i, key);
    case Exit(i, proc) => GoneLeaves(s, env, i, proc, Crashed);
    case SpawnError(i, proc) => GoneLeaves(s, env, i, proc, SpawnFailed);
    case Close =>
      if !s.closed {
        DetachLeaves(s.(closed := true, queue := [], settled := s.settled + ClosedAll(s.queue)), 0);
      }
  }

  // ----- Every accepted request is settled -----

  function EndCount(s: Pool, env: Environment, events: seq<Event>): nat
    decreases |events|
  {
    if events == [] then 0
    else (if Ends(s, env, events[0]) then 1 else 0) + EndCount(Step(s, env, events[0]), env, events[1..])
  }

  function AskCount(s: Pool, env: Environment, events: seq<Event>): nat
    decreases |events|
  {
    if events == [] then 0
    else (if events[0].Ask? && !s.closed then 1 else 0) + AskCount(Step(s, env, events[0]), env, events[1..])
  }

  lemma {:induction false} RunLeaves(s: Pool, env: Environment, events: seq<Event>)
    requires Inv(s) && Idle(s)
    ensures Left(RunOf(s, env, events)) + EndCount(s, env, events) <= Left(s) + 2 * AskCount(s, env, events)
    decreases |events|
  {
    if events != [] {
      StepLeaves(s, env, events[0]);
      StepKeepsInv(s, env, events[0]);
      RunLeaves(Step(s, env, events[0]), env, events[1..]);
    }
  }

  /** In every run there are at most two ends per accepted request, the ones still to come included. */
  lemma EndsAreBounded(poolSize: nat, env: Environment, events: seq<Event>)
    ensures EndCount(Initial(poolSize), env, events) + Left(RunOf(Initial(poolSize), env, events))
            <= 2 * AskCount(Initial(poolSize), env, events)
  {
    InitialInv(poolSize);
    InitialLeaves(poolSize);
    RunLeaves(Initial(poolSize), env, events);
  }

  lemma {:induction false} VacantRank(slots: seq<Slot>)
    requires forall i :: 0 <= i < |slots| ==> slots[i].current.None?
    ensures SlotsRank(slots) == 0
  {
    if slots != [] {
      VacantRank(slots[1..]);
    }
  }

  lemma InitialLeaves(poolSize: nat)
    ensures Left(Initial(poolSize)) == 0
  {
    VacantRank(Initial(poolSize).slots);
  }

  /** While an accepted request is not settled, some process serves a request, so that such an end is
      still to come: at the latest its timer. */
  lemma UnsettledIsServed(s: Pool, env: Environment, key: nat) returns (i: nat)
    requires Inv(s) && Idle(s) && |s.slots| >= 1 && key < s.issued && InSettled(s.settled, key) == 0
    ensures i < |s.slots| && s.slots[i].current.Some? && s.slots[i].proc.Some?
    ensures Ends(s, env, Timeout(i, s.slots[i].current.value.key))
    ensures Ends(s, env, Exit(i, s.slots[i].proc.value))
  {
    assert Places(s, key) == One(key < s.issued);
    if s.queue != [] {
      i := 0;
    } else if forall j :: 0 <= j < |s.slots| ==> s.slots[j].current.None? {
      NoneInSlots(s.slots, key);
    } else {
      i :| 0 <= i < |s.slots| && s.slots[i].current.Some?;
    }
    assert SlotFits(s.log, i, s.slots[i]);
  }

  ghost predicate AllSettled(s: Pool) {
    forall key: nat :: key < s.issued ==> InSettled(s.settled, key) == 1
  }

  lemma EndIsOfUnsettled(s: Pool, env: Environment, e: Event)
    requires Inv(s) && Ends(s, env, e)
    ensures !AllSettled(s)
  {
    var i := SlotOf(e);
    var key := s.slots[i].current.value.key;
    SlotKeyCounted(s.slots, i);
    assert Places(s, key) == One(key < s.issued);
  }

  /** Every accepted request is settled exactly when no process can answer, time out or go any more. */
  lemma AllSettledIff(s: Pool, env: Environment)
    requires Inv(s) && Idle(s) && |s.slots| >= 1
    ensures AllSettled(s) <==> forall e: Event :: !Ends(s, env, e)
  {
    if e: Event :| Ends(s, env, e) {
      EndIsOfUnsettled(s, env, e);
    } else {
      forall key: nat | key < s.issued
        ensures InSettled(s.settled, key) == 1
      {
        assert Places(s, key) == One(key < s.issued);
        if InSettled(s.settled, key) == 0 {
          var _ := UnsettledIsServed(s, env, key);
        }
      }
    }
  }

  lemma {:induction false} PumpKeepsSlots(s: Pool, env: Environment)
    ensures |Pump(s, env).slots| == |s.slots|
    decreases |s.queue|
  {
    if !Idle(s) {
      PumpKeepsSlots(DispatchTo(s, env, FreeSlot(s.slots).value), env);
    }
  }

  /** Processes answer, time out or go, one after the other. */
  ghost predicate AllEnds(s: Pool, env: Environment, events: seq<Event>)
    decreases |events|
  {
    events != [] ==> Ends(s, env, events[0]) && AllEnds(Step(s, env, events[0]), env, events[1..])
  }

  lemma OneMoreEnd(s: Pool, env: Environment, events: seq<Event>, e: Event)
    requires events != [] && AllEnds(s, env, events)
    ensures AllEnds(s, env, events + [e]) <==> AllEnds(Step(s, env, events[0]), env, events[1..] + [e])
  {
    assert (events + [e])[1..] == events[1..] + [e];
  }

  lemma FirstEnd(s: Pool, env: Environment, e: Event)
    ensures AllEnds(s, env, [e]) <==> Ends(s, env, e)
  {
    var none: seq<Event> := [];
    assert [e][1..] == none;
  }

  /** With no more requests, at most so many ends are to come, in whatever order they do; and when no
      more can come, and not before, every accepted request is settled. */
  lemma {:induction false} AllSettleAtLast(s: Pool, env: Environment, events: seq<Event>)
    requires Inv(s) && Idle(s) && |s.slots| >= 1 && AllEnds(s, env, events)
    ensures |events| + Left(RunOf(s, env, events)) <= Left(s)
    ensures AllSettled(RunOf(s, env, events)) <==> forall e: Event :: !AllEnds(s, env, events + [e])
    decreases |events|
  {
    if events == [] {
      AllSettledIff(s, env);
      forall e: Event
        ensures AllEnds(s, env, events + [e]) <==> Ends(s, env, e)
      {
        assert events + [e] == [e];
        FirstEnd(s, env, e);
      }
    } else {
      var t := Step(s, env, events[0]);
      StepLeaves(s, env, events[0]);
      StepKeepsInv(s, env, events[0]);
      StepKeepsSlots(s, env, events[0]);
      AllSettleAtLast(t, env, events[1..]);
      forall e: Event
        ensures AllEnds(s, env, events + [e]) <==> AllEnds(t, env, events[1..] + [e])
      {
        OneMoreEnd(s, env, events, e);
      }
    }
  }

  /** The first line of a text, and the rest behind it. */
  lemma FirstLine(s: Pool, env: Environment, i: nat, proc: nat, text: string) returns (t: Pool, rest: string)
    requires i < |s.slots| && s.slots[i].proc == Some(proc) && FirstBreak(text).Some?
    ensures |t.slots| == |s.slots| && s.settled <= t.settled && |rest| < |text|
    ensures OnText(s, env, i, proc, text) == OnText(t, env, i, proc, rest)
  {
    var n := FirstBreak(text).value;
    var line := Stripped(text[..n]);
    rest := text[n + 1..];
    t := OnRawLine(Buffered(s, i, rest), env, i, proc, line);
    RawLineKeepsSlots(Buffered(s, i, rest), env, i, proc, line);
    RawLineExtends(Buffered(s, i, rest), env, i, proc, line);
  }

  lemma {:induction false} TextKeepsSlots(s: Pool, env: Environment, i: nat, proc: nat, text: string)
    ensures |OnText(s, env, i, proc, text).slots| == |s.slots|
    decreases |text|
  {
    if i < |s.slots| && s.slots[i].proc == Some(proc) && FirstBreak(text).Some? {
      var t, rest := FirstLine(s, env, i, proc, text);
      TextKeepsSlots(t, env, i, proc, rest);
    }
  }

  lemma RawLineKeepsSlots(s: Pool, env: Environment, i: nat, proc: nat, line: string)
    ensures |OnRawLine(s, env, i, proc, line).slots| == |s.slots|
  {
    if i < |s.slots| && s.slots[i].proc == Some(proc) && s.slots[i].current.Some? {
      var effect := EffectOf(s.slots[i].current.value, proc, env.parse(line));
      if effect.Vacates? {
        PumpKeepsSlots(Vacate(s, i, effect.proc, effect.outcome), env);
      }
    }
  }

  lemma StepKeepsSlots(s: Pool, env: Environment, e: Event)
    requires Ends(s, env, e)
    ensures |Step(s, env, e).slots| == |s.slots|
  {
    match e
    case Data(i, proc, chunk) => TextKeepsSlots(s, env, i, proc, s.slots[i].buffer + chunk);
    case Timeout(i, key) =>
      PumpKeepsSlots(Retried(s, i), env);
      PumpKeepsSlots(Vacate(s, i, None, Rejected(TimedOut)), env);
    case Exit(i, proc) => PumpKeepsSlots(Vacate(s, i, None, Rejected(Crashed)), env);
    case SpawnError(i, proc) => PumpKeepsSlots(Vacate(s, i, None, Rejected(SpawnFailed)), env);
  }

  // ----- What an end means for its request -----

  ghost predicate Settled(s: Pool, key: nat) {
    exists j :: 0 <= j < |s.settled| && s.settled[j].key == key
  }

  lemma SettledStays(s: Pool, t: Pool, key: nat)
    requires Settled(s, key) && s.settled <= t.settled
    ensures Settled(t, key)
  {
    var j :| 0 <= j < |s.settled| && s.settled[j].key == key;
    assert t.settled[j] == s.settled[j];
  }

  lemma VacateSettles(s: Pool, env: Environment, i: nat, proc: Option<nat>, outcome: Outcome)
    requires i < |s.slots| && s.slots[i].current.Some?
    ensures Settled(Pump(Vacate(s, i, proc, outcome), env), s.slots[i].current.value.key)
  {
    var t := Vacate(s, i, proc, outcome);
    assert t.settled[|s.settled|].key == s.slots[i].current.value.key;
    PumpExtends(t, env);
    SettledStays(t, Pump(t, env), s.slots[i].current.value.key);
  }

  lemma {:induction false} TextKeepsSettled(s: Pool, env: Environment, i: nat, proc: nat, text: string, key: nat)
    requires Settled(s, key)
    ensures Settled(OnText(s, env, i, proc, text), key)
    decreases |text|
  {
    if i < |s.slots| && s.slots[i].proc == Some(proc) {
      if FirstBreak(text).None? {
        SettledStays(s, Buffered(s, i, text), key);
      } else {
        var t, rest := FirstLine(s, env, i, proc, text);
        SettledStays(s, t, key);
        TextKeepsSettled(t, env, i, proc, rest, key);
      }
    }
  }

  lemma RawLineExtends(s: Pool, env: Environment, i: nat, proc: nat, line: string)
    ensures s.settled <= OnRawLine(s, env, i, proc, line).settled
  {
    if i < |s.slots| && s.slots[i].proc == Some(proc) && s.slots[i].current.Some? {
      var effect := EffectOf(s.slots[i].current.value, proc, env.parse(line));
      if effect.Vacates? {
        PumpExtends(Vacate(s, i, effect.proc, effect.outcome), env);
      }
    }
  }

  /** A line that decides settles the request of the slot; another one leaves it where it is. */
  lemma RawLineSettles(s: Pool, env: Environment, i: nat, proc: nat, line: string)
    requires i < |s.slots| && s.slots[i].proc == Some(proc) && s.slots[i].current.Some?
    ensures var t, current := OnRawLine(s, env, i, proc, line), s.slots[i].current.value;
      if !Blank(line) && Decides(env.parse(line), current.rid) then Settled(t, current.key) else t == s
  {
    var effect := EffectOf(s.slots[i].current.value, proc, env.parse(line));
    if effect.Vacates? {
      VacateSettles(s, env, i, effect.proc, effect.outcome);
    }
  }

  lemma {:induction false} AnswerSettles(s: Pool, env: Environment, i: nat, proc: nat, text: string)
    requires Answered(s, env, i, proc, text)
    ensures Settled(OnText(s, env, i, proc, text), s.slots[i].current.value.key)
    decreases |text|
  {
    var n := FirstBreak(text).value;
    var line, rest := Stripped(text[..n]), text[n + 1..];
    var t := OnRawLine(Buffered(s, i, rest), env, i, proc, line);
    RawLineSettles(Buffered(s, i, rest), env, i, proc, line);
    if !Blank(line) && Decides(env.parse(line), s.slots[i].current.value.rid) {
      TextKeepsSettled(t, env, i, proc, rest, s.slots[i].current.value.key);
    } else {
      AnswerSettles(t, env, i, proc, rest);
    }
  }

  lemma {:induction false} PumpKeepsBusy(s: Pool, env: Environment, j: nat)
    requires j < |s.slots| && s.slots[j].busy
    ensures j < |Pump(s, env).slots| && Pump(s, env).slots[j] == s.slots[j]
    decreases |s.queue|
  {
    if !Idle(s) {
      PumpKeepsBusy(DispatchTo(s, env, FreeSlot(s.slots).value), env, j);
    }
  }

  /** A process serves the request on its second attempt. */
  ghost predicate Retrying(s: Pool, key: nat) {
    exists j :: 0 <= j < |s.slots| && s.slots[j].current.Some?
                && s.slots[j].current.value.key == key && s.slots[j].current.value.attempts == 2
  }

  lemma RetryIsServedOrSettled(s: Pool, env: Environment, i: nat)
    requires i < |s.slots| && s.slots[i].current.Some? && s.slots[i].current.value.attempts == 1
    ensures var t, key := Pump(Retried(s, i), env), s.slots[i].current.value.key; Settled(t, key) || Retrying(t, key)
  {
    var r, key := Retried(s, i), s.slots[i].current.value.key;
    assert r.slots[i] == VACANT;
    assert !Idle(r);
    var j := FreeSlot(r.slots).value;
    var d := DispatchTo(r, env, j);
    if d.slots[j].busy {
      PumpKeepsBusy(d, env, j);
      assert Pump(r, env).slots[j].current.value.attempts == 2;
    } else {
      assert d.settled[|r.settled|].key == key;
      PumpExtends(d, env);
      SettledStays(d, Pump(d, env), key);
    }
  }

  /** An accepted request is settled once its process has answered or is gone, or has timed out a second
      time; after its first timeout another process serves it at once, unless that already failed. */
  lemma EndOfRequest(s: Pool, env: Environment, e: Event)
    requires Inv(s) && Ends(s, env, e)
    ensures var req := s.slots[SlotOf(e)].current.value;
      var t := Step(s, env, e);
      Settled(t, req.key) || (e.Timeout? && req.attempts == 1 && Retrying(t, req.key))
  {
    match e
    case Data(i, proc, chunk) => AnswerSettles(s, env, i, proc, s.slots[i].buffer + chunk);
    case Timeout(i, key) =>
      assert SlotFits(s.log, i, s.slots[i]);
      if s.slots[i].current.value.attempts < MAX_ATTEMPTS {
        RetryIsServedOrSettled(s, env, i);
      } else {
        VacateSettles(s, env, i, None, Rejected(TimedOut));
      }
    case Exit(i, proc) => VacateSettles(s, env, i, None, Rejected(Crashed));
    case SpawnError(i, proc) => VacateSettles(s, env, i, None, Rejected(SpawnFailed));
  }

  // ----- Chunks of output -----

  lemma {:induction false} BreakStays(text: string, more: string)
    requires FirstBreak(text).Some?
    ensures FirstBreak(text + more) == FirstBreak(text)
    decreases |text|
  {
    if text[0] != '\n' {
      assert (text + more)[1..] == text[1..] + more;
      BreakStays(text[1..], more);
    }
  }

  /** Pumping gives the slot a new process or leaves its buffer alone. */
  lemma {:induction false} PumpKeepsBuffer(s: Pool, env: Environment, i: nat, proc: nat)
    requires i < |s.slots| && proc < s.nextProc
    ensures var t := Pump(s, env);
      && |t.slots| == |s.slots| && s.nextProc <= t.nextProc
      && (t.slots[i].proc == Some(proc) ==> s.slots[i].proc == Some(proc) && t.slots[i].buffer == s.slots[i].buffer)
    decreases |s.queue|
  {
    if !Idle(s) {
      PumpKeepsBuffer(DispatchTo(s, env, FreeSlot(s.slots).value), env, i, proc);
    }
  }

  lemma VacateKeepsBuffer(s: Pool, env: Environment, i: nat, proc: nat, kept: Option<nat>, outcome: Outcome)
    requires i < |s.slots| && s.slots[i].proc == Some(proc) && proc < s.nextProc && kept in {None, Some(proc)}
    ensures var t := Pump(Vacate(s, i, kept, outcome), env);
      && |t.slots| == |s.slots| && s.nextProc <= t.nextProc
      && (t.slots[i].proc == Some(proc) ==> t.slots[i].buffer == s.slots[i].buffer)
  {
    PumpKeepsBuffer(Vacate(s, i, kept, outcome), env, i, proc);
  }

  lemma LineKeepsBuffer(s: Pool, env: Environment, i: nat, proc: nat, line: Line)
    requires i < |s.slots| && s.slots[i].proc == Some(proc) && proc < s.nextProc
    ensures var t := OnLine(s, env, i, proc, line);
      && |t.slots| == |s.slots| && s.nextProc <= t.nextProc
      && (t.slots[i].proc == Some(proc) ==> t.slots[i].buffer == s.slots[i].buffer)
  {
    if s.slots[i].current.Some? {
      var effect := EffectOf(s.slots[i].current.value, proc, line);
      if effect.Vacates? {
        VacateKeepsBuffer(s, env, i, proc, effect.proc, effect.outcome);
      }
    }
  }

  lemma BufferedTwice(s: Pool, i: nat, a: string, b: string)
    requires i < |s.slots|
    ensures Buffered(Buffered(s, i, a), i, b) == Buffered(s, i, b)
  {
    var slots := s.slots;
    assert slots[i := slots[i].(buffer := a)][i := slots[i].(buffer := b)] == slots[i := slots[i].(buffer := b)];
  }

  /** Pools that differ at most in what the process has in its buffer. */
  ghost predicate Twins(s: Pool, u: Pool, i: nat, proc: nat) {
    && i < |s.slots| == |u.slots|
    && u == Buffered(s, i, u.slots[i].buffer) && (s.slots[i].proc == Some(proc) || u == s)
  }

  lemma UpdateTwice(slots: seq<Slot>, i: nat, a: Slot, b: Slot)
    requires i < |slots|
    ensures slots[i := a][i := b] == slots[i := b]
  {
  }

  lemma UpdateApart(slots: seq<Slot>, i: nat, a: Slot, j: nat, b: Slot)
    requires i < |slots| && j < |slots| && i != j
    ensures slots[i := a][j := b] == slots[j := b][i := a]
  {
  }

  lemma DispatchTwins(s: Pool, u: Pool, env: Environment, i: nat, proc: nat, j: nat)
    requires Twins(s, u, i, proc) && s.queue != [] && j < |s.slots|
    ensures Twins(DispatchTo(s, env, j), DispatchTo(u, env, j), i, proc)
  {
    var t, v := DispatchTo(s, env, j), DispatchTo(u, env, j);
    if j == i {
      UpdateTwice(s.slots, i, u.slots[i], v.slots[i]);
      UpdateTwice(s.slots, i, t.slots[i], v.slots[i]);
    } else {
      UpdateApart(s.slots, i, u.slots[i], j, t.slots[j]);
    }
  }

  lemma FreeSlotOfTwins(s: Pool, u: Pool, i: nat, proc: nat)
    requires Twins(s, u, i, proc)
    ensures FreeSlot(u.slots) == FreeSlot(s.slots)
  {
    assert forall j :: 0 <= j < |s.slots| ==> u.slots[j].busy == s.slots[j].busy;
  }

  lemma {:induction false} PumpTwins(s: Pool, u: Pool, env: Environment, i: nat, proc: nat)
    requires Twins(s, u, i, proc)
    ensures Twins(Pump(s, env), Pump(u, env), i, proc)
    decreases |s.queue|
  {
    FreeSlotOfTwins(s, u, i, proc);
    if !Idle(s) {
      var j := FreeSlot(s.slots).value;
      DispatchTwins(s, u, env, i, proc, j);
      PumpTwins(DispatchTo(s, env, j), DispatchTo(u, env, j), env, i, proc);
    }
  }

  lemma VacateTwins(s: Pool, u: Pool, env: Environment, i: nat, proc: nat, kept: Option<nat>, outcome: Outcome)
    requires Twins(s, u, i, proc) && (kept.Some? ==> kept == s.slots[i].proc)
    ensures Twins(Pump(Vacate(s, i, kept, outcome), env), Pump(Vacate(u, i, kept, outcome), env), i, proc)
  {
    var t, v := Vacate(s, i, kept, outcome), Vacate(u, i, kept, outcome);
    assert u.slots == s.slots[i := u.slots[i]];
    assert t.slots == s.slots[i := t.slots[i]] && v.slots == s.slots[i := v.slots[i]];
    PumpTwins(t, v, env, i, proc);
  }

  lemma LineTwins(s: Pool, u: Pool, env: Environment, i: nat, proc: nat, line: Line)
    requires Twins(s, u, i, proc) && s.slots[i].proc == Some(proc)
    ensures Twins(OnLine(s, env, i, proc, line), OnLine(u, env, i, proc, line), i, proc)
  {
    if s.slots[i].current.Some? {
      var effect := EffectOf(s.slots[i].current.value, proc, line);
      if effect.Vacates? {
        VacateTwins(s, u, env, i, proc, effect.proc, effect.outcome);
      }
    }
  }

  /** What is in the buffer when a text is handled does not matter. */
  lemma TextOfTwins(s: Pool, u: Pool, env: Environment, i: nat, proc: nat, text: string)
    requires Twins(s, u, i, proc)
    ensures OnText(s, env, i, proc, text) == OnText(u, env, i, proc, text)
  {
    if s.slots[i].proc == Some(proc) {
      var buffer := u.slots[i].buffer;
      BufferedTwice(s, i, buffer, text);
      if FirstBreak(text).Some? {
        BufferedTwice(s, i, buffer, text[FirstBreak(text).value + 1..]);
      }
    }
  }

  lemma BufferedTwins(s: Pool, i: nat, proc: nat, a: string, b: string)
    requires i < |s.slots| && s.slots[i].proc == Some(proc)
    ensures Twins(Buffered(s, i, a), Buffered(s, i, b), i, proc)
  {
    BufferedTwice(s, i, a, b);
  }

  lemma RawLineTwins(s: Pool, env: Environment, i: nat, proc: nat, line: string, rest: string, more: string)
    requires i < |s.slots| && s.slots[i].proc == Some(proc)
    ensures Twins(OnRawLine(Buffered(s, i, rest), env, i, proc, line),
                  OnRawLine(Buffered(s, i, rest + more), env, i, proc, line), i, proc)
  {
    BufferedTwins(s, i, proc, rest, rest + more);
    LineTwins(Buffered(s, i, rest), Buffered(s, i, rest + more), env, i, proc, env.parse(line));
  }

  lemma RawLineKeepsBuffer(s: Pool, env: Environment, i: nat, proc: nat, line: string)
    requires i < |s.slots| && s.slots[i].proc == Some(proc) && proc < s.nextProc
    ensures var t := OnRawLine(s, env, i, proc, line);
      && |t.slots| == |s.slots| && s.nextProc <= t.nextProc
      && (t.slots[i].proc == Some(proc) ==> t.slots[i].buffer == s.slots[i].buffer)
  {
    LineKeepsBuffer(s, env, i, proc, env.parse(line));
  }

  lemma LastPiece(s: Pool, env: Environment, i: nat, proc: nat, text: string, more: string)
    requires i < |s.slots| && s.slots[i].proc == Some(proc) && FirstBreak(text).None?
    ensures OnData(OnText(s, env, i, proc, text), env, i, proc, more) == OnText(s, env, i, proc, text + more)
  {
    var t := Buffered(s, i, text);
    assert OnText(s, env, i, proc, text) == t;
    BufferedTwice(s, i, s.slots[i].buffer, text);
    assert s == Buffered(s, i, s.slots[i].buffer);
    TextOfTwins(s, t, env, i, proc, text + more);
  }

  lemma BreakOfMore(text: string, more: string)
    requires FirstBreak(text).Some?
    ensures var n := FirstBreak(text).value;
      && FirstBreak(text + more) == Some(n)
      && (text + more)[..n] == text[..n] && (text + more)[n + 1..] == text[n + 1..] + more
  {
    BreakStays(text, more);
  }

  /** The state after the first line, from which both texts go on. */
  lemma AfterFirstLine(s: Pool, env: Environment, i: nat, proc: nat, text: string, more: string) returns (t: Pool)
    requires i < |s.slots| && s.slots[i].proc == Some(proc) && proc < s.nextProc && FirstBreak(text).Some?
    ensures i < |t.slots| && proc < t.nextProc
    ensures var rest := text[FirstBreak(text).value + 1..];
      && OnText(s, env, i, proc, text) == OnText(t, env, i, proc, rest)
      && OnText(s, env, i, proc, text + more) == OnText(t, env, i, proc, rest + more)
  {
    var n := FirstBreak(text).value;
    var line, rest := Stripped(text[..n]), text[n + 1..];
    BreakOfMore(text, more);
    t := OnRawLine(Buffered(s, i, rest), env, i, proc, line);
    RawLineKeepsBuffer(Buffered(s, i, rest), env, i, proc, line);
    RawLineTwins(s, env, i, proc, line, rest, more);
    TextOfTwins(t, OnRawLine(Buffered(s, i, rest + more), env, i, proc, line), env, i, proc, rest + more);
  }

  /** Text that arrives later is handled as if it had been there: however the output of a process is cut
      into chunks, even in the middle of a line, the pool does the same. */
  lemma {:induction false} TextThenMore(s: Pool, env: Environment, i: nat, proc: nat, text: string, more: string)
    requires i < |s.slots| && proc < s.nextProc
    ensures OnData(OnText(s, env, i, proc, text), env, i, proc, more) == OnText(s, env, i, proc, text + more)
    decreases |text|
  {
    if s.slots[i].proc == Some(proc) {
      if FirstBreak(text).None? {
        LastPiece(s, env, i, proc, text, more);
      } else {
        var t := AfterFirstLine(s, env, i, proc, text, more);
        TextThenMore(t, env, i, proc, text[FirstBreak(text).value + 1..], more);
      }
    }
  }

  /** So two chunks in a row are the same as one. */
  lemma ChunksJoin(s: Pool, env: Environment, i: nat, proc: nat, a: string, b: string)
    requires proc < s.nextProc
    ensures OnData(OnData(s, env, i, proc, a), env, i, proc, b) == OnData(s, env, i, proc, a + b)
  {
    if i < |s.slots| && s.slots[i].proc == Some(proc) {
      Associative(s.slots[i].buffer, a, b);
      TextThenMore(s, env, i, proc, s.slots[i].buffer + a, b);
    }
  }
}
