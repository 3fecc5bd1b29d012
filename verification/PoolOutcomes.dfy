/** Why a request of the worker pool settles as it does: which lines resolve it, which reject it, and what
    stands behind every settlement of a run. */
module PoolOutcomes {
  import opened Prelude
  import opened PoolMachine
  import opened PoolSafety
  import opened PoolProgress

  /** The next settlement is that of the request, with that outcome. */
  ghost predicate SettlesNext(s: Pool, t: Pool, key: nat, outcome: Outcome) {
    |s.settled| < |t.settled| && s.settled <= t.settled && t.settled[|s.settled|] == Settlement(key, outcome)
  }

  lemma VacateSettlesNext(s: Pool, env: Environment, i: nat, proc: Option<nat>, outcome: Outcome)
    requires i < |s.slots| && s.slots[i].current.Some?
    ensures SettlesNext(s, Pump(Vacate(s, i, proc, outcome), env), s.slots[i].current.value.key, outcome)
  {
    var t := Vacate(s, i, proc, outcome);
    PumpExtends(t, env);
    assert t.settled[|s.settled|] == Settlement(s.slots[i].current.value.key, outcome);
  }

  lemma NextStays(s: Pool, t: Pool, u: Pool, key: nat, outcome: Outcome)
    requires SettlesNext(s, t, key, outcome) && t.settled <= u.settled
    ensures SettlesNext(s, u, key, outcome)
  {
    assert u.settled[|s.settled|] == t.settled[|s.settled|];
  }

  // ----- Lines -----

  /** The line breaks the protocol for a request under that wire id: it is no object, or it answers it with
      neither an error nor a result. */
  predicate Garbage(line: Line, rid: nat) {
    line in {Unparseable, NonObject, Reply(Some(rid), false, false)}
  }

  predicate SaysError(line: Line, rid: nat) {
    line in {Reply(Some(rid), true, false), Reply(Some(rid), true, true)}
  }

  /** What follows from a line for the request that the process serves. */
  ghost predicate Follows(s: Pool, t: Pool, req: Request, proc: nat, line: Line) {
    && (line == Reply(Some(req.rid), false, true) <==> SettlesNext(s, t, req.key, Resolved(req.rid, proc)))
    && (SaysError(line, req.rid) <==> SettlesNext(s, t, req.key, Rejected(Rpc)))
    && (Garbage(line, req.rid) <==> SettlesNext(s, t, req.key, Rejected(Protocol)))
  }

  /** A result under the latest wire id resolves the request, an error rejects it, and garbage rejects it as
      a breach of the protocol; every other line, and a blank one, changes nothing. */
  lemma LineDecides(s: Pool, env: Environment, i: nat, proc: nat, raw: string)
    requires i < |s.slots| && s.slots[i].proc == Some(proc) && s.slots[i].current.Some?
    ensures var t, req, line := OnRawLine(s, env, i, proc, raw), s.slots[i].current.value, env.parse(raw);
      if Blank(raw) then t == s else Follows(s, t, req, proc, line) && (!Decides(line, req.rid) ==> t == s)
  {
    var req, line := s.slots[i].current.value, env.parse(raw);
    var effect := EffectOf(req, proc, line);
    if !Blank(raw) && effect.Vacates? {
      VacateSettlesNext(s, env, i, effect.proc, effect.outcome);
    }
  }

  /** With nothing queued, a reply leaves its process in the slot, ready for the next request; garbage does
      not. */
  lemma ReplyKeepsProcess(s: Pool, env: Environment, i: nat, proc: nat, raw: string)
    requires i < |s.slots| && s.slots[i].proc == Some(proc) && s.slots[i].current.Some? && s.queue == []
    requires !Blank(raw) && Decides(env.parse(raw), s.slots[i].current.value.rid)
    ensures var t := OnRawLine(s, env, i, proc, raw);
      && |t.slots| == |s.slots| && !t.slots[i].busy && t.slots[i].current.None?
      && t.slots[i].proc == if Garbage(env.parse(raw), s.slots[i].current.value.rid) then None else Some(proc)
  {
  }

  /** The lines that are tolerated are those of white space alone. */
  lemma BlankIff(line: string)
    ensures Blank(line) <==> forall c :: c in line ==>
      || c in {'\t', '\n', '\U{0B}', '\U{0C}', '\r', ' ', '\U{A0}', '\U{1680}', '\U{2028}', '\U{2029}'}
      || c in {'\U{202F}', '\U{205F}', '\U{3000}', '\U{FEFF}', '\U{2000}', '\U{2001}', '\U{2002}', '\U{2003}'}
      || c in {'\U{2004}', '\U{2005}', '\U{2006}', '\U{2007}', '\U{2008}', '\U{2009}', '\U{200A}'}
  {
    assert forall i :: 0 <= i < |line| ==> line[i] in line;
  }

  lemma {:induction false} BreakBehind(line: string, rest: string)
    requires '\n' !in line
    ensures FirstBreak(line + "\n" + rest) == Some(|line|)
    decreases |line|
  {
    var text := line + "\n" + rest;
    if line != "" {
      assert text[0] == line[0] && text[1..] == line[1..] + "\n" + rest;
      BreakBehind(line[1..], rest);
    }
  }

  /** A line may as well end with a carriage return and a line feed. */
  lemma CarriageReturnIsDropped(s: Pool, env: Environment, i: nat, proc: nat, line: string, rest: string)
    requires '\n' !in line && (line == "" || line[|line| - 1] != '\r')
    ensures OnText(s, env, i, proc, line + "\r" + "\n" + rest) == OnText(s, env, i, proc, line + "\n" + rest)
  {
    BreakBehind(line, rest);
    BreakBehind(line + "\r", rest);
    LineBehind(line, rest);
    LineBehind(line + "\r", rest);
    assert Stripped(line + "\r") == line == Stripped(line);
  }

  lemma LineBehind(line: string, rest: string)
    ensures (line + "\n" + rest)[..|line|] == line && (line + "\n" + rest)[|line| + 1..] == rest
  {
  }

  // ----- Texts -----

  /** The first line of a text that decides. */
  function FirstAnswer(env: Environment, text: string, rid: nat): Option<Line>
    decreases |text|
  {
    var n := FirstBreak(text);
    if n.None? then None
    else
      var line := Stripped(text[..n.value]);
      if !Blank(line) && Decides(env.parse(line), rid) then Some(env.parse(line))
      else FirstAnswer(env, text[n.value + 1..], rid)
  }

  lemma {:induction false} AnswersIff(env: Environment, text: string, rid: nat)
    ensures Answers(env, text, rid) <==> FirstAnswer(env, text, rid).Some?
    ensures FirstAnswer(env, text, rid).Some? ==> Decides(FirstAnswer(env, text, rid).value, rid)
    decreases |text|
  {
    var n := FirstBreak(text);
    if n.Some? {
      AnswersIff(env, text[n.value + 1..], rid);
    }
  }

  lemma {:induction false} TextExtends(s: Pool, env: Environment, i: nat, proc: nat, text: string)
    ensures s.settled <= OnText(s, env, i, proc, text).settled
    decreases |text|
  {
    if i < |s.slots| && s.slots[i].proc == Some(proc) && FirstBreak(text).Some? {
      var t, rest := FirstLine(s, env, i, proc, text);
      TextExtends(t, env, i, proc, rest);
    }
  }

  lemma FollowsStays(s: Pool, t: Pool, u: Pool, req: Request, proc: nat, line: Line)
    requires Follows(s, t, req, proc, line) && Decides(line, req.rid) && t.settled <= u.settled
    ensures Follows(s, u, req, proc, line)
  {
    if line == Reply(Some(req.rid), false, true) {
      NextStays(s, t, u, req.key, Resolved(req.rid, proc));
    } else if SaysError(line, req.rid) {
      NextStays(s, t, u, req.key, Rejected(Rpc));
    } else {
      assert Garbage(line, req.rid);
      NextStays(s, t, u, req.key, Rejected(Protocol));
    }
  }

  lemma SameFollows(s: Pool, b: Pool, t: Pool, req: Request, proc: nat, line: Line)
    requires Follows(b, t, req, proc, line) && b.settled == s.settled
    ensures Follows(s, t, req, proc, line)
  {
  }

  /** However many lines are for others, the first one that decides settles the request as it says. */
  lemma {:induction false} FirstAnswerDecides(s: Pool, env: Environment, i: nat, proc: nat, text: string)
    requires Answered(s, env, i, proc, text)
    ensures var req := s.slots[i].current.value;
      && FirstAnswer(env, text, req.rid).Some?
      && Follows(s, OnText(s, env, i, proc, text), req, proc, FirstAnswer(env, text, req.rid).value)
    decreases |text|
  {
    var req := s.slots[i].current.value;
    var n := FirstBreak(text).value;
    var line, rest := Stripped(text[..n]), text[n + 1..];
    var b := Buffered(s, i, rest);
    var t := OnRawLine(b, env, i, proc, line);
    AnswersIff(env, text, req.rid);
    LineDecides(b, env, i, proc, line);
    if !Blank(line) && Decides(env.parse(line), req.rid) {
      TextExtends(t, env, i, proc, rest);
      FollowsStays(b, t, OnText(t, env, i, proc, rest), req, proc, env.parse(line));
      SameFollows(s, b, OnText(t, env, i, proc, rest), req, proc, env.parse(line));
    } else {
      FirstAnswerDecides(b, env, i, proc, rest);
      SameFollows(s, b, OnText(b, env, i, proc, rest), req, proc, FirstAnswer(env, rest, req.rid).value);
    }
  }

  // ----- Dispatches -----

  /** A request leaves the queue for a process of the slot that is alive, or else for a new one. It fails
      only if that cannot be spawned or the write fails. */
  lemma DispatchDecides(s: Pool, env: Environment, i: nat)
    requires s.queue != [] && i < |s.slots|
    ensures var a, req, t := env.answer(s.tries), s.queue[0], DispatchTo(s, env, i);
      var lives := s.slots[i].proc.Some? && a.alive;
      && t.queue == s.queue[1..]
      && (t.settled == s.settled <==> (lives || a.spawns) && a.writes)
      && (SettlesNext(s, t, req.key, Rejected(SpawnFailed)) <==> !lives && !a.spawns)
      && (SettlesNext(s, t, req.key, Rejected(Crashed)) <==> (lives || a.spawns) && !a.writes)
      && t.nextProc == (if lives || !a.spawns then s.nextProc else s.nextProc + 1)
      && (t.settled == s.settled ==>
          t.slots[i] == Slot(if lives then s.slots[i].proc else Some(s.nextProc),
                             if lives then s.slots[i].buffer else "", true,
                             Some(PendingRequest(req.key, s.nextId, req.attempts + 1))))
      && (t.settled != s.settled ==> t.slots[i] == VACANT)
  {
  }

  // ----- Other events -----

  /** The request in the slot is rejected for the reason that the event gives; the first timeout takes it
      out of the slot and dispatches it again before any other. */
  lemma EventDecides(s: Pool, env: Environment, i: nat, proc: nat)
    requires i < |s.slots| && s.slots[i].proc == Some(proc) && s.slots[i].current.Some?
    ensures var req := s.slots[i].current.value;
      && SettlesNext(s, Step(s, env, Exit(i, proc)), req.key, Rejected(Crashed))
      && SettlesNext(s, Step(s, env, SpawnError(i, proc)), req.key, Rejected(SpawnFailed))
      && (req.attempts >= 2 ==> SettlesNext(s, Step(s, env, Timeout(i, req.key)), req.key, Rejected(TimedOut)))
      && (req.attempts < 2 ==> RetriesNext(s, env, Step(s, env, Timeout(i, req.key)), req.key))
  {
    var req := s.slots[i].current.value;
    VacateSettlesNext(s, env, i, None, Rejected(Crashed));
    VacateSettlesNext(s, env, i, None, Rejected(SpawnFailed));
    VacateSettlesNext(s, env, i, None, Rejected(TimedOut));
    if req.attempts < 2 {
      RetryDecides(s, env, i);
    }
  }

  /** The next dispatch is that of the request, unless no process can be spawned for it. */
  ghost predicate RetriesNext(s: Pool, env: Environment, t: Pool, key: nat) {
    || (|s.log| < |t.log| && t.log[|s.log|].key == key)
    || (!env.answer(s.tries).spawns && SettlesNext(s, t, key, Rejected(SpawnFailed)))
  }

  lemma RetryDecides(s: Pool, env: Environment, i: nat)
    requires i < |s.slots| && s.slots[i].current.Some? && s.slots[i].current.value.attempts < 2
    ensures var key := s.slots[i].current.value.key; RetriesNext(s, env, OnTimeout(s, env, i, key), key)
  {
    var r := Retried(s, i);
    assert r.slots[i] == VACANT && !Idle(r);
    var j := FreeSlot(r.slots).value;
    var d := DispatchTo(r, env, j);
    DispatchDecides(r, env, j);
    PumpExtends(d, env);
    if d.log == s.log {
      NextStays(s, d, Pump(d, env), s.slots[i].current.value.key, Rejected(SpawnFailed));
    }
  }

  lemma {:induction false} PumpKeepsClosed(s: Pool, env: Environment)
    ensures Pump(s, env).closed == s.closed && Pump(s, env).issued == s.issued
    decreases |s.queue|
  {
    if !Idle(s) {
      PumpKeepsClosed(DispatchTo(s, env, FreeSlot(s.slots).value), env);
    }
  }

  /** A pool accepts requests exactly while it is open. With a slot free, the new one is dispatched at once,
      and else it waits behind the others. */
  lemma AskDecides(s: Pool, env: Environment)
    requires Idle(s)
    ensures var t := Step(s, env, Ask);
      && (s.closed ==> t == s)
      && (!s.closed ==> t.issued == s.issued + 1 && !t.closed)
      && (!s.closed && FreeSlot(s.slots).Some? ==>
          || (|s.log| < |t.log| && t.log[|s.log|].key == s.issued)
          || (!env.answer(s.tries).spawns && SettlesNext(s, t, s.issued, Rejected(SpawnFailed))))
      && (!s.closed && FreeSlot(s.slots).None? ==>
          t == s.(issued := s.issued + 1, queue := s.queue + [PendingRequest(s.issued, 0, 0)]))
  {
    if !s.closed {
      var a := s.(issued := s.issued + 1, queue := s.queue + [PendingRequest(s.issued, 0, 0)]);
      PumpKeepsClosed(a, env);
      if FreeSlot(s.slots).Some? {
        var d := DispatchTo(a, env, FreeSlot(s.slots).value);
        assert a.queue[0].key == s.issued;
        DispatchDecides(a, env, FreeSlot(s.slots).value);
        PumpExtends(d, env);
        if d.log == s.log {
          NextStays(s, d, Pump(d, env), s.issued, Rejected(SpawnFailed));
        }
      }
    }
  }

  lemma {:induction false} DetachKeepsClosed(s: Pool, i: nat)
    ensures DetachFrom(s, i).closed == s.closed && DetachFrom(s, i).issued == s.issued
    decreases |s.slots| - i
  {
    if i < |s.slots| {
      DetachKeepsClosed(Vacate(s, i, None, Rejected(Closed)), i + 1);
    }
  }

  /** Closing an open pool settles every request that is not settled yet, as closed. */
  lemma CloseDecides(s: Pool, env: Environment, key: nat)
    requires Inv(s) && Idle(s) && !s.closed && key < s.issued && InSettled(s.settled, key) == 0
    ensures var t := Step(s, env, Close);
      && t.closed && InSettled(t.settled, key) == 1
      && exists j :: |s.settled| <= j < |t.settled| && t.settled[j] == Settlement(key, Rejected(Closed))
  {
    var t := Step(s, env, Close);
    StepKeepsInv(s, env, Close);
    DetachKeepsClosed(s.(closed := true, queue := [], settled := s.settled + ClosedAll(s.queue)), 0);
    ClosedSettlesEverything(t, key);
    CloseReasons(s);
    var j := SettledAt(t.settled, key);
    if j < |s.settled| {
      assert s.settled[j] == t.settled[j];
      SettledKeyCounted(s.settled, j);
    }
  }

  lemma {:induction false} SettledAt(settled: seq<Settlement>, key: nat) returns (j: nat)
    requires InSettled(settled, key) >= 1
    ensures j < |settled| && settled[j].key == key
    decreases |settled|
  {
    var last := |settled| - 1;
    if settled[last].key == key {
      j := last;
    } else {
      j := SettledAt(settled[..last], key);
    }
  }

  // ----- What stands behind every settlement -----

  /** Some complete line of the text is that one. */
  predicate Says(env: Environment, text: string, line: Line)
    decreases |text|
  {
    var n := FirstBreak(text);
    n.Some? &&
    var first := Stripped(text[..n.value]);
    (!Blank(first) && env.parse(first) == line) || Says(env, text[n.value + 1..], line)
  }

  ghost predicate SaidTo(env: Environment, text: string, proc: nat, outcome: Outcome) {
    match outcome
    case Resolved(rid, from) => from == proc && Says(env, text, Reply(Some(rid), false, true))
    case Rejected(reason) =>
      || (reason == Rpc && exists rid, line :: SaysError(line, rid) && Says(env, text, line))
      || (reason == Protocol && exists rid, line :: Garbage(line, rid) && Says(env, text, line))
  }

  /** A spawn or a write failed in one of these dispatches. */
  ghost predicate DispatchFailed(env: Environment, from: nat, to: nat, outcome: Outcome) {
    || (outcome == Rejected(SpawnFailed) && exists n: nat :: from <= n < to && !env.answer(n).spawns)
    || (outcome == Rejected(Crashed) && exists n: nat :: from <= n < to && !env.answer(n).writes)
  }

  /** The events that settle a request themselves. */
  predicate Caused(e: Event, settlement: Settlement) {
    || (settlement.outcome == Rejected(TimedOut) && e.Timeout? && e.key == settlement.key)
    || (settlement.outcome == Rejected(Crashed) && e.Exit?)
    || (settlement.outcome == Rejected(SpawnFailed) && e.SpawnError?)
    || (settlement.outcome == Rejected(Closed) && e.Close?)
  }

  /** What the process of a slot has written up to the end of a chunk. */
  function TextOf(s: Pool, e: Event): string
    requires e.Data?
  {
    if e.slot < |s.slots| then s.slots[e.slot].buffer + e.chunk else e.chunk
  }

  /** What stands behind a settlement in the step from s to t. */
  ghost predicate Reason(s: Pool, env: Environment, e: Event, t: Pool, settlement: Settlement) {
    || Caused(e, settlement)
    || DispatchFailed(env, s.tries, t.tries, settlement.outcome)
    || (e.Data? && SaidTo(env, TextOf(s, e), e.proc, settlement.outcome))
  }

  /** From s to t settlements are only added, each because a dispatch failed in between. */
  ghost predicate OnlyDispatchesFailed(s: Pool, env: Environment, t: Pool) {
    && s.tries <= t.tries && s.settled <= t.settled
    && forall j :: |s.settled| <= j < |t.settled| ==> DispatchFailed(env, s.tries, t.tries, t.settled[j].outcome)
  }

  lemma {:induction false} PumpReasons(s: Pool, env: Environment)
    ensures OnlyDispatchesFailed(s, env, Pump(s, env))
    decreases |s.queue|
  {
    if !Idle(s) {
      var i := FreeSlot(s.slots).value;
      var d, t := DispatchTo(s, env, i), Pump(s, env);
      PumpReasons(d, env);
      assert d.tries == s.tries + 1;
      forall j | |s.settled| <= j < |t.settled|
        ensures DispatchFailed(env, s.tries, t.tries, t.settled[j].outcome)
      {
        if j < |d.settled| {
          assert t.settled[j] == d.settled[j];
          assert DispatchFailed(env, s.tries, d.tries, d.settled[j].outcome);
        }
      }
    }
  }

  /** From s to t settlements are only added, each because of a line of the text or a failed dispatch. */
  ghost predicate TextReasons(s: Pool, env: Environment, t: Pool, proc: nat, text: string) {
    && s.tries <= t.tries && s.settled <= t.settled
    && forall j :: |s.settled| <= j < |t.settled| ==>
         DispatchFailed(env, s.tries, t.tries, t.settled[j].outcome) || SaidTo(env, text, proc, t.settled[j].outcome)
  }

  lemma EffectIsSaid(env: Environment, req: Request, proc: nat, text: string)
    requires FirstBreak(text).Some?
    requires !Blank(Stripped(text[..FirstBreak(text).value]))
    ensures var effect := EffectOf(req, proc, env.parse(Stripped(text[..FirstBreak(text).value])));
      effect.Vacates? ==> SaidTo(env, text, proc, effect.outcome)
  {
    var line := env.parse(Stripped(text[..FirstBreak(text).value]));
    assert Says(env, text, line);
    assert EffectOf(req, proc, line).Vacates? ==>
      line == Reply(Some(req.rid), false, true) || SaysError(line, req.rid) || Garbage(line, req.rid);
  }

  lemma VacateReasons(s: Pool, env: Environment, i: nat, kept: Option<nat>, outcome: Outcome)
    requires i < |s.slots|
    ensures var t := Pump(Vacate(s, i, kept, outcome), env);
      && s.tries <= t.tries && s.settled <= t.settled
      && forall j :: |s.settled| <= j < |t.settled| ==>
           DispatchFailed(env, s.tries, t.tries, t.settled[j].outcome)
           || (s.slots[i].current.Some? && t.settled[j] == Settlement(s.slots[i].current.value.key, outcome))
  {
    var v := Vacate(s, i, kept, outcome);
    PumpReasons(v, env);
    assert forall j :: |s.settled| <= j < |v.settled| ==> Pump(v, env).settled[j] == v.settled[j];
  }

  lemma RawLineReasons(s: Pool, env: Environment, i: nat, proc: nat, text: string)
    requires i < |s.slots| && FirstBreak(text).Some?
    ensures TextReasons(s, env, OnRawLine(s, env, i, proc, Stripped(text[..FirstBreak(text).value])), proc, text)
  {
    var raw := Stripped(text[..FirstBreak(text).value]);
    if !Blank(raw) && s.slots[i].proc == Some(proc) && s.slots[i].current.Some? {
      var effect := EffectOf(s.slots[i].current.value, proc, env.parse(raw));
      EffectIsSaid(env, s.slots[i].current.value, proc, text);
      if effect.Vacates? {
        VacateReasons(s, env, i, effect.proc, effect.outcome);
      }
    }
  }

  lemma RestSays(env: Environment, text: string, proc: nat, outcome: Outcome)
    requires FirstBreak(text).Some? && SaidTo(env, text[FirstBreak(text).value + 1..], proc, outcome)
    ensures SaidTo(env, text, proc, outcome)
  {
    var rest := text[FirstBreak(text).value + 1..];
    assert forall line :: Says(env, rest, line) ==> Says(env, text, line);
  }

  lemma ReasonsCompose(s: Pool, env: Environment, t: Pool, u: Pool, proc: nat, text: string)
    requires FirstBreak(text).Some? && TextReasons(s, env, t, proc, text)
    requires TextReasons(t, env, u, proc, text[FirstBreak(text).value + 1..])
    ensures TextReasons(s, env, u, proc, text)
  {
    forall j | |s.settled| <= j < |u.settled|
      ensures DispatchFailed(env, s.tries, u.tries, u.settled[j].outcome)
           || SaidTo(env, text, proc, u.settled[j].outcome)
    {
      if j < |t.settled| {
        assert u.settled[j] == t.settled[j];
      } else if SaidTo(env, text[FirstBreak(text).value + 1..], proc, u.settled[j].outcome) {
        RestSays(env, text, proc, u.settled[j].outcome);
      }
    }
  }

  lemma {:induction false} TextHasReasons(s: Pool, env: Environment, i: nat, proc: nat, text: string)
    ensures TextReasons(s, env, OnText(s, env, i, proc, text), proc, text)
    decreases |text|
  {
    if i < |s.slots| && s.slots[i].proc == Some(proc) && FirstBreak(text).Some? {
      var rest := text[FirstBreak(text).value + 1..];
      var b := Buffered(s, i, rest);
      var t := OnRawLine(b, env, i, proc, Stripped(text[..FirstBreak(text).value]));
      RawLineReasons(b, env, i, proc, text);
      TextHasReasons(t, env, i, proc, rest);
      assert TextReasons(s, env, t, proc, text);
      ReasonsCompose(s, env, t, OnText(t, env, i, proc, rest), proc, text);
    }
  }

  lemma {:induction false} DetachReasons(s: Pool, i: nat)
    ensures var t := DetachFrom(s, i);
      && t.tries == s.tries && s.settled <= t.settled
      && forall j :: |s.settled| <= j < |t.settled| ==> t.settled[j].outcome == Rejected(Closed)
    decreases |s.slots| - i
  {
    if i < |s.slots| {
      var v := Vacate(s, i, None, Rejected(Closed));
      DetachReasons(v, i + 1);
      assert forall j :: |s.settled| <= j < |v.settled| ==> DetachFrom(s, i).settled[j] == v.settled[j];
    }
  }

  lemma {:induction false} ClosedAllIsClosed(queue: seq<Request>)
    ensures forall j :: 0 <= j < |ClosedAll(queue)| ==> ClosedAll(queue)[j].outcome == Rejected(Closed)
    decreases |queue|
  {
    if queue != [] {
      ClosedAllIsClosed(queue[1..]);
    }
  }

  lemma CloseReasons(s: Pool)
    ensures var t := OnClose(s);
      && s.settled <= t.settled
      && forall j :: |s.settled| <= j < |t.settled| ==> t.settled[j].outcome == Rejected(Closed)
  {
    var c := s.(closed := true, queue := [], settled := s.settled + ClosedAll(s.queue));
    ClosedAllIsClosed(s.queue);
    DetachReasons(c, 0);
    forall j | |s.settled| <= j < |c.settled|
      ensures OnClose(s).settled[j].outcome == Rejected(Closed)
    {
      assert OnClose(s).settled[j] == c.settled[j] == ClosedAll(s.queue)[j - |s.settled|];
    }
  }

  /** Every settlement of a step has a reason. */
  lemma StepHasReasons(s: Pool, env: Environment, e: Event)
    ensures var t := Step(s, env, e);
      && s.settled <= t.settled
      && forall j :: |s.settled| <= j < |t.settled| ==> Reason(s, env, e, t, t.settled[j])
  {
    match e
    case Ask => PumpReasons(s.(queue := s.queue + [PendingRequest(s.issued, 0, 0)], issued := s.issued + 1), env);
    case Data(i, proc, chunk) => if i < |s.slots| { TextHasReasons(s, env, i, proc, s.slots[i].buffer + chunk); }
    case Timeout(i, key) =>
      if i < |s.slots| && s.slots[i].current.Some? {
        PumpReasons(Retried(s, i), env);
        VacateReasons(s, env, i, None, Rejected(TimedOut));
      }
    case Exit(i, proc) => if i < |s.slots| { VacateReasons(s, env, i, None, Rejected(Crashed)); }
    case SpawnError(i, proc) => if i < |s.slots| { VacateReasons(s, env, i, None, Rejected(SpawnFailed)); }
    case Close => CloseReasons(s);
  }

  /** The state in which the k-th event of a run arrives. */
  function Before(s: Pool, env: Environment, events: seq<Event>, k: nat): Pool
    requires k <= |events|
    decreases k
  {
    if k == 0 then s else Before(Step(s, env, events[0]), env, events[1..], k - 1)
  }

  ghost predicate ReasonAt(s: Pool, env: Environment, events: seq<Event>, k: nat, settlement: Settlement)
    requires k < |events|
  {
    var before := Before(s, env, events, k);
    Reason(before, env, events[k], Step(before, env, events[k]), settlement)
  }

  /** Behind every settlement of a run stands one of its events: a result in the output of the very process
      that the request was sent to, an error, garbage, its second timeout, an exit, a spawn error, the close,
      or a dispatch that failed. */
  lemma {:induction false} EverySettlementHasAReason(s: Pool, env: Environment, events: seq<Event>, j: nat)
    requires |s.settled| <= j < |RunOf(s, env, events).settled|
    ensures exists k: nat :: k < |events| && ReasonAt(s, env, events, k, RunOf(s, env, events).settled[j])
    decreases |events|
  {
    var t, rest := Step(s, env, events[0]), events[1..];
    StepHasReasons(s, env, events[0]);
    RunExtends(t, env, rest);
    if j < |t.settled| {
      assert RunOf(s, env, events).settled[j] == t.settled[j];
      assert ReasonAt(s, env, events, 0, t.settled[j]);
    } else {
      EverySettlementHasAReason(t, env, rest, j);
      var k: nat :| k < |rest| && ReasonAt(t, env, rest, k, RunOf(t, env, rest).settled[j]);
      assert Before(s, env, events, k + 1) == Before(t, env, rest, k);
      assert ReasonAt(s, env, events, k + 1, RunOf(s, env, events).settled[j]);
    }
  }

  lemma {:induction false} RunExtends(s: Pool, env: Environment, events: seq<Event>)
    ensures s.settled <= RunOf(s, env, events).settled
    decreases |events|
  {
    if events != [] {
      StepHasReasons(s, env, events[0]);
      RunExtends(Step(s, env, events[0]), env, events[1..]);
    }
  }
}
