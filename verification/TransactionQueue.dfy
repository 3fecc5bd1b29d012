/** The adapter one await at a time: calls arrive while a transaction is under way. The running
    callback is a program and a stack of frames, one per open nested transaction. */
module TransactionQueue {
  import opened Prelude
  import opened Transactions

  /** What a nested transaction goes on with, and its savepoint. */
  datatype Frame<!D> = Frame(name: nat, next: Program<D>, handler: Program<D>)

  datatype Control<!D> = Idle | Running(call: Call<D>, at: Program<D>, frames: seq<Frame<D>>)

  /** `called`: every outermost call, in order. `started`: those that have begun. `outcomes`: of those
      that have ended. */
  datatype Machine<!D> = Machine(
    c: Connection<D>, depth: nat, control: Control<D>, queue: seq<Call<D>>, called: seq<Call<D>>,
    started: seq<Call<D>>, outcomes: seq<bool>)

  function Initial<D>(d: D): Machine<D> {
    Machine(Connection(d, None, []), 0, Idle, [], [], [], [])
  }

  function OnCall<D>(m: Machine<D>, call: Call<D>): Machine<D> {
    m.(queue := m.queue + [call], called := m.called + [call])
  }

  /** The next queued transaction begins. */
  function Start<D>(m: Machine<D>): Machine<D> {
    var begun := Begin(m.c);
    if m.queue == [] || begun.None? then m
    else
      m.(c := begun.value, depth := 1, control := Running(m.queue[0], m.queue[0].fn, []), queue := m.queue[1..],
         started := m.started + [m.queue[0]])
  }

  /** The outermost callback has returned or thrown. */
  function EndOuter<D>(m: Machine<D>, returned: bool): Machine<D>
    requires m.control.Running?
  {
    var committed := Commit(m.c, m.control.call.commits);
    var t := m.(depth := 0, control := Idle, outcomes := m.outcomes + [returned && committed.Some?]);
    if returned && committed.Some? then t.(c := committed.value)
    else
      var back := Rollback(m.c);
      t.(c := if back.Some? then back.value else m.c)
  }

  /** A nested callback has returned or thrown. */
  function EndNested<D>(m: Machine<D>, returned: bool): Machine<D>
    requires m.control.Running? && m.control.frames != [] && m.depth > 0
  {
    var frames := m.control.frames;
    var top := frames[|frames| - 1];
    var (c, ok) := End(m.c, top.name, returned);
    m.(c := c, depth := m.depth - 1,
       control := m.control.(at := if ok then top.next else top.handler, frames := frames[..|frames| - 1]))
  }

  /** A query is answered. */
  function Branch<D>(m: Machine<D>): Machine<D>
    requires m.control.Running? && m.control.at.Query?
  {
    m.(control := m.control.(at := if m.control.at.test(m.c.data) then m.control.at.yes else m.control.at.no))
  }

  function Write<D>(m: Machine<D>): Machine<D>
    requires m.control.Running? && m.control.at.Execute?
  {
    var e := m.control.at.statement(m.c.data);
    if e.Some? then m.(c := m.c.(data := e.value), control := m.control.(at := m.control.at.next))
    else m.(control := m.control.(at := m.control.at.handler))
  }

  /** A nested transaction sets its savepoint, named by the depth. */
  function Open<D>(m: Machine<D>): Machine<D>
    requires m.control.Running? && m.control.at.Nested? && m.c.begun.Some?
  {
    var frame := Frame(m.depth, m.control.at.next, m.control.at.handler);
    m.(c := Mark(m.c, m.depth), depth := m.depth + 1,
       control := m.control.(at := m.control.at.body, frames := m.control.frames + [frame]))
  }

  function Close<D>(m: Machine<D>, returned: bool): Machine<D>
    requires m.control.Running? && m.depth > 0
  {
    if m.control.frames == [] then EndOuter(m, returned) else EndNested(m, returned)
  }

  /** The running callback up to its next await. */
  function Advance<D>(m: Machine<D>): Machine<D>
    requires m.control.Running? && m.depth > 0 && m.c.begun.Some?
  {
    match m.control.at
    case Done => Close(m, true)
    case Throw => Close(m, false)
    case Query(_, _, _) => Branch(m)
    case Execute(_, _, _) => Write(m)
    case Nested(_, _, _) => Open(m)
  }

  function Step<D>(m: Machine<D>): Machine<D> {
    if m.control.Idle? then Start(m)
    else if m.depth > 0 && m.c.begun.Some? then Advance(m)
    else m
  }

  datatype Event<!D> = Called(call: Call<D>) | Stepped

  function RunOf<D>(m: Machine<D>, events: seq<Event<D>>): Machine<D>
    decreases |events|
  {
    if events == [] then m
    else RunOf(match events[0] case Called(call) => OnCall(m, call) case Stepped => Step(m), events[1..])
  }

  // ----- What the running transaction will end in -----

  /** The rest of the callback, its open nested transactions and the outermost one, as a meaning. */
  function Finish<D>(at: Program<D>, d: D, frames: seq<Frame<D>>, savepoints: seq<Savepoint<D>>, base: D,
                     commits: D -> bool): Result<D>
    requires |frames| == |savepoints|
    decreases |frames|
  {
    var r := Meaning(at, d);
    if frames == [] then (if r.ok && commits(r.data) then r else Result(base, false))
    else
      var n := |frames| - 1;
      if r.ok then Finish(frames[n].next, r.data, frames[..n], savepoints[..n], base, commits)
      else Finish(frames[n].handler, savepoints[n].data, frames[..n], savepoints[..n], base, commits)
  }

  ghost predicate Nesting<D>(m: Machine<D>) {
    match m.control
    case Idle => m.c.begun.None? && m.depth == 0 && m.c.savepoints == []
    case Running(_, _, frames) =>
      && m.c.begun.Some? && m.depth == |frames| + 1 && |m.c.savepoints| == |frames|
      && forall i :: 0 <= i < |frames| ==> frames[i].name == m.c.savepoints[i].name == i + 1
  }

  /** The transactions begun so far are those called first, and the database is, or will be when the
      running one ends, what they leave behind one after the other. */
  ghost predicate Inv<D>(d: D, m: Machine<D>) {
    && Nesting(m)
    && m.called == m.started + m.queue
    && match m.control
       case Idle => m.c.data == Serial(d, m.started) && m.outcomes == Outcomes(d, m.started)
       case Running(call, at, frames) =>
         && m.started != [] && m.started[|m.started| - 1] == call
         && var before := m.started[..|m.started| - 1];
            && m.c.begun == Some(Serial(d, before)) && m.outcomes == Outcomes(d, before)
            && Finish(at, m.c.data, frames, m.c.savepoints, m.c.begun.value, call.commits)
               == Outermost(call, Serial(d, before))
  }

  lemma StartKeeps<D>(d: D, m: Machine<D>)
    requires Inv(d, m) && m.control.Idle?
    ensures Inv(d, Start(m))
  {
    if m.queue != [] {
      var t := Start(m);
      assert t.started[..|t.started| - 1] == m.started;
      assert m.started + m.queue == t.started + t.queue;
    }
  }

  lemma EndOuterKeeps<D>(d: D, m: Machine<D>, returned: bool)
    requires Inv(d, m) && m.control.Running? && m.control.frames == []
    requires m.control.at == if returned then Done else Throw
    ensures Inv(d, EndOuter(m, returned))
  {
  }

  lemma EndNestedKeeps<D>(d: D, m: Machine<D>, returned: bool)
    requires Inv(d, m) && m.control.Running? && m.control.frames != []
    requires m.control.at == if returned then Done else Throw
    ensures Inv(d, EndNested(m, returned))
  {
    var n := |m.control.frames| - 1;
    assert m.c.savepoints == m.c.savepoints[..n] + [m.c.savepoints[n]];
    ClosingTheLast(m.c, m.c.savepoints[..n], m.c.savepoints[n]);
  }

  lemma BranchKeeps<D>(d: D, m: Machine<D>)
    requires Inv(d, m) && m.control.Running? && m.control.at.Query?
    ensures Inv(d, Branch(m))
  {
  }

  lemma WriteKeeps<D>(d: D, m: Machine<D>)
    requires Inv(d, m) && m.control.Running? && m.control.at.Execute?
    ensures Inv(d, Write(m))
  {
  }

  lemma OpenKeeps<D>(d: D, m: Machine<D>)
    requires Inv(d, m) && m.control.Running? && m.control.at.Nested?
    ensures Inv(d, Open(m))
  {
    var frame := Frame(m.depth, m.control.at.next, m.control.at.handler);
    FinishNested(m.control.at, m.c.data, m.control.frames, frame, m.c.savepoints, Savepoint(m.depth, m.c.data),
                 m.c.begun.value, m.control.call.commits);
    OpenNests(m);
  }

  lemma OpenNests<D>(m: Machine<D>)
    requires Nesting(m) && m.control.Running? && m.control.at.Nested?
    ensures Nesting(Open(m))
  {
  }

  /** A nested transaction ends in the same as its body, with what follows on the stack. */
  lemma FinishNested<D>(at: Program<D>, d: D, frames: seq<Frame<D>>, frame: Frame<D>, savepoints: seq<Savepoint<D>>,
                        savepoint: Savepoint<D>, base: D, commits: D -> bool)
    requires |frames| == |savepoints| && at.Nested?
    requires frame.next == at.next && frame.handler == at.handler && savepoint.data == d
    ensures Finish(at, d, frames, savepoints, base, commits)
            == Finish(at.body, d, frames + [frame], savepoints + [savepoint], base, commits)
  {
    var n := |frames|;
    assert (frames + [frame])[..n] == frames && (savepoints + [savepoint])[..n] == savepoints;
  }

  lemma AdvanceKeeps<D>(d: D, m: Machine<D>)
    requires Inv(d, m) && m.control.Running?
    ensures Inv(d, Advance(m))
  {
    match m.control.at
    case Done => if m.control.frames == [] { EndOuterKeeps(d, m, true); } else { EndNestedKeeps(d, m, true); }
    case Throw => if m.control.frames == [] { EndOuterKeeps(d, m, false); } else { EndNestedKeeps(d, m, false); }
    case Query(_, _, _) => BranchKeeps(d, m);
    case Execute(_, _, _) => WriteKeeps(d, m);
    case Nested(_, _, _) => OpenKeeps(d, m);
  }

  /** Whatever calls arrive between whichever steps: every state of every run is serial, in call order. */
  lemma {:induction false} RunKeepsInv<D>(d: D, m: Machine<D>, events: seq<Event<D>>)
    requires Inv(d, m)
    ensures Inv(d, RunOf(m, events))
    decreases |events|
  {
    if events != [] {
      match events[0] {
        case Called(call) =>
          assert m.started + m.queue + [call] == m.started + (m.queue + [call]);
          RunKeepsInv(d, OnCall(m, call), events[1..]);
        case Stepped =>
          if m.control.Idle? { StartKeeps(d, m); } else { AdvanceKeeps(d, m); }
          RunKeepsInv(d, Step(m), events[1..]);
      }
    }
  }

  lemma EveryRunIsSerial<D>(d: D, events: seq<Event<D>>)
    ensures var m := RunOf(Initial(d), events);
      && m.started <= m.called
      && (m.control.Idle? ==> m.c.data == Serial(d, m.started) && m.outcomes == Outcomes(d, m.started))
      && (m.control.Idle? && m.queue == [] ==> m.c.data == Serial(d, m.called))
  {
    RunKeepsInv(d, Initial(d), events);
    var m := RunOf(Initial(d), events);
    assert m.queue == [] ==> m.started + m.queue == m.started;
  }

  // ----- Every transaction ends -----

  function Steps<D>(m: Machine<D>, n: nat): Machine<D>
    decreases n
  {
    if n == 0 then m else Steps(Step(m), n - 1)
  }

  lemma {:induction false} StepsAdd<D>(m: Machine<D>, a: nat, b: nat)
    ensures Steps(m, a + b) == Steps(Steps(m, a), b)
    decreases a
  {
    if a > 0 {
      StepsAdd(Step(m), a - 1, b);
    }
  }

  lemma StepThen<D>(m: Machine<D>, n: nat)
    ensures Steps(m, 1 + n) == Steps(Step(m), n)
  {
  }

  lemma StepAfter<D>(m: Machine<D>, n: nat)
    ensures Steps(m, n + 1) == Step(Steps(m, n))
  {
    StepsAdd(m, n, 1);
  }

  /** The state in which a callback has ended with the given result. */
  function Ended<D>(m: Machine<D>, r: Result<D>): Machine<D>
    requires m.control.Running?
  {
    m.(c := m.c.(data := r.data), control := m.control.(at := if r.ok then Done else Throw))
  }

  /** The small steps of a callback add up to its meaning, with the savepoint stack as it was. */
  lemma {:induction false} CallbackEnds<D>(m: Machine<D>) returns (n: nat)
    requires Nesting(m) && m.control.Running?
    ensures Steps(m, n) == Ended(m, Meaning(m.control.at, m.c.data))
    decreases m.control.at, 1
  {
    match m.control.at
    case Done => n := 0;
    case Throw => n := 0;
    case Query(_, yes, no) =>
      StepBranches(m);
      n := CallbackEnds(Branch(m));
      StepThen(m, n);
      n := 1 + n;
    case Execute(_, next, handler) =>
      StepWrites(m);
      n := CallbackEnds(Write(m));
      StepThen(m, n);
      n := 1 + n;
    case Nested(_, _, _) =>
      n := NestedEnds(m);
      ContinuedMeans(m);
      var l := CallbackEnds(Continued(m));
      StepsAdd(m, n, l);
      n := n + l;
  }

  /** The state in which the nested transaction has ended. */
  function Continued<D>(m: Machine<D>): Machine<D>
    requires m.control.Running? && m.control.at.Nested?
  {
    var r := Meaning(m.control.at.body, m.c.data);
    if r.ok then m.(c := m.c.(data := r.data), control := m.control.(at := m.control.at.next))
    else m.(control := m.control.(at := m.control.at.handler))
  }

  lemma ContinuedMeans<D>(m: Machine<D>)
    requires Nesting(m) && m.control.Running? && m.control.at.Nested?
    ensures var t := Continued(m);
      Nesting(t) && Ended(t, Meaning(t.control.at, t.c.data)) == Ended(m, Meaning(m.control.at, m.c.data))
  {
  }

  lemma StepBranches<D>(m: Machine<D>)
    requires Nesting(m) && m.control.Running? && m.control.at.Query?
    ensures var t := Branch(m);
      && Step(m) == t && Nesting(t)
      && Ended(t, Meaning(t.control.at, t.c.data)) == Ended(m, Meaning(m.control.at, m.c.data))
  {
  }

  lemma StepWrites<D>(m: Machine<D>)
    requires Nesting(m) && m.control.Running? && m.control.at.Execute?
    ensures var t := Write(m);
      && Step(m) == t && Nesting(t)
      && Ended(t, Meaning(t.control.at, t.c.data)) == Ended(m, Meaning(m.control.at, m.c.data))
  {
  }

  lemma OpenThenClose<D>(m: Machine<D>, r: Result<D>)
    requires Nesting(m) && m.control.Running? && m.control.at.Nested?
    requires r == Meaning(m.control.at.body, m.c.data)
    ensures Close(Ended(Open(m), r), r.ok) == Continued(m)
  {
    var t := Ended(Open(m), r);
    var f := |m.control.frames|;
    assert t.control.frames[..f] == m.control.frames;
    ClosingTheLast(t.c, m.c.savepoints, Savepoint(m.depth, m.c.data));
  }

  lemma {:induction false} NestedEnds<D>(m: Machine<D>) returns (n: nat)
    requires Nesting(m) && m.control.Running? && m.control.at.Nested?
    ensures Steps(m, n) == Continued(m)
    decreases m.control.at, 0
  {
    StepOpens(m);
    n := CallbackEnds(Open(m));
    var r := Meaning(m.control.at.body, m.c.data);
    StepCloses(Open(m), r);
    OpenThenClose(m, r);
    StepsBetween(m, n);
    n := 1 + (n + 1);
  }

  lemma StepsBetween<D>(m: Machine<D>, n: nat)
    ensures Steps(m, 1 + (n + 1)) == Step(Steps(Step(m), n))
  {
    StepThen(m, n + 1);
    StepAfter(Step(m), n);
  }

  lemma StepOpens<D>(m: Machine<D>)
    requires Nesting(m) && m.control.Running? && m.control.at.Nested?
    ensures Step(m) == Open(m) && Nesting(Open(m))
  {
  }

  lemma StepCloses<D>(m: Machine<D>, r: Result<D>)
    requires Nesting(m) && m.control.Running?
    ensures Step(Ended(m, r)) == Close(Ended(m, r), r.ok)
  {
  }

  lemma EndOuterSettles<D>(m: Machine<D>, returned: bool)
    requires Nesting(m) && m.control.Running? && m.control.frames == []
    ensures EndOuter(m, returned).control.Idle? && |EndOuter(m, returned).outcomes| == |m.outcomes| + 1
  {
  }

  lemma ClosedNesting<D>(m: Machine<D>, returned: bool)
    requires Nesting(m) && m.control.Running? && m.control.frames != []
    ensures var t := EndNested(m, returned);
      Nesting(t) && t.control.Running? && |t.control.frames| < |m.control.frames| && t.outcomes == m.outcomes
  {
    var f := |m.control.frames| - 1;
    assert m.c.savepoints == m.c.savepoints[..f] + [m.c.savepoints[f]];
    ClosingTheLast(m.c, m.c.savepoints[..f], m.c.savepoints[f]);
  }

  lemma EndedNesting<D>(m: Machine<D>, r: Result<D>)
    requires Nesting(m) && m.control.Running?
    ensures Nesting(Ended(m, r))
  {
  }

  /** A started transaction always reaches its end, and its promise settles. */
  lemma {:induction false} TransactionEnds<D>(m: Machine<D>) returns (n: nat)
    requires Nesting(m) && m.control.Running?
    ensures Steps(m, n).control.Idle? && |Steps(m, n).outcomes| == |m.outcomes| + 1
    decreases if m.control.Running? then |m.control.frames| else 0
  {
    n := CallbackEnds(m);
    var r := Meaning(m.control.at, m.c.data);
    var t := Ended(m, r);
    StepCloses(m, r);
    EndedNesting(m, r);
    if m.control.frames == [] {
      EndOuterSettles(t, r.ok);
      StepAfter(m, n);
      n := n + 1;
    } else {
      ClosedNesting(t, r.ok);
      var l := TransactionEnds(EndNested(t, r.ok));
      StepThen(t, l);
      StepsAdd(m, n, 1 + l);
      n := n + (1 + l);
    }
  }
}
