/** Nested transactions: what a tree of transactions means, and the statements of one connection with
    its savepoint stack. */
module Transactions {
  import opened Prelude

  // ----- Callbacks -----

  /** A transaction callback. A query decides how to go on. A statement throws and changes
      nothing, or writes; `next` follows success and `handler` a failure (it is `Throw` when nobody catches). */
  datatype Program<!D> =
    | Done
    | Throw
    | Query(test: D -> bool, yes: Program<D>, no: Program<D>)
    | Execute(statement: D -> Option<D>, next: Program<D>, handler: Program<D>)
    | Nested(body: Program<D>, next: Program<D>, handler: Program<D>)

  /** What a callback leaves behind, and whether it returned. */
  datatype Result<D> = Result(data: D, ok: bool)

  /** The meaning of a callback: a nested transaction that fails leaves no trace. */
  function Meaning<D>(p: Program<D>, d: D): Result<D> {
    match p
    case Done => Result(d, true)
    case Throw => Result(d, false)
    case Query(test, yes, no) => Meaning(if test(d) then yes else no, d)
    case Execute(statement, next, handler) =>
      var e := statement(d);
      if e.Some? then Meaning(next, e.value) else Meaning(handler, d)
    case Nested(body, next, handler) =>
      var r := Meaning(body, d);
      if r.ok then Meaning(next, r.data) else Meaning(handler, d)
  }

  /** An outermost transaction. Its commit may be refused for what the database then holds. */
  datatype Call<!D> = Call(fn: Program<D>, commits: D -> bool)

  /** All of it, or nothing. */
  function Outermost<D>(call: Call<D>, d: D): Result<D> {
    var r := Meaning(call.fn, d);
    if r.ok && call.commits(r.data) then r else Result(d, false)
  }

  /** One outermost transaction after the other. */
  function Serial<D>(d: D, calls: seq<Call<D>>): D {
    if calls == [] then d else Outermost(calls[|calls| - 1], Serial(d, calls[..|calls| - 1])).data
  }

  function Outcomes<D>(d: D, calls: seq<Call<D>>): seq<bool> {
    if calls == [] then []
    else
      var init := calls[..|calls| - 1];
      Outcomes(d, init) + [Outermost(calls[|calls| - 1], Serial(d, init)).ok]
  }

  // ----- Survivors -----

  /** The statements that took effect, without those of the nested transactions that failed. */
  function Survivors<D>(p: Program<D>, d: D): seq<D -> Option<D>> {
    match p
    case Done => []
    case Throw => []
    case Query(test, yes, no) => Survivors(if test(d) then yes else no, d)
    case Execute(statement, next, handler) =>
      var e := statement(d);
      if e.Some? then [statement] + Survivors(next, e.value) else Survivors(handler, d)
    case Nested(body, next, handler) =>
      var r := Meaning(body, d);
      if r.ok then Survivors(body, d) + Survivors(next, r.data) else Survivors(handler, d)
  }

  /** The statements one after the other; none of them may throw. */
  function Replay<D>(d: D, statements: seq<D -> Option<D>>): Option<D> {
    if statements == [] then Some(d)
    else
      var e := statements[0](d);
      if e.Some? then Replay(e.value, statements[1..]) else None
  }

  lemma {:induction false} ReplayConcat<D>(d: D, a: seq<D -> Option<D>>, b: seq<D -> Option<D>>)
    ensures Replay(d, a + b) == if Replay(d, a).Some? then Replay(Replay(d, a).value, b) else None
    decreases |a|
  {
    if a == [] {
      assert a + b == b;
    } else {
      assert (a + b)[1..] == a[1..] + b;
      if a[0](d).Some? {
        ReplayConcat(a[0](d).value, a[1..], b);
      }
    }
  }

  /** Dropping exactly the failed subtrees: replaying the survivors alone gives the same database. */
  lemma {:induction false} FailedSubtreesAreDropped<D>(p: Program<D>, d: D)
    ensures Replay(d, Survivors(p, d)) == Some(Meaning(p, d).data)
  {
    match p
    case Done =>
    case Throw =>
    case Query(test, yes, no) => FailedSubtreesAreDropped(if test(d) then yes else no, d);
    case Execute(statement, next, handler) =>
      if statement(d).Some? {
        var e := statement(d).value;
        FailedSubtreesAreDropped(next, e);
        assert ([statement] + Survivors(next, e))[1..] == Survivors(next, e);
      } else {
        FailedSubtreesAreDropped(handler, d);
      }
    case Nested(body, next, handler) =>
      var r := Meaning(body, d);
      if r.ok {
        FailedSubtreesAreDropped(body, d);
        FailedSubtreesAreDropped(next, r.data);
        ReplayConcat(d, Survivors(body, d), Survivors(next, r.data));
      } else {
        FailedSubtreesAreDropped(handler, d);
      }
  }

  // ----- Which callbacks return, and what they keep -----

  /** Statements one after the other, none of them caught. */
  function Straight<D>(statements: seq<D -> Option<D>>): Program<D> {
    if statements == [] then Done else Execute(statements[0], Straight(statements[1..]), Throw)
  }

  /** A callback of statements alone returns exactly if none of them throws, and then all of them count. */
  lemma {:induction false} StraightReturns<D>(statements: seq<D -> Option<D>>, d: D)
    ensures Meaning(Straight(statements), d).ok <==> Replay(d, statements).Some?
    ensures Replay(d, statements).Some? ==>
      Survivors(Straight(statements), d) == statements
      && Meaning(Straight(statements), d).data == Replay(d, statements).value
    decreases |statements|
  {
    if statements != [] && statements[0](d).Some? {
      StraightReturns(statements[1..], statements[0](d).value);
      assert [statements[0]] + statements[1..] == statements;
    }
  }

  /** A nested transaction of statements, in front of others: if none of the inner ones throws, all count;
      else the failure is caught, and the outer ones count alone. */
  lemma NestedStatementsCount<D>(inner: seq<D -> Option<D>>, outer: seq<D -> Option<D>>, d: D)
    ensures var p := Nested(Straight(inner), Straight(outer), Straight(outer));
      && (Replay(d, inner + outer).Some? ==>
          Meaning(p, d) == Result(Replay(d, inner + outer).value, true))
      && (Replay(d, inner).None? && Replay(d, outer).Some? ==> Meaning(p, d) == Result(Replay(d, outer).value, true))
  {
    ReplayConcat(d, inner, outer);
    StraightReturns(inner, d);
    StraightReturns(outer, d);
    if Replay(d, inner).Some? {
      StraightReturns(outer, Replay(d, inner).value);
    }
  }

  /** An outermost transaction succeeds exactly if its callback returns and its commit is accepted. Then the
      database holds what the surviving statements make of it, and else what it held before. */
  lemma OutermostKeepsIff<D>(call: Call<D>, d: D)
    ensures var r := Meaning(call.fn, d);
      && (Outermost(call, d).ok <==> r.ok && call.commits(r.data))
      && Some(Outermost(call, d).data)
         == if r.ok && call.commits(r.data) then Replay(d, Survivors(call.fn, d)) else Some(d)
  {
    FailedSubtreesAreDropped(call.fn, d);
  }

  // ----- The connection -----

  datatype Savepoint<D> = Savepoint(name: nat, data: D)

  /** `begun` is what the database held at BEGIN. */
  datatype Connection<D> = Connection(data: D, begun: Option<D>, savepoints: seq<Savepoint<D>>)

  /** The most recent savepoint of that name. */
  function Latest<D>(savepoints: seq<Savepoint<D>>, name: nat): (found: Option<nat>)
    ensures found.Some? ==> found.value < |savepoints| && savepoints[found.value].name == name
    ensures found.None? ==> forall i :: 0 <= i < |savepoints| ==> savepoints[i].name != name
  {
    if savepoints == [] then None
    else if savepoints[|savepoints| - 1].name == name then Some(|savepoints| - 1)
    else Latest(savepoints[..|savepoints| - 1], name)
  }

  // Each statement gives the new state, or an error that changes nothing.

  function Begin<D>(c: Connection<D>): Option<Connection<D>> {
    if c.begun.Some? then None else Some(Connection(c.data, Some(c.data), []))
  }

  function Commit<D>(c: Connection<D>, commits: D -> bool): Option<Connection<D>> {
    if c.begun.None? || !commits(c.data) then None else Some(Connection(c.data, None, []))
  }

  function Rollback<D>(c: Connection<D>): Option<Connection<D>> {
    if c.begun.None? then None else Some(Connection(c.begun.value, None, []))
  }

  function Mark<D>(c: Connection<D>, name: nat): Connection<D>
    requires c.begun.Some?
  {
    c.(savepoints := c.savepoints + [Savepoint(name, c.data)])
  }

  /** RELEASE removes the savepoint and all later ones, and keeps the data. */
  function Release<D>(c: Connection<D>, name: nat): Option<Connection<D>> {
    var i := Latest(c.savepoints, name);
    if i.None? then None else Some(c.(savepoints := c.savepoints[..i.value]))
  }

  /** ROLLBACK TO restores the data, removes the later savepoints, and keeps this one. */
  function RollbackTo<D>(c: Connection<D>, name: nat): Option<Connection<D>> {
    var i := Latest(c.savepoints, name);
    if i.None? then None
    else Some(c.(data := c.savepoints[i.value].data, savepoints := c.savepoints[..i.value + 1]))
  }

  /** What the adapter sends when a nested transaction fails: errors are swallowed. */
  function Undo<D>(c: Connection<D>, name: nat): Connection<D> {
    var r := RollbackTo(c, name);
    if r.None? then c
    else
      var released := Release(r.value, name);
      if released.None? then r.value else released.value
  }

  lemma LatestIsLast<D>(savepoints: seq<Savepoint<D>>, name: nat)
    requires savepoints != [] && savepoints[|savepoints| - 1].name == name
    ensures Latest(savepoints, name) == Some(|savepoints| - 1)
  {
  }

  /** Closing the most recent savepoint brings the stack back. */
  lemma ClosingTheLast<D>(c: Connection<D>, init: seq<Savepoint<D>>, last: Savepoint<D>)
    requires c.savepoints == init + [last]
    ensures Release(c, last.name) == Some(c.(savepoints := init))
    ensures Undo(c, last.name) == c.(data := last.data, savepoints := init)
  {
    LatestIsLast(c.savepoints, last.name);
    assert (init + [last])[..|init|] == init;
    assert (init + [last])[..|init| + 1] == init + [last];
  }

  // ----- Siblings that overlap -----

  /** The end of a nested transaction whose callback has returned, or thrown. It may also fail because
      its savepoint is gone. */
  function End<D>(c: Connection<D>, name: nat, returned: bool): (Connection<D>, bool) {
    if returned && Release(c, name).Some? then (Release(c, name).value, true) else (Undo(c, name), false)
  }

  /** A write of one of two siblings, by a number that says what it does to the database. */
  datatype Write = Write(byFirst: bool, id: nat)

  /** When two nested transactions of one callback write: the first ends before the second opens, or
      they overlap. Then `early` are writes of the first before the second opens, `middle` those of
      both while both are open, and `late` those of the one that ends last. */
  datatype Schedule =
    | Apart(first: seq<nat>, second: seq<nat>)
    | Overlapping(early: seq<nat>, middle: seq<Write>, firstEndsFirst: bool, late: seq<nat>)

  function Apply<D>(write: (nat, D) -> D, d: D, ids: seq<nat>): D {
    if ids == [] then d else write(ids[|ids| - 1], Apply(write, d, ids[..|ids| - 1]))
  }

  function Written<D>(write: (nat, D) -> D, c: Connection<D>, ids: seq<nat>): Connection<D> {
    c.(data := Apply(write, c.data, ids))
  }

  /** The writes of the siblings asked for. */
  function WritesOf(writes: seq<Write>, ofFirst: bool, ofSecond: bool): seq<nat> {
    if writes == [] then []
    else
      var last := writes[|writes| - 1];
      WritesOf(writes[..|writes| - 1], ofFirst, ofSecond) +
      if (if last.byFirst then ofFirst else ofSecond) then [last.id] else []
  }

  /** The adapter's statements for such a schedule. A savepoint is named by the depth at which it is
      opened. The results say whether the siblings resolve. */
  function RunSiblings<D>(c: Connection<D>, depth: nat, write: (nat, D) -> D, s: Schedule, firstReturns: bool,
                          secondReturns: bool): (Connection<D>, bool, bool)
    requires c.begun.Some?
  {
    match s
    case Apart(first, second) =>
      var (c1, firstOk) := End(Written(write, Mark(c, depth), first), depth, firstReturns);
      var (c2, secondOk) := End(Written(write, Mark(c1, depth), second), depth, secondReturns);
      (c2, firstOk, secondOk)
    case Overlapping(early, middle, firstEndsFirst, late) =>
      var both := Mark(Written(write, Mark(c, depth), early), depth + 1);
      var written := Written(write, both, WritesOf(middle, true, true));
      if firstEndsFirst then
        var (c1, firstOk) := End(written, depth, firstReturns);
        var (c2, secondOk) := End(Written(write, c1, late), depth + 1, secondReturns);
        (c2, firstOk, secondOk)
      else
        var (c1, secondOk) := End(written, depth + 1, secondReturns);
        var (c2, firstOk) := End(Written(write, c1, late), depth, firstReturns);
        (c2, firstOk, secondOk)
  }

  /** The writes of exactly the siblings that resolve, in order. */
  function Resolved(s: Schedule, firstOk: bool, secondOk: bool): seq<nat> {
    match s
    case Apart(first, second) => (if firstOk then first else []) + if secondOk then second else []
    case Overlapping(early, middle, firstEndsFirst, late) =>
      (if firstOk then early else []) + WritesOf(middle, firstOk, secondOk)
      + if (if firstEndsFirst then secondOk else firstOk) then late else []
  }

  /** The writes that the database keeps. */
  function Kept(s: Schedule, firstReturns: bool, secondReturns: bool): seq<nat> {
    match s
    case Apart(_, _) => Resolved(s, firstReturns, secondReturns)
    case Overlapping(early, middle, firstEndsFirst, late) =>
      if firstReturns then early + (if firstEndsFirst || secondReturns then WritesOf(middle, true, true) else []) + late
      else if firstEndsFirst then late
      else []
  }

  /** The second sibling to open resolves only if the first does not end before it. */
  predicate SecondResolves(s: Schedule, secondReturns: bool) {
    secondReturns && !(s.Overlapping? && s.firstEndsFirst)
  }

  lemma {:induction false} ApplyConcat<D>(write: (nat, D) -> D, d: D, a: seq<nat>, b: seq<nat>)
    ensures Apply(write, d, a + b) == Apply(write, Apply(write, d, a), b)
    decreases |b|
  {
    if b == [] {
      assert a + b == a;
    } else {
      assert (a + b)[..|a + b| - 1] == a + b[..|b| - 1];
      ApplyConcat(write, d, a, b[..|b| - 1]);
    }
  }

  /** No savepoint of the enclosing transactions has a name of the siblings. */
  ghost predicate NamesBelow<D>(c: Connection<D>, depth: nat) {
    forall i :: 0 <= i < |c.savepoints| ==> c.savepoints[i].name < depth
  }

  lemma EndOfLast<D>(c: Connection<D>, init: seq<Savepoint<D>>, last: Savepoint<D>, returned: bool)
    requires c.savepoints == init + [last]
    ensures End(c, last.name, returned) ==
            (c.(data := if returned then c.data else last.data, savepoints := init), returned)
  {
    ClosingTheLast(c, init, last);
  }

  /** The first sibling ends below the savepoint of the second, and takes it along. */
  lemma EndOfFirst<D>(c: Connection<D>, init: seq<Savepoint<D>>, first: Savepoint<D>, second: Savepoint<D>,
                      returned: bool)
    requires c.savepoints == init + [first] + [second] && first.name != second.name
    ensures End(c, first.name, returned) ==
            (c.(data := if returned then c.data else first.data, savepoints := init), returned)
  {
    assert c.savepoints[..|c.savepoints| - 1] == init + [first];
    LatestIsLast(init + [first], first.name);
    assert c.savepoints[..|init|] == init && c.savepoints[..|init| + 1] == init + [first];
    if !returned {
      ClosingTheLast(c.(data := first.data, savepoints := init + [first]), init, first);
    }
  }

  lemma EndOfNone<D>(c: Connection<D>, name: nat, returned: bool)
    requires NamesBelow(c, name)
    ensures End(c, name, returned) == (c, false)
  {
  }

  lemma ApartKeeps<D>(c: Connection<D>, depth: nat, write: (nat, D) -> D, first: seq<nat>, second: seq<nat>,
                      firstReturns: bool, secondReturns: bool)
    requires c.begun.Some?
    ensures RunSiblings(c, depth, write, Apart(first, second), firstReturns, secondReturns) ==
            (Written(write, c, Kept(Apart(first, second), firstReturns, secondReturns)), firstReturns, secondReturns)
  {
    var init := c.savepoints;
    EndOfLast(Written(write, Mark(c, depth), first), init, Savepoint(depth, c.data), firstReturns);
    var kept := if firstReturns then first else [];
    var c1 := Written(write, c, kept);
    EndOfLast(Written(write, Mark(c1, depth), second), init, Savepoint(depth, c1.data), secondReturns);
    ApplyConcat(write, c.data, kept, if secondReturns then second else []);
  }

  /** The second ends first: the savepoints are closed in the order of a stack. */
  lemma LifoKeeps<D>(c: Connection<D>, depth: nat, write: (nat, D) -> D, early: seq<nat>, middle: seq<Write>,
                     late: seq<nat>, firstReturns: bool, secondReturns: bool)
    requires c.begun.Some?
    ensures var s := Overlapping(early, middle, false, late);
            RunSiblings(c, depth, write, s, firstReturns, secondReturns) ==
            (Written(write, c, Kept(s, firstReturns, secondReturns)), firstReturns, secondReturns)
  {
    var below := c.savepoints + [Savepoint(depth, c.data)];
    var c1 := Written(write, Mark(c, depth), early);
    var ids := WritesOf(middle, true, true);
    EndOfLast(Written(write, Mark(c1, depth + 1), ids), below, Savepoint(depth + 1, c1.data), secondReturns);
    var kept := if secondReturns then ids else [];
    var c2 := Written(write, c1, kept);
    EndOfLast(Written(write, c2, late), c.savepoints, Savepoint(depth, c.data), firstReturns);
    ApplyConcat(write, c.data, early, kept);
    ApplyConcat(write, c.data, early + kept, late);
  }

  /** The first ends first, and the savepoint of the second is gone. */
  lemma FifoKeeps<D>(c: Connection<D>, depth: nat, write: (nat, D) -> D, early: seq<nat>, middle: seq<Write>,
                     late: seq<nat>, firstReturns: bool, secondReturns: bool)
    requires c.begun.Some? && NamesBelow(c, depth)
    ensures var s := Overlapping(early, middle, true, late);
            RunSiblings(c, depth, write, s, firstReturns, secondReturns) ==
            (Written(write, c, Kept(s, firstReturns, secondReturns)), firstReturns, false)
  {
    var c1 := Written(write, Mark(c, depth), early);
    var ids := WritesOf(middle, true, true);
    EndOfFirst(Written(write, Mark(c1, depth + 1), ids), c.savepoints, Savepoint(depth, c.data),
               Savepoint(depth + 1, c1.data), firstReturns);
    var kept := if firstReturns then early + ids else [];
    EndOfNone(Written(write, Written(write, c, kept), late), depth + 1, secondReturns);
    ApplyConcat(write, c.data, early, ids);
    ApplyConcat(write, c.data, kept, late);
    assert [] + late == late;
  }

  /** What two siblings leave behind, whatever they write, in every order and with every outcome. */
  lemma SiblingsKeep<D>(c: Connection<D>, depth: nat, write: (nat, D) -> D, s: Schedule, firstReturns: bool,
                        secondReturns: bool)
    requires c.begun.Some? && NamesBelow(c, depth)
    ensures RunSiblings(c, depth, write, s, firstReturns, secondReturns) ==
            (Written(write, c, Kept(s, firstReturns, secondReturns)), firstReturns, SecondResolves(s, secondReturns))
  {
    match s
    case Apart(first, second) => ApartKeeps(c, depth, write, first, second, firstReturns, secondReturns);
    case Overlapping(early, middle, firstEndsFirst, late) =>
      if firstEndsFirst {
        FifoKeeps(c, depth, write, early, middle, late, firstReturns, secondReturns);
      } else {
        LifoKeeps(c, depth, write, early, middle, late, firstReturns, secondReturns);
      }
  }

  /** The siblings do not overlap; or the second to open writes nothing, and unless the first ends
      first, neither does the first while the second is open. */
  predicate Isolated(s: Schedule) {
    s.Apart? ||
    (&& WritesOf(s.middle, false, true) == []
     && if s.firstEndsFirst then s.late == [] else WritesOf(s.middle, true, false) == [])
  }

  /** What the database keeps are the writes of exactly the siblings that resolve. */
  ghost predicate Faithful<D>(c: Connection<D>, depth: nat, write: (nat, D) -> D, s: Schedule, firstReturns: bool,
                              secondReturns: bool)
    requires c.begun.Some?
  {
    var (end, firstOk, secondOk) := RunSiblings(c, depth, write, s, firstReturns, secondReturns);
    end.data == Apply(write, c.data, Resolved(s, firstOk, secondOk))
  }

  lemma {:induction false} WritesSplit(writes: seq<Write>)
    ensures |WritesOf(writes, true, true)| == |WritesOf(writes, true, false)| + |WritesOf(writes, false, true)|
    ensures WritesOf(writes, false, false) == []
    ensures WritesOf(writes, false, true) == [] ==> WritesOf(writes, true, true) == WritesOf(writes, true, false)
    ensures WritesOf(writes, true, false) == [] ==> WritesOf(writes, true, true) == WritesOf(writes, false, true)
    decreases |writes|
  {
    if writes != [] {
      WritesSplit(writes[..|writes| - 1]);
    }
  }

  /** For one outcome: the condition under which exactly the right writes are kept. */
  predicate Fair(s: Schedule, firstReturns: bool, secondReturns: bool) {
    s.Apart? ||
    if s.firstEndsFirst then s.late == [] && (firstReturns ==> WritesOf(s.middle, false, true) == [])
    else firstReturns == secondReturns || WritesOf(s.middle, firstReturns, secondReturns) == []
  }

  lemma KeptIff(s: Schedule, firstReturns: bool, secondReturns: bool)
    ensures Kept(s, firstReturns, secondReturns) == Resolved(s, firstReturns, SecondResolves(s, secondReturns))
            <==> Fair(s, firstReturns, secondReturns)
  {
    if s.Overlapping? {
      WritesSplit(s.middle);
      if firstReturns {
        assert s.early + [] == s.early;
      }
    }
  }

  /** The database that tells all writes apart: the log of their numbers. */
  function Log(id: nat, log: seq<nat>): seq<nat> {
    log + [id]
  }

  lemma {:induction false} LogIs(log: seq<nat>, ids: seq<nat>)
    ensures Apply(Log, log, ids) == log + ids
    decreases |ids|
  {
    if ids != [] {
      LogIs(log, ids[..|ids| - 1]);
    }
  }

  lemma FairIff(c: Connection<seq<nat>>, depth: nat, s: Schedule, firstReturns: bool, secondReturns: bool)
    requires c.begun.Some? && NamesBelow(c, depth)
    ensures Faithful(c, depth, Log, s, firstReturns, secondReturns) <==> Fair(s, firstReturns, secondReturns)
  {
    SiblingsKeep(c, depth, Log, s, firstReturns, secondReturns);
    var kept := Kept(s, firstReturns, secondReturns);
    var resolved := Resolved(s, firstReturns, SecondResolves(s, secondReturns));
    KeptIff(s, firstReturns, secondReturns);
    LogIs(c.data, kept);
    LogIs(c.data, resolved);
    assert (c.data + kept)[|c.data|..] == kept && (c.data + resolved)[|c.data|..] == resolved;
  }

  lemma IsolatedIff(s: Schedule)
    ensures Isolated(s) <==>
      Fair(s, true, true) && Fair(s, true, false) && Fair(s, false, true) && Fair(s, false, false)
  {
  }

  /** Whichever of the siblings return. */
  ghost predicate AlwaysFaithful(c: Connection<seq<nat>>, depth: nat, s: Schedule)
    requires c.begun.Some?
  {
    forall firstReturns, secondReturns :: Faithful(c, depth, Log, s, firstReturns, secondReturns)
  }

  /** Siblings always keep the writes of exactly those that resolve if and only if they are isolated in
      this sense. */
  lemma OverlapIsFaithfulIff(c: Connection<seq<nat>>, depth: nat, s: Schedule)
    requires c.begun.Some? && NamesBelow(c, depth)
    ensures AlwaysFaithful(c, depth, s) <==> Isolated(s)
  {
    IsolatedIff(s);
    forall firstReturns, secondReturns
      ensures Faithful(c, depth, Log, s, firstReturns, secondReturns) <==> Fair(s, firstReturns, secondReturns)
    {
      FairIff(c, depth, s, firstReturns, secondReturns);
    }
    if Isolated(s) {
      forall firstReturns, secondReturns
        ensures Fair(s, firstReturns, secondReturns)
      {
        FairOfBools(s, firstReturns, secondReturns);
      }
    }
  }

  lemma FairOfBools(s: Schedule, firstReturns: bool, secondReturns: bool)
    requires Isolated(s)
    ensures Fair(s, firstReturns, secondReturns)
  {
  }

  /** And then they do so whatever the writes do. */
  lemma IsolatedIsFaithful<D>(c: Connection<D>, depth: nat, write: (nat, D) -> D, s: Schedule, firstReturns: bool,
                              secondReturns: bool)
    requires c.begun.Some? && NamesBelow(c, depth) && Isolated(s)
    ensures Faithful(c, depth, write, s, firstReturns, secondReturns)
  {
    SiblingsKeep(c, depth, write, s, firstReturns, secondReturns);
    KeptIff(s, firstReturns, secondReturns);
  }

  /** The first writes once the second has opened, the second fails, and the first returns: its write
      is gone although it resolves. */
  lemma OverlapLosesAWrite(c: Connection<seq<nat>>, depth: nat, id: nat)
    requires c.begun.Some? && NamesBelow(c, depth)
    ensures var s := Overlapping([], [Write(true, id)], false, []);
      RunSiblings(c, depth, Log, s, true, false) == (c, true, false) && Resolved(s, true, false) == [id]
  {
    var s := Overlapping([], [Write(true, id)], false, []);
    SiblingsKeep(c, depth, Log, s, true, false);
    assert WritesOf([Write(true, id)], true, false) == WritesOf([], true, false) + [id];
  }
}
