/** What each kind of step does with its items, in terms of what the hooks answer. */
module EngineSteps {
  import opened Prelude
  import opened Pipeline
  import opened RouteGraph
  import opened EngineMeaning

  // ----- Parts of a sequence -----

  ghost predicate Positions(at: seq<nat>, n: nat) {
    && (forall k :: 0 <= k < |at| ==> at[k] < n)
    && (forall j, k :: 0 <= j < k < |at| ==> at[j] < at[k])
  }

  /** The items at these positions. */
  function Pick(items: seq<Item>, at: seq<nat>): seq<Item>
    requires forall k :: 0 <= k < |at| ==> at[k] < |items|
  {
    seq(|at|, k requires 0 <= k < |at| => items[at[k]])
  }

  ghost predicate PartAt(items: seq<Item>, part: seq<Item>, holds: nat -> bool, at: seq<nat>) {
    && Positions(at, |items|) && part == Pick(items, at)
    && forall i: nat :: i < |items| ==> (i in at <==> holds(i))
  }

  /** `part` are, in order, the items at exactly the positions with that property. */
  ghost predicate PartWhere(items: seq<Item>, part: seq<Item>, holds: nat -> bool) {
    exists at: seq<nat> :: PartAt(items, part, holds, at)
  }

  function Behind(holds: nat -> bool): nat -> bool {
    (i: nat) => holds(i + 1)
  }

  /** The positions, one further on. */
  function Shifted(at: seq<nat>): seq<nat> {
    seq(|at|, k requires 0 <= k < |at| => at[k] + 1)
  }

  lemma ShiftedPositions(at: seq<nat>, n: nat)
    requires Positions(at, n)
    ensures Positions(Shifted(at), n + 1) && Positions([0] + Shifted(at), n + 1)
  {
  }

  lemma ShiftedPick(items: seq<Item>, at: seq<nat>)
    requires items != [] && forall k :: 0 <= k < |at| ==> at[k] < |items| - 1
    ensures Pick(items, Shifted(at)) == Pick(items[1..], at)
    ensures Pick(items, [0] + Shifted(at)) == [items[0]] + Pick(items[1..], at)
  {
  }

  lemma ShiftedMember(at: seq<nat>, i: nat)
    ensures i in Shifted(at) <==> i > 0 && i - 1 in at
    ensures i in [0] + Shifted(at) <==> i == 0 || i - 1 in at
  {
    if i > 0 && i - 1 in at {
      var k :| 0 <= k < |at| && at[k] == i - 1;
      assert Shifted(at)[k] == i;
    }
  }

  lemma PartAtInFront(items: seq<Item>, part: seq<Item>, holds: nat -> bool, at: seq<nat>)
    requires items != [] && PartAt(items[1..], part, Behind(holds), at)
    ensures holds(0) ==> PartAt(items, [items[0]] + part, holds, [0] + Shifted(at))
    ensures !holds(0) ==> PartAt(items, part, holds, Shifted(at))
  {
    ShiftedPositions(at, |items| - 1);
    ShiftedPick(items, at);
    forall i: nat | i < |items|
      ensures i > 0 ==> (i in Shifted(at) <==> holds(i)) && (i in [0] + Shifted(at) <==> holds(i))
      ensures i == 0 ==> i !in Shifted(at) && i in [0] + Shifted(at)
    {
      ShiftedMember(at, i);
      assert i > 0 ==> Behind(holds)(i - 1) == holds(i);
    }
  }

  /** One item in front. */
  lemma PartInFront(items: seq<Item>, part: seq<Item>, holds: nat -> bool)
    requires items != [] && PartWhere(items[1..], part, Behind(holds))
    ensures PartWhere(items, (if holds(0) then [items[0]] else []) + part, holds)
  {
    var at: seq<nat> :| PartAt(items[1..], part, Behind(holds), at);
    PartAtInFront(items, part, holds, at);
    assert [] + part == part;
  }

  lemma NoPart(holds: nat -> bool)
    ensures PartWhere([], [], holds)
  {
    var none: seq<nat> := [];
    assert PartAt([], [], holds, none);
  }

  // ----- Verify steps -----

  /** The verifier's answer to the i-th item. */
  function Passes(h: Hooks, clock: nat, items: seq<Item>): nat -> bool {
    (i: nat) => i < |items| && h.verify(clock + i, items[i])
  }

  function Fails(h: Hooks, clock: nat, items: seq<Item>): nat -> bool {
    (i: nat) => i < |items| && !h.verify(clock + i, items[i])
  }

  lemma SamePart(items: seq<Item>, part: seq<Item>, a: nat -> bool, b: nat -> bool)
    requires PartWhere(items, part, a) && forall i: nat :: i < |items| ==> a(i) == b(i)
    ensures PartWhere(items, part, b)
  {
    var at: seq<nat> :| PartAt(items, part, a, at);
    assert PartAt(items, part, b, at);
  }

  lemma {:induction false} SidesOfVerdict(h: Hooks, clock: nat, items: seq<Item>)
    ensures PartWhere(items, Passing(h, clock, items), Passes(h, clock, items))
    ensures PartWhere(items, Failing(h, clock, items), Fails(h, clock, items))
    decreases |items|
  {
    if items == [] {
      NoPart(Passes(h, clock, items));
      NoPart(Fails(h, clock, items));
    } else {
      var rest := items[1..];
      SidesOfVerdict(h, clock + 1, rest);
      SamePart(rest, Passing(h, clock + 1, rest), Passes(h, clock + 1, rest), Behind(Passes(h, clock, items)));
      SamePart(rest, Failing(h, clock + 1, rest), Fails(h, clock + 1, rest), Behind(Fails(h, clock, items)));
      PartInFront(items, Passing(h, clock + 1, rest), Passes(h, clock, items));
      PartInFront(items, Failing(h, clock + 1, rest), Fails(h, clock, items));
    }
  }

  /** A known verifier that does not throw accepts exactly the items it says yes to and leaves the others in
      play, in order on both sides; an unknown one fails the step. */
  lemma VerifyDecides(w: World, verifier: string, items: seq<Item>, retries: Option<int>, down: set<string>, m: Memory)
    ensures var r, h := StepRun(w, Verify(verifier), items, retries, down, m), w.hooks;
      if verifier !in w.verifiers then r.exec == Threw(UnknownVerifier)
      else if exists t :: m.clock <= t < m.clock + |items| && h.throws(t) then r.exec == Threw(HookThrew)
      else
        && r.exec.Done? && r.exec.skipped == [] && !r.exec.aborted
        && PartWhere(items, r.exec.accepted, Passes(h, m.clock, items))
        && PartWhere(items, r.exec.rejected, Fails(h, m.clock, items))
        && r.mem == m.(clock := m.clock + |items|)
  {
    SidesOfVerdict(w.hooks, m.clock, items);
  }

  // ----- Gates -----

  /** A gate that says no skips everything in play and ends its scope; one that says yes changes nothing. */
  lemma GateDecides(w: World, rest: seq<Step>, items: seq<Item>, retries: Option<int>, down: set<string>, m: Memory)
    requires RoutesWithin(w, RouteTargets([Gate] + rest), down)
    ensures RoutesWithin(w, RouteTargets(rest), down)
    ensures var r, after := ScopeRun(w, [Gate] + rest, items, retries, down, m), m.(clock := m.clock + 1);
      if w.hooks.throws(m.clock) then r.exec == Threw(HookThrew)
      else if w.hooks.gate(m.clock, items) then r == ScopeRun(w, rest, items, retries, down, after)
      else r == Ran(Done([], [], items, true), after)
  {
    var steps := [Gate] + rest;
    assert steps[1..] == rest;
    RoutesWithinScope(w, steps, down);
    NothingAccumulated(ScopeRun(w, rest, items, retries, down, m.(clock := m.clock + 1)));
  }

  // ----- Steps that decide nothing -----

  /** Agents, shells, transforms and selections leave every item in play, accepted or not, with one call of a
      hook; only an agent without items calls none. */
  lemma OthersDecideNothing(w: World, step: Step, items: seq<Item>, retries: Option<int>, down: set<string>, m: Memory)
    requires step in {Agent, Shell, Transform, Select} && (step.Agent? ==> items != [])
    ensures StepRun(w, step, items, retries, down, m)
         == if w.hooks.throws(m.clock) then Ran(Threw(HookThrew), m)
            else Ran(Done([], items, [], false), m.(clock := m.clock + 1))
  {
  }

  /** Agents and agent loops without items call no hook at all. */
  lemma NobodyIsAsked(w: World, step: Step, retries: Option<int>, down: set<string>, m: Memory)
    requires step.Agent? || step.AgentLoop?
    ensures StepRun(w, step, [], retries, down, m) == Ran(Done([], [], [], false), m)
  {
  }

  // ----- Agent loops -----

  function ById(items: seq<Item>, ids: set<string>): nat -> bool {
    (i: nat) => i < |items| && items[i].id in ids
  }

  function NotById(items: seq<Item>, ids: set<string>): nat -> bool {
    (i: nat) => i < |items| && items[i].id !in ids
  }

  lemma {:induction false} SidesOfIds(items: seq<Item>, ids: set<string>)
    ensures PartWhere(items, Only(items, ids), ById(items, ids))
    ensures PartWhere(items, Without(items, ids), NotById(items, ids))
    decreases |items|
  {
    if items == [] {
      NoPart(ById(items, ids));
      NoPart(NotById(items, ids));
    } else {
      var rest := items[1..];
      SidesOfIds(rest, ids);
      SamePart(rest, Only(rest, ids), ById(rest, ids), Behind(ById(items, ids)));
      SamePart(rest, Without(rest, ids), NotById(rest, ids), Behind(NotById(items, ids)));
      PartInFront(items, Only(rest, ids), ById(items, ids));
      PartInFront(items, Without(rest, ids), NotById(items, ids));
      assert [] + Only(rest, ids) == Only(rest, ids) && [] + Without(rest, ids) == Without(rest, ids);
    }
  }

  /** In a turn, exactly the items declared finished leave first; then the verdict is asked for the others,
      and exactly those that it does not accept stay in play. */
  lemma TurnDecides(h: Hooks, clock: nat, inPlay: seq<Item>)
    ensures var turn := TurnOf(h, clock, inPlay);
      && PartWhere(inPlay, turn.drained, ById(inPlay, h.finish(clock)))
      && PartWhere(inPlay, turn.left, NotById(inPlay, h.finish(clock)))
      && turn.verdict == h.reprompt(clock + 1 + |turn.drained|, turn.left)
      && PartWhere(turn.left, turn.inPlay, NotById(turn.left, set x | x in turn.verdict.accepted :: x.id))
  {
    SidesOfIds(inPlay, h.finish(clock));
    var turn := TurnOf(h, clock, inPlay);
    SidesOfIds(turn.left, Ids(turn.verdict.accepted));
    assert Ids(turn.verdict.accepted) == set x | x in turn.verdict.accepted :: x.id;
  }

  /** Some turn declared the item finished, or accepted it. */
  ghost predicate HasReason(h: Hooks, x: Item) {
    || (exists t :: x.id in h.finish(t))
    || (exists t, inPlay :: x in h.reprompt(t, inPlay).accepted)
  }

  ghost predicate AllHaveReasons(h: Hooks, items: seq<Item>) {
    forall x :: x in items ==> HasReason(h, x)
  }

  lemma FinishedHaveReasons(h: Hooks, t: nat, items: seq<Item>)
    ensures AllHaveReasons(h, Only(items, h.finish(t)))
  {
    SidesOfIds(items, h.finish(t));
    var drained := Only(items, h.finish(t));
    var at: seq<nat> :| PartAt(items, drained, ById(items, h.finish(t)), at);
    forall x | x in drained
      ensures x.id in h.finish(t)
    {
      var k :| 0 <= k < |drained| && drained[k] == x;
      assert at[k] in at && x == items[at[k]];
    }
  }

  /** A loop accepts nothing without a reason. */
  lemma {:induction false} LoopAcceptsForAReason(h: Hooks, clock: nat, turns: nat, cap: int, accepted: seq<Item>,
                                                 inPlay: seq<Item>)
    requires turns < TurnCap(cap) && AllHaveReasons(h, accepted)
    ensures var end := LoopFrom(h, clock, turns, cap, accepted, inPlay); end.Ended? ==> AllHaveReasons(h, end.accepted)
    decreases TurnCap(cap) - turns
  {
    if inPlay != [] {
      var turn := TurnOf(h, clock, inPlay);
      var all := accepted + turn.drained + turn.verdict.accepted;
      FinishedHaveReasons(h, clock, inPlay);
      assert forall x :: x in turn.verdict.accepted ==>
        x in h.reprompt(clock + 1 + |turn.drained|, turn.left).accepted;
      assert AllHaveReasons(h, all);
      FinishedHaveReasons(h, turn.clock, turn.inPlay);
      if turn.inPlay != [] && !turn.verdict.final && turns + 1 < cap {
        LoopAcceptsForAReason(h, turn.clock, turns + 1, cap, all, turn.inPlay);
      }
    }
  }

  /** Nothing throws, nothing is declared finished, and no verdict accepts anything or is final. */
  ghost predicate Stubborn(h: Hooks) {
    && (forall t :: !h.throws(t) && h.finish(t) == {})
    && (forall t, inPlay :: h.reprompt(t, inPlay).accepted == [] && !h.reprompt(t, inPlay).final)
  }

  lemma {:induction false} NobodyById(items: seq<Item>)
    ensures Only(items, {}) == [] && Without(items, {}) == items
    decreases |items|
  {
    if items != [] {
      NobodyById(items[1..]);
    }
  }

  lemma {:induction false} StubbornLoop(h: Hooks, clock: nat, turns: nat, cap: int, items: seq<Item>)
    requires Stubborn(h) && items != [] && turns < TurnCap(cap)
    ensures LoopFrom(h, clock, turns, cap, [], items)
         == Ended([], items, clock + 2 * (TurnCap(cap) - turns), TurnCap(cap), false)
    decreases TurnCap(cap) - turns
  {
    var turn := TurnOf(h, clock, items);
    NobodyById(items);
    assert Ids([]) == {};
    assert turn == TurnEnd([], items, turn.verdict, items, clock + 2);
    assert [] + turn.drained + turn.verdict.accepted == [];
    if turns + 1 < cap {
      StubbornLoop(h, clock + 2, turns + 1, cap, items);
    }
  }

  /** The cap of a loop is the override of its scope, else the step's own, else 1, and at least 1: a loop in
      which nothing happens prompts exactly as often. */
  lemma CapDecides(w: World, own: Option<int>, override: Option<int>, items: seq<Item>, down: set<string>, m: Memory)
    requires Stubborn(w.hooks) && items != []
    ensures var cap := if override.Some? then override.value else if own.Some? then own.value else 1;
      StepRun(w, AgentLoop(own), items, override, down, m)
      == Ran(Done([], items, [], false), m.(clock := m.clock + 1 + 2 * Max(1, cap)))
  {
    StubbornRun(w, AgentLoop(own), items, override, m);
  }

  lemma StubbornRun(w: World, step: Step, items: seq<Item>, retries: Option<int>, m: Memory)
    requires step.AgentLoop? && Stubborn(w.hooks) && items != []
    ensures LoopRun(w, step, items, retries, m)
         == Ran(Done([], items, [], false), m.(clock := m.clock + 1 + 2 * TurnCap(LoopCap(step, retries))))
  {
    StubbornLoop(w.hooks, m.clock + 1, 0, LoopCap(step, retries), items);
    assert m.finalized + [] == m.finalized;
  }

  /** A final verdict ends the loop at once; its feedback, if any, is one more prompt, after which only the
      items declared finished are accepted. */
  lemma FinalDecides(h: Hooks, clock: nat, cap: int, items: seq<Item>)
    requires items != [] && (forall t :: !h.throws(t))
    requires var turn := TurnOf(h, clock, items); turn.verdict.final && turn.inPlay != []
    ensures var turn := TurnOf(h, clock, items);
      var all, last := turn.drained + turn.verdict.accepted, Only(turn.inPlay, h.finish(turn.clock));
      LoopFrom(h, clock, 0, cap, [], items)
      == if turn.verdict.feedback == "" then Ended(all, turn.inPlay, turn.clock, 1, false)
         else Ended(all + last, Without(turn.inPlay, h.finish(turn.clock)), turn.clock + 1 + |last|, 1, true)
  {
    var turn := TurnOf(h, clock, items);
    assert [] + turn.drained + turn.verdict.accepted == turn.drained + turn.verdict.accepted;
  }

  /** A turn after which nothing is in play ends the loop, whatever its verdict says. */
  lemma EmptyTurnEnds(h: Hooks, clock: nat, turns: nat, cap: int, items: seq<Item>)
    requires items != [] && turns < TurnCap(cap) && (forall t :: !h.throws(t)) && TurnOf(h, clock, items).inPlay == []
    ensures var turn := TurnOf(h, clock, items);
      LoopFrom(h, clock, turns, cap, [], items)
      == Ended(turn.drained + turn.verdict.accepted, [], turn.clock, turns + 1, false)
  {
    var turn := TurnOf(h, clock, items);
    assert [] + turn.drained + turn.verdict.accepted == turn.drained + turn.verdict.accepted;
  }

  /** A loop breaks off only if a hook throws, and none of the hook calls of one that ends has thrown. */
  lemma {:induction false} LoopBreaksForAReason(h: Hooks, clock: nat, turns: nat, cap: int, accepted: seq<Item>,
                                                inPlay: seq<Item>)
    requires turns < TurnCap(cap)
    ensures var end := LoopFrom(h, clock, turns, cap, accepted, inPlay);
      if end.Broken? then exists t :: t >= clock && h.throws(t)
      else clock <= end.clock && Quiet(h, clock, end.clock)
    decreases TurnCap(cap) - turns
  {
    if inPlay != [] {
      var turn := TurnOf(h, clock, inPlay);
      var all := accepted + turn.drained + turn.verdict.accepted;
      if Quiet(h, clock, turn.clock) && turn.inPlay != [] && !turn.verdict.final && turns + 1 < cap {
        LoopBreaksForAReason(h, turn.clock, turns + 1, cap, all, turn.inPlay);
      }
    }
  }

  /** The same for every step that runs no fragment: it fails because of a hook call, or because its verifier
      is unknown, and a step that does not fail has made only calls that did not throw. */
  lemma StepFailsForAReason(w: World, step: Step, items: seq<Item>, retries: Option<int>, down: set<string>, m: Memory)
    requires !step.Foreach?
    ensures var r := StepRun(w, step, items, retries, down, m);
      if r.exec.Done? then m.clock <= r.mem.clock && Quiet(w.hooks, m.clock, r.mem.clock)
      else
        || (r.exec == Threw(UnknownVerifier) && step.Verify? && step.verifier !in w.verifiers)
        || (r.exec == Threw(HookThrew) && exists t :: t >= m.clock && w.hooks.throws(t))
  {
    if step.AgentLoop? {
      LoopBreaksForAReason(w.hooks, m.clock + 1, 0, LoopCap(step, retries), [], items);
    }
  }

  // ----- Routing -----

  /** The items that wait for one fragment. */
  function ItemsFor(routed: seq<Bucket>, to: string): seq<Item> {
    if routed == [] then [] else if routed[0].to == to then routed[0].items else ItemsFor(routed[1..], to)
  }

  lemma {:induction false} AddToItems(routed: seq<Bucket>, to: string, item: Item, target: string)
    ensures ItemsFor(AddTo(routed, to, item), target) == ItemsFor(routed, target) + if target == to then [item] else []
    decreases |routed|
  {
    if routed != [] && routed[0].to != to {
      AddToItems(routed[1..], to, item, target);
      assert AddTo(routed, to, item)[1..] == AddTo(routed[1..], to, item);
    } else if routed != [] {
      assert AddTo(routed, to, item)[1..] == routed[1..];
    }
  }

  /** An item that matches no route stays rejected. */
  lemma UnmatchedStays(routes: seq<Route>, item: Item, r: Routing)
    requires forall k :: 0 <= k < |routes| ==> !RouteMatches(routes[k].when, item)
    ensures RouteItem(routes, item, r) == r.(tally := r.tally.(rejected := r.tally.rejected + [item]))
  {
  }

  /** An item goes to the fragment of the first route that matches it, and to no other, and is counted there;
      with its attempts on that route used up it stays rejected. */
  lemma RouteDecides(routes: seq<Route>, item: Item, r: Routing, j: nat)
    requires j < |routes| && RouteMatches(routes[j].when, item)
    requires forall k :: 0 <= k < j ==> !RouteMatches(routes[k].when, item)
    ensures var after, to, count := RouteItem(routes, item, r), routes[j].to,
                                    AttemptsOf(r.attempts, (j, routes[j].to), item.id);
      if routes[j].maxAttempts.Some? && count >= routes[j].maxAttempts.value then
        after == r.(tally := r.tally.(rejected := r.tally.rejected + [item]))
      else
        && after.tally.rejected == r.tally.rejected
        && (forall key, id :: AttemptsOf(after.attempts, key, id)
                           == AttemptsOf(r.attempts, key, id) + if key == (j, to) && id == item.id then 1 else 0)
        && forall target :: ItemsFor(after.tally.routed, target)
                         == ItemsFor(r.tally.routed, target) + if target == to then [item] else []
  {
    assert FirstMatch(routes, item) == Some(j);
    forall target
      ensures ItemsFor(AddTo(r.tally.routed, routes[j].to, item), target)
           == ItemsFor(r.tally.routed, target) + if target == routes[j].to then [item] else []
    {
      AddToItems(r.tally.routed, routes[j].to, item, target);
    }
  }

  /** A route without conditions takes every item; with several, an item must meet each: be smaller than
      `sizeBelow`, have one of the statuses, and have been attempted neither less nor more often than said. */
  lemma WhenDecides(item: Item, size: int, status: seq<string>, min: int, max: int)
    ensures RouteMatches(None, item) && RouteMatches(Some(When(None, None, None, None)), item)
    ensures RouteMatches(Some(When(Some(size), Some(status), Some(min), Some(max))), item) <==>
      && RouteMatches(Some(When(Some(size), None, None, None)), item)
      && RouteMatches(Some(When(None, Some(status), None, None)), item)
      && RouteMatches(Some(When(None, None, Some(min), None)), item)
      && RouteMatches(Some(When(None, None, None, Some(max))), item)
    ensures item.size == Some(size) ==> !RouteMatches(Some(When(Some(size), None, None, None)), item)
    ensures item.size == Some(size - 1) ==> RouteMatches(Some(When(Some(size), None, None, None)), item)
    ensures item.size == None ==> !RouteMatches(Some(When(Some(size), None, None, None)), item)
    ensures RouteMatches(Some(When(None, Some(status), None, None)), item) <==> item.status in status
    ensures item.attempts == min ==> RouteMatches(Some(When(None, None, Some(min), None)), item)
    ensures item.attempts == min - 1 ==> !RouteMatches(Some(When(None, None, Some(min), None)), item)
    ensures item.attempts == max ==> RouteMatches(Some(When(None, None, None, Some(max))), item)
    ensures item.attempts == max + 1 ==> !RouteMatches(Some(When(None, None, None, Some(max))), item)
  {
  }

  // ----- Windows -----

  /** The setup hook keeps as many items of a batch as it says, at most all of them, and its cap beats that of
      the scope; a size below 1 fails the step. */
  lemma SetupDecides(h: Hooks, step: Step, batch: seq<Item>, rest: seq<seq<Item>>, retries: Option<int>, clock: nat)
    requires step.Foreach? && step.hasSetup && !h.throws(clock)
    ensures var d, cfg := Draw(h, step, batch, rest, retries, clock), h.setup(clock, batch);
      if cfg.batchSize.Some? && cfg.batchSize.value < 1 then d == Refused(InvalidBatchSize)
      else
        && d.Drawn? && d.window <= batch && d.clock == clock + 1
        && |d.window| == (if cfg.batchSize.Some? then Min(cfg.batchSize.value, |batch|) else |batch|)
        && d.retries == (if cfg.rejectionRetries.Some? then cfg.rejectionRetries else retries)
        && d.queue == if |d.window| < |batch| then [batch[|d.window|..]] + rest else rest
  {
  }

  /** Without a setup hook the batch is the window. */
  lemma NoSetup(h: Hooks, step: Step, batch: seq<Item>, rest: seq<seq<Item>>, retries: Option<int>, clock: nat)
    requires step.Foreach? && !step.hasSetup
    ensures Draw(h, step, batch, rest, retries, clock) == Drawn(batch, rest, retries, clock)
  {
  }

  // ----- Fragments -----

  /** The items routed to a known fragment run through its steps, without an override of the re-prompt cap, and
      what they come to is added to the tally; an unknown target fails the step. */
  lemma FragmentDecides(w: World, step: Step, tally: Tally, bucket: Bucket, down: set<string>, m: Memory)
    requires step.Foreach? && tally.routed == [bucket]
    requires RoutesWithin(w, TargetsOf(step.onReject), down) && BucketsWithin(tally.routed, TargetsOf(step.onReject))
    ensures var r := BucketsRun(w, step, tally, down, m);
      if bucket.to !in w.fragments then r.exec == Threw(UnknownFragment)
      else
        && RoutesWithin(w, RouteTargets(w.fragments[bucket.to]), Below(w, bucket.to))
        && var run := ScopeRun(w, w.fragments[bucket.to], bucket.items, None, Below(w, bucket.to), m);
           if run.exec.Threw? then r == run
           else
             && r.mem == run.mem
             && r.exec == Done(tally.accepted + run.exec.accepted, tally.rejected + run.exec.rejected,
                               tally.skipped + run.exec.skipped, false)
  {
    var none: seq<Bucket> := [];
    assert tally.routed[1..] == none && tally.routed[0] == bucket;
    assert bucket.to in TargetsOf(step.onReject);
    if bucket.to in w.fragments {
      FragmentRoutes(w, bucket.to, down);
      var run := ScopeRun(w, w.fragments[bucket.to], bucket.items, None, Below(w, bucket.to), m);
      if run.exec.Done? {
        var last := AfterBucket(tally, run.exec);
        assert BucketsRun(w, step, last, down, run.mem)
            == Ran(Done(last.accepted, last.rejected, last.skipped, false), run.mem);
      }
    }
  }

  /** A batch size below 1 fails the step; without items it does nothing. */
  lemma ForeachOfNothing(w: World, step: Step, retries: Option<int>, down: set<string>, m: Memory)
    requires step.Foreach?
    requires RoutesWithin(w, TargetsOf(step.onReject), down) && RoutesWithin(w, RouteTargets(step.steps), down)
    ensures StepRun(w, step, [], retries, down, m)
         == if step.batch < 1 then Ran(Threw(InvalidBatch), m) else Ran(Done([], [], [], false), m)
  {
    if step.batch >= 1 {
      var none: seq<seq<Item>> := [];
      assert Batches([], step.batch, step.key) == none;
      assert BatchesRun(w, step, none, EmptyTally(), retries, down, m) == Batched(EmptyTally(), [], m);
      assert BucketsRun(w, step, EmptyTally(), down, m) == Ran(Done([], [], [], false), m);
      assert ForeachRun(w, step, [], retries, down, m) == Ran(Done([], [], [], false), m);
    }
  }

  // ----- Batches -----

  lemma {:induction false} GroupHasOneKey(items: seq<Item>, key: string, k: string)
    ensures forall x :: x in Group(items, key, k) ==> GroupKey(x, key) == k
    decreases |items|
  {
    if items != [] {
      GroupHasOneKey(items[..|items| - 1], key, k);
    }
  }

  lemma {:induction false} ChunksAreParts(items: seq<Item>, start: nat, size: nat)
    requires size > 0
    ensures forall b, x :: b in ChunksFrom(items, start, size) && x in b ==> x in items
    decreases |items| - start
  {
    if start < |items| {
      ChunksAreParts(items, start + size, size);
    }
  }

  lemma {:induction false} ChunkedGroupsHaveOneKey(items: seq<Item>, key: string, keys: seq<string>, batch: nat,
                                                   b: seq<Item>)
    requires batch > 0 && b in ChunkedGroups(items, key, keys, batch)
    ensures forall x, y :: x in b && y in b ==> GroupKey(x, key) == GroupKey(y, key)
    decreases |keys|
  {
    if b in ChunksFrom(Group(items, key, keys[0]), 0, batch) {
      ChunksAreParts(Group(items, key, keys[0]), 0, batch);
      GroupHasOneKey(items, key, keys[0]);
    } else {
      ChunkedGroupsHaveOneKey(items, key, keys[1..], batch, b);
    }
  }

  /** A batch never mixes items of two groups: of two units when the key is `unit`, and else of two values of
      the field with that name. */
  lemma BatchesDoNotMix(items: seq<Item>, key: string, batch: nat, b: seq<Item>, x: Item, y: Item)
    requires batch > 0 && b in Batches(items, batch, Some(key)) && x in b && y in b
    ensures key == "unit" && x.unitId.Some? && y.unitId.Some? ==> x.unitId == y.unitId
    ensures key != "unit" && key in x.fields && key in y.fields ==> x.fields[key] == y.fields[key]
  {
    ChunkedGroupsHaveOneKey(items, key, GroupKeys(items, key), batch, b);
  }

  // ----- What is finalized -----

  /** An agent loop finalizes what it accepts, in that order; the other steps that run no fragment finalize
      nothing. */
  lemma FinalizeDecides(w: World, step: Step, items: seq<Item>, retries: Option<int>, down: set<string>, m: Memory)
    requires !step.Foreach?
    ensures var r := StepRun(w, step, items, retries, down, m);
      r.exec.Done? ==>
        && r.mem.attempts == m.attempts
        && r.mem.finalized == m.finalized + if step.AgentLoop? then r.exec.accepted else []
  {
  }
}
