/** What a pipeline run means, as functions. Hooks are oracles: their answers are arbitrary functions
    of the number of hook calls made so far (so of the whole history of the run) and of the items
    they are given, and any call may throw. */
module EngineMeaning {
  import opened Prelude
  import opened Pipeline
  import opened RouteGraph

  /** What a foreach's setup hook returns. */
  datatype Config = Config(batchSize: Option<int>, rejectionRetries: Option<int>)

  /** What an agent loop's reprompt hook returns; an empty feedback stands for none. */
  datatype Verdict = Verdict(accepted: seq<Item>, final: bool, feedback: string)

  datatype Hooks = Hooks(
    throws: nat -> bool,
    verify: (nat, Item) -> bool,
    gate: (nat, seq<Item>) -> bool,
    setup: (nat, seq<Item>) -> Config,
    reprompt: (nat, seq<Item>) -> Verdict,
    finish: nat -> set<string>)

  datatype Error = HookThrew | UnknownVerifier | InvalidBatch | InvalidBatchSize | UnknownFragment

  /** The outcome of a step or of a scope: what left play, what stays in play, what a gate skipped. */
  datatype Exec =
    | Done(accepted: seq<Item>, rejected: seq<Item>, skipped: seq<Item>, aborted: bool)
    | Threw(error: Error)

  /** Items waiting for one fragment, in routing order. */
  datatype Bucket = Bucket(to: string, items: seq<Item>)

  ghost function Everything(r: Exec): multiset<Item>
    requires r.Done?
  {
    multiset(r.accepted) + multiset(r.rejected) + multiset(r.skipped)
  }

  function FlatBuckets(routed: seq<Bucket>): seq<Item> {
    if routed == [] then [] else routed[0].items + FlatBuckets(routed[1..])
  }

  /** The buckets with one more item, in a new bucket at the end for a target seen first now. */
  function AddTo(routed: seq<Bucket>, to: string, item: Item): seq<Bucket> {
    if routed == [] then [Bucket(to, [item])]
    else if routed[0].to == to then [Bucket(to, routed[0].items + [item])] + routed[1..]
    else [routed[0]] + AddTo(routed[1..], to, item)
  }

  ghost predicate BucketsWithin(routed: seq<Bucket>, targets: seq<string>) {
    forall i :: 0 <= i < |routed| ==> routed[i].to in targets
  }

  lemma {:induction false} AddToKeeps(routed: seq<Bucket>, to: string, item: Item, targets: seq<string>)
    requires BucketsWithin(routed, targets) && to in targets
    ensures BucketsWithin(AddTo(routed, to, item), targets)
    ensures multiset(FlatBuckets(AddTo(routed, to, item))) == multiset(FlatBuckets(routed)) + multiset{item}
    decreases |routed|
  {
    if routed == [] {
    } else if routed[0].to == to {
      var more := [Bucket(to, routed[0].items + [item])] + routed[1..];
      assert more[1..] == routed[1..];
    } else {
      AddToKeeps(routed[1..], to, item, targets);
      var more := [routed[0]] + AddTo(routed[1..], to, item);
      assert more[1..] == AddTo(routed[1..], to, item);
    }
  }

  // ----- Agent loops, as a function of the hooks -----

  /** No hook call from number `from` up to `to` throws. */
  ghost predicate Quiet(h: Hooks, from: nat, to: nat) {
    forall t :: from <= t < to ==> !h.throws(t)
  }

  /** The evaluated prompts that an agent loop may make. */
  function TurnCap(retries: int): int {
    Max(1, retries)
  }

  /** The end of an agent loop: what it accepted and what is still in play, after how many hook
      calls and evaluated turns, and whether a write-only turn delivered the final feedback. */
  datatype LoopEnd =
    | Ended(accepted: seq<Item>, inPlay: seq<Item>, clock: nat, turns: nat, wrapUp: bool)
    | Broken

  /** What a turn does with the items in play: first the ids declared finished leave, then the
      items that the verdict accepts. */
  datatype TurnEnd = TurnEnd(drained: seq<Item>, left: seq<Item>, verdict: Verdict, inPlay: seq<Item>, clock: nat)

  ghost function TurnOf(h: Hooks, clock: nat, inPlay: seq<Item>): TurnEnd {
    var drained, left := Only(inPlay, h.finish(clock)), Without(inPlay, h.finish(clock));
    var verdict := h.reprompt(clock + 1 + |drained|, left);
    TurnEnd(drained, left, verdict, Without(left, Ids(verdict.accepted)), clock + 2 + |drained| + |verdict.accepted|)
  }

  /** A final verdict ends the loop, after a write-only turn when it carries feedback. */
  ghost function WrapUp(h: Hooks, clock: nat, turns: nat, feedback: string, all: seq<Item>, inPlay: seq<Item>): LoopEnd
  {
    var drained := Only(inPlay, h.finish(clock));
    if feedback == "" then Ended(all, inPlay, clock, turns, false)
    else if !Quiet(h, clock, clock + 1 + |drained|) then Broken
    else Ended(all + drained, Without(inPlay, h.finish(clock)), clock + 1 + |drained|, turns, true)
  }

  ghost function LoopFrom(h: Hooks, clock: nat, turns: nat, cap: int, accepted: seq<Item>, inPlay: seq<Item>): LoopEnd
    requires turns < TurnCap(cap)
    decreases TurnCap(cap) - turns
  {
    if inPlay == [] then Ended(accepted, inPlay, clock, turns, false)
    else
      var turn := TurnOf(h, clock, inPlay);
      var all := accepted + turn.drained + turn.verdict.accepted;
      if !Quiet(h, clock, turn.clock) then Broken
      else if turn.inPlay == [] then Ended(all, [], turn.clock, turns + 1, false)
      else if turn.verdict.final then WrapUp(h, turn.clock, turns + 1, turn.verdict.feedback, all, turn.inPlay)
      else if turns + 1 >= cap then Ended(all, turn.inPlay, turn.clock, turns + 1, false)
      else LoopFrom(h, turn.clock, turns + 1, cap, all, turn.inPlay)
  }

  // ----- Verify steps -----

  /** The items that pass, the i-th hook call deciding the i-th item. */
  function Passing(h: Hooks, clock: nat, items: seq<Item>): seq<Item>
    decreases |items|
  {
    if items == [] then []
    else (if h.verify(clock, items[0]) then [items[0]] else []) + Passing(h, clock + 1, items[1..])
  }

  function Failing(h: Hooks, clock: nat, items: seq<Item>): seq<Item>
    decreases |items|
  {
    if items == [] then []
    else (if h.verify(clock, items[0]) then [] else [items[0]]) + Failing(h, clock + 1, items[1..])
  }

  lemma VerifyStep(h: Hooks, clock: nat, items: seq<Item>, i: nat, accepted: seq<Item>, rejected: seq<Item>)
    requires i < |items|
    ensures h.verify(clock, items[i]) ==>
      && (accepted + [items[i]]) + Passing(h, clock + 1, items[i + 1..]) == accepted + Passing(h, clock, items[i..])
      && rejected + Failing(h, clock + 1, items[i + 1..]) == rejected + Failing(h, clock, items[i..])
    ensures !h.verify(clock, items[i]) ==>
      && accepted + Passing(h, clock + 1, items[i + 1..]) == accepted + Passing(h, clock, items[i..])
      && (rejected + [items[i]]) + Failing(h, clock + 1, items[i + 1..]) == rejected + Failing(h, clock, items[i..])
  {
    assert items[i..][1..] == items[i + 1..];
  }

  // ----- Foreach bookkeeping -----

  /** What a foreach has collected so far. */
  datatype Tally = Tally(accepted: seq<Item>, rejected: seq<Item>, skipped: seq<Item>, routed: seq<Bucket>)

  function EmptyTally(): Tally {
    Tally([], [], [], [])
  }

  ghost function Total(t: Tally): multiset<Item> {
    multiset(t.accepted) + multiset(t.rejected) + multiset(t.skipped) + multiset(FlatBuckets(t.routed))
  }

  /** Routing counts per (position of the route, target), per item. */
  type Attempts = map<(nat, string), map<string, nat>>

  function AttemptsOf(attempts: Attempts, key: (nat, string), id: string): nat {
    if key in attempts && id in attempts[key] then attempts[key][id] else 0
  }

  // ----- Routing -----

  function Bumped(attempts: Attempts, budget: (nat, string), id: string): Attempts {
    var counts := if budget in attempts then attempts[budget] else map[];
    attempts[budget := counts[id := AttemptsOf(attempts, budget, id) + 1]]
  }

  datatype Routing = Routing(tally: Tally, attempts: Attempts)

  /** A rejected item goes to the fragment of the first route that matches it, unless that route's
      budget for the item is used up; otherwise it stays rejected. */
  function RouteItem(routes: seq<Route>, item: Item, r: Routing): Routing {
    var index := FirstMatch(routes, item);
    if index.None? then Routing(r.tally.(rejected := r.tally.rejected + [item]), r.attempts)
    else
      var route, budget := routes[index.value], (index.value, routes[index.value].to);
      if route.maxAttempts.Some? && AttemptsOf(r.attempts, budget, item.id) >= route.maxAttempts.value then
        Routing(r.tally.(rejected := r.tally.rejected + [item]), r.attempts)
      else
        Routing(r.tally.(routed := AddTo(r.tally.routed, route.to, item)), Bumped(r.attempts, budget, item.id))
  }

  function RouteItems(routes: seq<Route>, items: seq<Item>, r: Routing): Routing {
    if items == [] then r
    else RouteItem(routes, items[|items| - 1], RouteItems(routes, items[..|items| - 1], r))
  }

  lemma RouteItemKeeps(routes: seq<Route>, item: Item, r: Routing)
    requires BucketsWithin(r.tally.routed, TargetsOf(routes))
    ensures var after := RouteItem(routes, item, r).tally;
      && BucketsWithin(after.routed, TargetsOf(routes)) && after.accepted == r.tally.accepted
      && Total(after) == Total(r.tally) + multiset{item}
  {
    var index := FirstMatch(routes, item);
    if index.Some? {
      TargetsOfRoute(routes, index.value);
      AddToKeeps(r.tally.routed, routes[index.value].to, item, TargetsOf(routes));
    }
  }

  /** The route that an item takes, and what it counts on. */
  function BudgetOf(routes: seq<Route>, item: Item): (nat, string)
    requires FirstMatch(routes, item).Some?
  {
    var index := FirstMatch(routes, item).value; (index, routes[index].to)
  }

  predicate UsedUp(routes: seq<Route>, item: Item, attempts: Attempts)
    requires FirstMatch(routes, item).Some?
  {
    var limit := routes[FirstMatch(routes, item).value].maxAttempts;
    limit.Some? && AttemptsOf(attempts, BudgetOf(routes, item), item.id) >= limit.value
  }

  /** Attempts are counted by position and target, not by the foreach that has the route. When an item
      has one attempt left on a route, its routing by another foreach takes that one away exactly if its
      route there has the same position and the same target. */
  lemma BudgetsAreSharedIff(a: seq<Route>, b: seq<Route>, item: Item, r: Routing)
    requires FirstMatch(a, item).Some? && FirstMatch(b, item).Some? && !UsedUp(a, item, r.attempts)
    requires b[FirstMatch(b, item).value].maxAttempts == Some(AttemptsOf(r.attempts, BudgetOf(b, item), item.id) + 1)
    ensures var after := RouteItem(a, item, r);
      RouteItem(b, item, after).tally.rejected == after.tally.rejected + [item]
      <==> BudgetOf(a, item) == BudgetOf(b, item)
  {
    var after := RouteItem(a, item, r);
    assert AttemptsOf(after.attempts, BudgetOf(b, item), item.id)
        == AttemptsOf(r.attempts, BudgetOf(b, item), item.id)
           + if BudgetOf(a, item) == BudgetOf(b, item) then 1 else 0;
  }

  lemma OneItemMore(total: multiset<Item>, init: seq<Item>, last: Item)
    ensures total + multiset(init) + multiset{last} == total + multiset(init + [last])
  {
  }

  /** Routing accounts for every item, and only to targets of the routes. */
  lemma {:induction false} RouteItemsKeep(routes: seq<Route>, items: seq<Item>, r: Routing)
    requires BucketsWithin(r.tally.routed, TargetsOf(routes))
    ensures var after := RouteItems(routes, items, r).tally;
      && BucketsWithin(after.routed, TargetsOf(routes)) && after.accepted == r.tally.accepted
      && Total(after) == Total(r.tally) + multiset(items)
    decreases |items|
  {
    if items != [] {
      var init, last := items[..|items| - 1], items[|items| - 1];
      RouteItemsKeep(routes, init, r);
      RouteItemKeeps(routes, last, RouteItems(routes, init, r));
      OneItemMore(Total(r.tally), init, last);
      assert items == init + [last];
    }
  }

  // ----- Drawing a window -----

  /** A window drawn from the queue, what stays queued, and the re-prompt cap for it. */
  datatype Drawn =
    | Drawn(window: seq<Item>, queue: seq<seq<Item>>, retries: Option<int>, clock: nat)
    | Refused(error: Error)

  /** The setup hook of a drawn batch may keep a shorter window, whose excess returns to the front of
      the queue, and may override the re-prompt cap. */
  function Draw(h: Hooks, step: Step, batch: seq<Item>, rest: seq<seq<Item>>, retries: Option<int>, clock: nat): Drawn
    requires step.Foreach?
  {
    if !step.hasSetup then Drawn(batch, rest, retries, clock)
    else if h.throws(clock) then Refused(HookThrew)
    else
      var cfg := h.setup(clock, batch);
      if cfg.batchSize.Some? && cfg.batchSize.value < 1 then Refused(InvalidBatchSize)
      else
        var kept := if cfg.batchSize.Some? && cfg.batchSize.value < |batch| then cfg.batchSize.value else |batch|;
        Drawn(batch[..kept], if kept < |batch| then [batch[kept..]] + rest else rest,
              if cfg.rejectionRetries.Some? then cfg.rejectionRetries else retries, clock + 1)
  }

  /** Drawing keeps the order of the items and the sizes, and shortens the queue. */
  lemma DrawKeepsOrder(h: Hooks, step: Step, batch: seq<Item>, rest: seq<seq<Item>>, retries: Option<int>, clock: nat,
                       size: int)
    requires step.Foreach? && WithinSize([batch] + rest, size)
    ensures var d := Draw(h, step, batch, rest, retries, clock);
      d.Drawn? ==>
        && d.window != [] && d.window <= batch && Flat([d.window] + d.queue) == Flat([batch] + rest)
        && WithinSize([d.window] + d.queue, size) && WithinSize(d.queue, size)
        && |Flat(d.queue)| < |Flat([batch] + rest)|
  {
    var d := Draw(h, step, batch, rest, retries, clock);
    assert ([batch] + rest)[0] == batch;
    FlatFront(batch, rest);
    if d.Drawn? {
      var kept := |d.window|;
      assert d.window == batch[..kept];
      assert batch == batch[..kept] + batch[kept..];
      FlatFront(d.window, d.queue);
      FlatFront(batch[kept..], rest);
      SizesKept(batch, kept, rest, size);
    }
  }

  lemma FlatFront(first: seq<Item>, rest: seq<seq<Item>>)
    ensures Flat([first] + rest) == first + Flat(rest)
  {
    assert ([first] + rest)[1..] == rest;
  }

  lemma SizesKept(batch: seq<Item>, kept: nat, rest: seq<seq<Item>>, size: int)
    requires WithinSize([batch] + rest, size) && 1 <= kept <= |batch|
    ensures WithinSize(rest, size) && WithinSize([batch[..kept]] + rest, size)
    ensures kept < |batch| ==>
      WithinSize([batch[kept..]] + rest, size) && WithinSize([batch[..kept]] + ([batch[kept..]] + rest), size)
  {
    assert ([batch] + rest)[0] == batch;
    forall i | 0 <= i < |rest|
      ensures 1 <= |rest[i]| <= size
    {
      assert ([batch] + rest)[i + 1] == rest[i];
    }
  }

  // ----- Runs -----

  /** What a run works with. */
  datatype World = World(fragments: map<string, seq<Step>>, verifiers: set<string>, hooks: Hooks)

  /** Where the fragments route to. */
  function FragmentGraph(fragments: map<string, seq<Step>>): Graph {
    map f | f in fragments :: RouteTargets(fragments[f])
  }

  /** What a run has done so far: hook calls, routing counts, and finalized items, in order. */
  datatype Memory = Memory(clock: nat, attempts: Attempts, finalized: seq<Item>)

  /** An outcome and the memory after it; when something threw, the memory means nothing. */
  datatype Ran = Ran(exec: Exec, mem: Memory)

  /** Every fragment that the targets lead to, directly or through other fragments, is in `down`, and
      none of them can route back to itself. */
  ghost predicate RoutesWithin(w: World, targets: seq<string>, down: set<string>) {
    forall t :: t in targets && t in w.fragments ==>
      Descendants(FragmentGraph(w.fragments), t) <= down && !ReachesCycle(FragmentGraph(w.fragments), t)
  }

  /** The fragments below one. */
  ghost function Below(w: World, to: string): set<string> {
    Descendants(FragmentGraph(w.fragments), to) - {to}
  }

  /** The measure of routing: a fragment routes only to proper descendants of itself. */
  lemma FragmentRoutes(w: World, to: string, down: set<string>)
    requires to in w.fragments && RoutesWithin(w, [to], down)
    ensures to in down && Below(w, to) <= down - {to}
    ensures RoutesWithin(w, RouteTargets(w.fragments[to]), Below(w, to))
  {
    var g := FragmentGraph(w.fragments);
    assert to in [to];
    ReachesSelf(g, to);
    forall t | t in RouteTargets(w.fragments[to])
      ensures Descendants(g, t) <= Below(w, to) && !ReachesCycle(g, t)
    {
      DescendantsShrink(g, to, t);
    }
  }

  ghost function LoopRun(w: World, step: Step, items: seq<Item>, retries: Option<int>, m: Memory): Ran
    requires step.AgentLoop?
  {
    if items == [] then Ran(Done([], [], [], false), m)
    else if w.hooks.throws(m.clock) then Ran(Threw(HookThrew), m)
    else
      var end := LoopFrom(w.hooks, m.clock + 1, 0, LoopCap(step, retries), [], items);
      if end.Broken? then Ran(Threw(HookThrew), m)
      else
        Ran(Done(end.accepted, end.inPlay, [], false), m.(clock := end.clock, finalized := m.finalized + end.accepted))
  }

  ghost function VerifyRun(w: World, step: Step, items: seq<Item>, m: Memory): Ran
    requires step.Verify?
  {
    if step.verifier !in w.verifiers then Ran(Threw(UnknownVerifier), m)
    else if !Quiet(w.hooks, m.clock, m.clock + |items|) then Ran(Threw(HookThrew), m)
    else
      Ran(Done(Passing(w.hooks, m.clock, items), Failing(w.hooks, m.clock, items), [], false),
          m.(clock := m.clock + |items|))
  }

  ghost function GateRun(w: World, items: seq<Item>, m: Memory): Ran {
    if w.hooks.throws(m.clock) then Ran(Threw(HookThrew), m)
    else
      Ran(if w.hooks.gate(m.clock, items) then Done([], items, [], false) else Done([], [], items, true),
          m.(clock := m.clock + 1))
  }

  /** Steps after which every item is still in play. An agent step on no items asks nothing. */
  ghost function PassThroughRun(w: World, step: Step, items: seq<Item>, m: Memory): Ran {
    if step.Agent? && items == [] then Ran(Done([], [], [], false), m)
    else if w.hooks.throws(m.clock) then Ran(Threw(HookThrew), m)
    else Ran(Done([], items, [], false), m.(clock := m.clock + 1))
  }

  ghost function StepRun(w: World, step: Step, items: seq<Item>, retries: Option<int>, down: set<string>,
                         m: Memory): Ran
    requires step.Foreach? ==>
      RoutesWithin(w, TargetsOf(step.onReject), down) && RoutesWithin(w, RouteTargets(step.steps), down)
    decreases down, step, 3
  {
    match step
    case AgentLoop(_) => LoopRun(w, step, items, retries, m)
    case Verify(_) => VerifyRun(w, step, items, m)
    case Gate => GateRun(w, items, m)
    case Foreach(_, _, _, _, _) => ForeachRun(w, step, items, retries, down, m)
    case _ => PassThroughRun(w, step, items, m)
  }

  /** Accepted and skipped items accumulate in front of what the rest of a scope gives. */
  function After(accepted: seq<Item>, skipped: seq<Item>, r: Ran): Ran {
    if r.exec.Threw? then r
    else Ran(r.exec.(accepted := accepted + r.exec.accepted, skipped := skipped + r.exec.skipped), r.mem)
  }

  lemma RoutesWithinScope(w: World, steps: seq<Step>, down: set<string>)
    requires RoutesWithin(w, RouteTargets(steps), down) && steps != []
    ensures RoutesWithin(w, RouteTargets(steps[1..]), down)
    ensures steps[0].Foreach? ==>
      RoutesWithin(w, TargetsOf(steps[0].onReject), down) && RoutesWithin(w, RouteTargets(steps[0].steps), down)
  {
    if steps[0].Foreach? {
      RouteTargetsOfStep(steps, 0);
    }
  }

  /** Each step continues with what the one before left in play; an aborting gate ends the scope. */
  ghost function ScopeRun(w: World, steps: seq<Step>, items: seq<Item>, retries: Option<int>, down: set<string>,
                          m: Memory): Ran
    requires RoutesWithin(w, RouteTargets(steps), down)
    decreases down, steps, 0
  {
    if steps == [] then Ran(Done([], items, [], false), m)
    else
      RoutesWithinScope(w, steps, down);
      var first := StepRun(w, steps[0], items, retries, down, m);
      if first.exec.Threw? then first
      else if first.exec.aborted then Ran(first.exec.(rejected := []), first.mem)
      else
        After(first.exec.accepted, first.exec.skipped,
              ScopeRun(w, steps[1..], first.exec.rejected, retries, down, first.mem))
  }

  /** What a foreach has after its batches: the tally, and the windows that it drew. */
  datatype Batched = Batched(tally: Tally, windows: seq<seq<Item>>, mem: Memory) | Broke(error: Error)

  function WithWindow(window: seq<Item>, b: Batched): Batched {
    if b.Broke? then b else b.(windows := [window] + b.windows)
  }

  function Collected(tally: Tally, exec: Exec): Tally
    requires exec.Done?
  {
    tally.(accepted := tally.accepted + exec.accepted, skipped := tally.skipped + exec.skipped)
  }

  /** What a body leaves: collected, and its rejects routed. */
  function Routed(step: Step, tally: Tally, body: Ran): Routing
    requires step.Foreach? && body.exec.Done?
  {
    RouteItems(step.onReject, body.exec.rejected, Routing(Collected(tally, body.exec), body.mem.attempts))
  }

  lemma RoutedKeeps(step: Step, tally: Tally, body: Ran)
    requires step.Foreach? && body.exec.Done? && BucketsWithin(tally.routed, TargetsOf(step.onReject))
    ensures var after := Routed(step, tally, body).tally;
      && BucketsWithin(after.routed, TargetsOf(step.onReject)) && after.accepted == tally.accepted + body.exec.accepted
      && Total(after) == Total(Collected(tally, body.exec)) + multiset(body.exec.rejected)
  {
    RouteItemsKeep(step.onReject, body.exec.rejected, Routing(Collected(tally, body.exec), body.mem.attempts));
  }

  /** Draw a window, run the body over it, route what the body rejects; and so on until the queue is
      empty. */
  ghost function BatchesRun(w: World, step: Step, queue: seq<seq<Item>>, tally: Tally, retries: Option<int>,
                            down: set<string>, m: Memory): (b: Batched)
    requires step.Foreach? && RoutesWithin(w, RouteTargets(step.steps), down)
    requires WithinSize(queue, step.batch) && BucketsWithin(tally.routed, TargetsOf(step.onReject))
    ensures b.Batched? ==> BucketsWithin(b.tally.routed, TargetsOf(step.onReject))
    decreases down, step, 1, |Flat(queue)|
  {
    if queue == [] then Batched(tally, [], m)
    else
      var drawn := Draw(w.hooks, step, queue[0], queue[1..], retries, m.clock);
      assert queue == [queue[0]] + queue[1..];
      DrawKeepsOrder(w.hooks, step, queue[0], queue[1..], retries, m.clock, step.batch);
      if drawn.Refused? then Broke(drawn.error)
      else
        var body := ScopeRun(w, step.steps, drawn.window, drawn.retries, down, m.(clock := drawn.clock));
        if body.exec.Threw? then Broke(body.exec.error)
        else
          var routing := Routed(step, tally, body);
          RoutedKeeps(step, tally, body);
          WithWindow(drawn.window,
                     BatchesRun(w, step, drawn.queue, routing.tally, retries, down,
                                body.mem.(attempts := routing.attempts)))
  }

  function AfterBucket(t: Tally, exec: Exec): Tally
    requires t.routed != [] && exec.Done?
  {
    Tally(t.accepted + exec.accepted, t.rejected + exec.rejected, t.skipped + exec.skipped, t.routed[1..])
  }

  /** Each bucket runs through its fragment, in the order in which the targets were first routed to. A
      fragment starts without an override of the re-prompt cap. */
  ghost function BucketsRun(w: World, step: Step, tally: Tally, down: set<string>, m: Memory): Ran
    requires step.Foreach? && RoutesWithin(w, TargetsOf(step.onReject), down)
    requires BucketsWithin(tally.routed, TargetsOf(step.onReject))
    decreases down, step, 0, |tally.routed|
  {
    if tally.routed == [] then Ran(Done(tally.accepted, tally.rejected, tally.skipped, false), m)
    else
      var bucket := tally.routed[0];
      if bucket.to !in w.fragments then Ran(Threw(UnknownFragment), m)
      else
        FragmentRoutes(w, bucket.to, down);
        var res := ScopeRun(w, w.fragments[bucket.to], bucket.items, None, Below(w, bucket.to), m);
        if res.exec.Threw? then res
        else BucketsRun(w, step, AfterBucket(tally, res.exec), down, res.mem)
  }

  ghost function ForeachRun(w: World, step: Step, items: seq<Item>, retries: Option<int>, down: set<string>,
                            m: Memory): Ran
    requires step.Foreach?
    requires RoutesWithin(w, TargetsOf(step.onReject), down) && RoutesWithin(w, RouteTargets(step.steps), down)
    decreases down, step, 2
  {
    if step.batch < 1 then Ran(Threw(InvalidBatch), m)
    else
      BatchesRefineSource(items, step.batch, step.key);
      var b := BatchesRun(w, step, Batches(items, step.batch, step.key), EmptyTally(), retries, down, m);
      if b.Broke? then Ran(Threw(b.error), m) else BucketsRun(w, step, b.tally, down, b.mem)
  }

  // ----- One iteration of each loop -----

  lemma AfterTwice(accepted: seq<Item>, skipped: seq<Item>, first: Exec, r: Ran)
    requires first.Done?
    ensures After(accepted, skipped, After(first.accepted, first.skipped, r))
      == After(accepted + first.accepted, skipped + first.skipped, r)
  {
    if r.exec.Done? {
      assert accepted + (first.accepted + r.exec.accepted) == accepted + first.accepted + r.exec.accepted;
      assert skipped + (first.skipped + r.exec.skipped) == skipped + first.skipped + r.exec.skipped;
    }
  }

  lemma NothingAccumulated(r: Ran)
    ensures After([], [], r) == r
  {
    if r.exec.Done? {
      assert [] + r.exec.accepted == r.exec.accepted && [] + r.exec.skipped == r.exec.skipped;
    }
  }

  /** From the i-th step on, a scope runs that step and then the rest. */
  lemma ScopeSuffix(w: World, steps: seq<Step>, i: nat, items: seq<Item>, retries: Option<int>, down: set<string>,
                    m: Memory, accepted: seq<Item>, skipped: seq<Item>)
    requires i < |steps| && RoutesWithin(w, RouteTargets(steps[i..]), down)
    ensures RoutesWithin(w, RouteTargets(steps[i + 1..]), down)
    ensures steps[i].Foreach? ==>
      RoutesWithin(w, TargetsOf(steps[i].onReject), down) && RoutesWithin(w, RouteTargets(steps[i].steps), down)
    ensures var first := StepRun(w, steps[i], items, retries, down, m);
      After(accepted, skipped, ScopeRun(w, steps[i..], items, retries, down, m)) ==
        if first.exec.Threw? then first
        else if first.exec.aborted then
          Ran(Done(accepted + first.exec.accepted, [], skipped + first.exec.skipped, true), first.mem)
        else
          After(accepted + first.exec.accepted, skipped + first.exec.skipped,
                ScopeRun(w, steps[i + 1..], first.exec.rejected, retries, down, first.mem))
  {
    RoutesWithinScope(w, steps[i..], down);
    assert steps[i..][0] == steps[i] && steps[i..][1..] == steps[i + 1..];
    var first := StepRun(w, steps[i], items, retries, down, m);
    if first.exec.Done? && !first.exec.aborted {
      AfterTwice(accepted, skipped, first.exec,
                 ScopeRun(w, steps[i + 1..], first.exec.rejected, retries, down, first.mem));
    }
  }

  function WithWindows(windows: seq<seq<Item>>, b: Batched): Batched {
    if b.Broke? then b else b.(windows := windows + b.windows)
  }

  lemma WindowsTwice(windows: seq<seq<Item>>, window: seq<Item>, b: Batched)
    ensures WithWindows(windows, WithWindow(window, b)) == WithWindows(windows + [window], b)
  {
    if b.Batched? {
      assert windows + ([window] + b.windows) == windows + [window] + b.windows;
    }
  }

  function LoopCap(step: Step, retries: Option<int>): int
    requires step.AgentLoop?
  {
    if retries.Some? then retries.value
    else if step.rejectionRetries.Some? then step.rejectionRetries.value else 1
  }

  /** One item of the drain moves to one of the two sides. */
  lemma DrainStep(items: seq<Item>, i: nat, ids: set<string>, remaining: seq<Item>, drained: seq<Item>)
    requires i < |items|
    ensures items[i].id in ids ==>
      && remaining + Without(items[i + 1..], ids) == remaining + Without(items[i..], ids)
      && (drained + [items[i]]) + Only(items[i + 1..], ids) == drained + Only(items[i..], ids)
    ensures items[i].id !in ids ==>
      && (remaining + [items[i]]) + Without(items[i + 1..], ids) == remaining + Without(items[i..], ids)
      && drained + Only(items[i + 1..], ids) == drained + Only(items[i..], ids)
  {
    assert items[i..][1..] == items[i + 1..];
  }

  lemma {:induction false} NothingFinished(items: seq<Item>)
    ensures Without(items, {}) == items && Only(items, {}) == []
  {
    if items != [] {
      NothingFinished(items[1..]);
    }
  }
}
