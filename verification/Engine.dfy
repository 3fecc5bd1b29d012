/** The step executor of one pipeline run: loops that consume queues, push into accepted, rejected and
    skipped, and reassign what is in play. Each method does what the meaning of its step says. */
module Engine {
  import opened Prelude
  import opened Pipeline
  import opened RouteGraph
  import opened EngineMeaning

  /** What is finalized follows what is accepted. */
  lemma Extended(finalized: seq<Item>, before: seq<Item>, after: seq<Item>)
    requires before <= after
    ensures finalized + before + after[|before|..] == finalized + after
  {
    assert after == before + after[|before|..];
  }

  lemma ExtendedTwice(finalized: seq<Item>, before: seq<Item>, between: seq<Item>, after: seq<Item>)
    requires before <= between <= after
    ensures before <= after
    ensures finalized + between[|before|..] + after[|between|..] == finalized + after[|before|..]
  {
    assert after[|before|..] == between[|before|..] + after[|between|..];
  }

  lemma AddedTwo(accepted: seq<Item>, a: seq<Item>, b: seq<Item>)
    ensures accepted <= accepted + a + b
    ensures forall finalized: seq<Item> :: finalized + a + b == finalized + (accepted + a + b)[|accepted|..]
  {
    assert (accepted + a + b)[|accepted|..] == a + b;
  }

  class Run {
    const fragments: map<string, seq<Step>>
    const verifiers: set<string>
    const hooks: Hooks

    var clock: nat
    /** Routing counts per (position of the route, target), per item. */
    var attempts: Attempts
    /** The items finalized so far, in order. */
    var finalized: seq<Item>
    /** Model calls made by agent loops, and those whose reply was evaluated. */
    var prompts: nat
    var evaluated: nat

    ghost function W(): World {
      World(fragments, verifiers, hooks)
    }

    ghost function Mem(): Memory
      reads this
    {
      Memory(clock, attempts, finalized)
    }

    constructor (fragments: map<string, seq<Step>>, verifiers: set<string>, hooks: Hooks)
      ensures W() == World(fragments, verifiers, hooks)
      ensures Mem() == Memory(0, map[], []) && prompts == 0 && evaluated == 0
    {
      this.fragments, this.verifiers, this.hooks := fragments, verifiers, hooks;
      clock, attempts, finalized, prompts, evaluated := 0, map[], [], 0, 0;
    }

    /** Account for one hook call. */
    method Call() returns (t: nat, ok: bool)
      modifies this`clock
      ensures t == old(clock) && clock == t + 1 && ok == !hooks.throws(t)
    {
      t, ok := clock, !hooks.throws(clock);
      clock := clock + 1;
    }

    // ----- Agent loops -----

    method Finalize(item: Item) returns (ok: bool)
      modifies this`clock, this`finalized
      ensures clock == old(clock) + 1 && ok == !hooks.throws(old(clock))
      ensures finalized == if ok then old(finalized) + [item] else old(finalized)
    {
      var t;
      t, ok := Call();
      if ok {
        finalized := finalized + [item];
      }
    }

    /** Move the items whose ids the turn declared finished out of play, finalizing each. */
    method DrainFinish(finished: set<string>, inPlay: seq<Item>, accepted0: seq<Item>)
      returns (remaining: seq<Item>, accepted: seq<Item>, ok: bool)
      modifies this`clock, this`finalized
      ensures old(finalized) <= finalized
      ensures ok <==> Quiet(hooks, old(clock), old(clock) + |Only(inPlay, finished)|)
      ensures ok ==>
        && remaining == Without(inPlay, finished) && accepted == accepted0 + Only(inPlay, finished)
        && finalized == old(finalized) + Only(inPlay, finished) && clock == old(clock) + |Only(inPlay, finished)|
    {
      if finished == {} {
        NothingFinished(inPlay);
        return inPlay, accepted0, true;
      }
      remaining, accepted := [], accepted0;
      ghost var drained, only, without := [], Only(inPlay, finished), Without(inPlay, finished);
      for i := 0 to |inPlay|
        invariant accepted == accepted0 + drained && finalized == old(finalized) + drained
        invariant clock == old(clock) + |drained| && Quiet(hooks, old(clock), clock)
        invariant remaining + Without(inPlay[i..], finished) == without
        invariant drained + Only(inPlay[i..], finished) == only
      {
        DrainStep(inPlay, i, finished, remaining, drained);
        if inPlay[i].id !in finished {
          remaining := remaining + [inPlay[i]];
        } else {
          accepted := accepted + [inPlay[i]];
          drained := drained + [inPlay[i]];
          var done := Finalize(inPlay[i]);
          if !done {
            return remaining, accepted, false;
          }
        }
      }
      ok := true;
    }

    /** Accept the verdict's items, finalizing each. */
    method AcceptAll(items: seq<Item>, accepted0: seq<Item>) returns (accepted: seq<Item>, ok: bool)
      modifies this`clock, this`finalized
      ensures old(finalized) <= finalized
      ensures ok <==> Quiet(hooks, old(clock), old(clock) + |items|)
      ensures ok ==>
        accepted == accepted0 + items && finalized == old(finalized) + items && clock == old(clock) + |items|
    {
      accepted := accepted0;
      for i := 0 to |items|
        invariant accepted == accepted0 + items[..i] && finalized == old(finalized) + items[..i]
        invariant clock == old(clock) + i && Quiet(hooks, old(clock), clock)
      {
        accepted := accepted + [items[i]];
        var done := Finalize(items[i]);
        if !done {
          return accepted, false;
        }
      }
      ok := true;
    }

    /** One evaluated turn: prompt, drain the finished ids, reprompt, accept. */
    method Turn(inPlay0: seq<Item>, accepted0: seq<Item>)
      returns (inPlay: seq<Item>, accepted: seq<Item>, verdict: Verdict, ok: bool)
      modifies this`clock, this`finalized, this`prompts, this`evaluated
      ensures old(finalized) <= finalized
      ensures var turn := TurnOf(hooks, old(clock), inPlay0);
        && (ok <==> Quiet(hooks, old(clock), turn.clock))
        && (ok ==>
          && inPlay == turn.inPlay && verdict == turn.verdict && clock == turn.clock
          && accepted == accepted0 + turn.drained + turn.verdict.accepted
          && finalized == old(finalized) + turn.drained + turn.verdict.accepted)
      ensures prompts == old(prompts) + 1 && evaluated <= old(evaluated) + 1 && (ok ==> evaluated == old(evaluated) + 1)
    {
      inPlay, accepted, verdict := inPlay0, accepted0, Verdict([], false, "");
      prompts := prompts + 1;
      var t;
      t, ok := Call();
      if !ok { return; }
      inPlay, accepted, ok := DrainFinish(hooks.finish(t), inPlay0, accepted0);
      if !ok { return; }
      t, ok := Call();
      if !ok { return; }
      evaluated := evaluated + 1;
      verdict := hooks.reprompt(t, inPlay);
      accepted, ok := AcceptAll(verdict.accepted, accepted);
      if !ok { return; }
      inPlay := Without(inPlay, Ids(verdict.accepted));
    }

    /** The end of a loop on a final verdict: when it carries feedback, one write-only turn delivers
        it; its reply is not evaluated, but the ids it declares finished are drained. */
    method FinalTurn(feedback: string, inPlay0: seq<Item>, accepted0: seq<Item>, ghost turns: nat)
      returns (inPlay: seq<Item>, accepted: seq<Item>, ok: bool)
      modifies this`clock, this`finalized, this`prompts
      ensures old(finalized) <= finalized && prompts == old(prompts) + if feedback == "" then 0 else 1
      ensures var end := WrapUp(hooks, old(clock), turns, feedback, accepted0, inPlay0);
        && (ok <==> end.Ended?)
        && (ok ==> end == Ended(accepted, inPlay, clock, turns, feedback != ""))
      ensures ok ==> accepted0 <= accepted && finalized == old(finalized) + accepted[|accepted0|..]
    {
      inPlay, accepted, ok := inPlay0, accepted0, true;
      if feedback != "" {
        prompts := prompts + 1;
        var t;
        t, ok := Call();
        if ok {
          inPlay, accepted, ok := DrainFinish(hooks.finish(t), inPlay0, accepted0);
        }
      }
    }

    /** One turn of a session and the loop's exit tests after it. */
    method TurnAndTest(inPlay0: seq<Item>, accepted0: seq<Item>, turns: nat, cap: int)
      returns (inPlay: seq<Item>, accepted: seq<Item>, over: bool, ok: bool)
      requires inPlay0 != [] && turns < TurnCap(cap)
      modifies this`clock, this`finalized, this`prompts, this`evaluated
      ensures old(finalized) <= finalized && evaluated <= old(evaluated) + 1
      ensures old(prompts) < prompts <= old(prompts) + if ok && !over then 1 else 2
      ensures var end := LoopFrom(hooks, old(clock), turns, cap, accepted0, inPlay0);
        && (!ok ==> end.Broken?)
        && (ok && over ==> end == Ended(accepted, inPlay, clock, turns + 1, prompts == old(prompts) + 2))
        && (ok && !over ==> turns + 1 < TurnCap(cap) && end == LoopFrom(hooks, clock, turns + 1, cap, accepted, inPlay))
      ensures ok ==> accepted0 <= accepted && finalized == old(finalized) + accepted[|accepted0|..]
      ensures ok ==> evaluated == old(evaluated) + 1
    {
      over := false;
      var verdict: Verdict;
      ghost var turn := TurnOf(hooks, clock, inPlay0);
      inPlay, accepted, verdict, ok := Turn(inPlay0, accepted0);
      if !ok {
        return;
      }
      ghost var added := accepted;
      AddedTwo(accepted0, turn.drained, turn.verdict.accepted);
      if inPlay == [] {
        over := true;
      } else if verdict.final {
        over := true;
        inPlay, accepted, ok := FinalTurn(verdict.feedback, inPlay, accepted, turns + 1);
        if ok {
          ExtendedTwice(old(finalized), accepted0, added, accepted);
        }
      } else {
        over := turns + 1 >= cap;
      }
    }

    /** The turns of one session: until nothing is in play, a verdict is final, or the cap is
        reached. */
    method Converse(items: seq<Item>, cap: int) returns (accepted: seq<Item>, inPlay: seq<Item>, ok: bool)
      modifies this`clock, this`finalized, this`prompts, this`evaluated
      ensures old(finalized) <= finalized
      ensures prompts <= old(prompts) + TurnCap(cap) + 1 && evaluated <= old(evaluated) + TurnCap(cap)
      ensures var end := LoopFrom(hooks, old(clock), 0, cap, [], items);
        && (ok <==> end.Ended?)
        && (ok ==>
          && accepted == end.accepted && inPlay == end.inPlay && clock == end.clock
          && finalized == old(finalized) + accepted && evaluated == old(evaluated) + end.turns
          && prompts == old(prompts) + end.turns + if end.wrapUp then 1 else 0)
    {
      ghost var end := LoopFrom(hooks, clock, 0, cap, [], items);
      accepted, inPlay, ok := [], items, true;
      var turns := 0;
      while inPlay != []
        invariant ok && 0 <= turns < TurnCap(cap)
        invariant prompts == old(prompts) + turns && evaluated == old(evaluated) + turns
        invariant finalized == old(finalized) + accepted
        invariant LoopFrom(hooks, clock, turns, cap, accepted, inPlay) == end
        decreases TurnCap(cap) - turns
      {
        ghost var before := accepted;
        var over;
        inPlay, accepted, over, ok := TurnAndTest(inPlay, accepted, turns, cap);
        if !ok { break; }
        Extended(old(finalized), before, accepted);
        turns := turns + 1;
        if over { break; }
      }
    }

    /** Hold one session over the items: at most max(1, cap) evaluated prompts and one write-only
        prompt. Exactly the accepted items are finalized, in the order of their acceptance. */
    method RunAgentLoop(step: Step, items: seq<Item>, retries: Option<int>) returns (r: Exec)
      requires step.AgentLoop?
      modifies this`clock, this`finalized, this`prompts, this`evaluated
      ensures var ran := LoopRun(W(), step, items, retries, old(Mem()));
        r == ran.exec && (r.Done? ==> Mem() == ran.mem)
      ensures r.Done? ==> finalized == old(finalized) + r.accepted
      ensures prompts <= old(prompts) + TurnCap(LoopCap(step, retries)) + 1
      ensures evaluated <= old(evaluated) + TurnCap(LoopCap(step, retries))
      ensures items == [] ==> prompts == old(prompts)
    {
      if items == [] {
        return Done([], [], [], false);
      }
      var t, ok := Call();
      if !ok { return Threw(HookThrew); }
      var accepted, inPlay;
      accepted, inPlay, ok := Converse(items, LoopCap(step, retries));
      r := if ok then Done(accepted, inPlay, [], false) else Threw(HookThrew);
    }

    // ----- The other steps -----

    method RunVerify(step: Step, items: seq<Item>) returns (r: Exec)
      requires step.Verify?
      modifies this`clock
      ensures var ran := VerifyRun(W(), step, items, old(Mem()));
        r == ran.exec && (r.Done? ==> Mem() == ran.mem)
    {
      if step.verifier !in verifiers {
        return Threw(UnknownVerifier);
      }
      r := VerifyEach(items);
    }

    method VerifyEach(items: seq<Item>) returns (r: Exec)
      modifies this`clock
      ensures r == if Quiet(hooks, old(clock), old(clock) + |items|)
                   then Done(Passing(hooks, old(clock), items), Failing(hooks, old(clock), items), [], false)
                   else Threw(HookThrew)
      ensures r.Done? ==> clock == old(clock) + |items|
    {
      ghost var passing, failing := Passing(hooks, clock, items), Failing(hooks, clock, items);
      var accepted, rejected := [], [];
      for i := 0 to |items|
        invariant clock == old(clock) + i && Quiet(hooks, old(clock), clock)
        invariant accepted + Passing(hooks, clock, items[i..]) == passing
        invariant rejected + Failing(hooks, clock, items[i..]) == failing
      {
        var t, ok := Call();
        if !ok { return Threw(HookThrew); }
        VerifyStep(hooks, t, items, i, accepted, rejected);
        if hooks.verify(t, items[i]) {
          accepted := accepted + [items[i]];
        } else {
          rejected := rejected + [items[i]];
        }
      }
      r := Done(accepted, rejected, [], false);
    }

    /** A gate keeps every item in play, or skips them all and aborts the scope. */
    method RunGate(items: seq<Item>) returns (r: Exec)
      modifies this`clock
      ensures var ran := GateRun(W(), items, old(Mem()));
        r == ran.exec && (r.Done? ==> Mem() == ran.mem)
    {
      var t, ok := Call();
      if !ok { return Threw(HookThrew); }
      r := if hooks.gate(t, items) then Done([], items, [], false) else Done([], [], items, true);
    }

    /** Steps after which every item is still in play. */
    method RunPassThrough(step: Step, items: seq<Item>) returns (r: Exec)
      modifies this`clock
      ensures var ran := PassThroughRun(W(), step, items, old(Mem()));
        r == ran.exec && (r.Done? ==> Mem() == ran.mem)
    {
      if step.Agent? && items == [] {
        return Done([], [], [], false);
      }
      var t, ok := Call();
      r := if ok then Done([], items, [], false) else Threw(HookThrew);
    }

    // ----- Foreach -----

    /** Run the setup hook on a drawn batch. */
    method DrawWindow(step: Step, batch: seq<Item>, queue0: seq<seq<Item>>, retries0: Option<int>)
      returns (window: seq<Item>, queue: seq<seq<Item>>, retries: Option<int>, error: Option<Error>)
      requires step.Foreach?
      modifies this`clock
      ensures Draw(hooks, step, batch, queue0, retries0, old(clock)) ==
        if error.Some? then Refused(error.value) else Drawn(window, queue, retries, clock)
    {
      window, queue, retries, error := batch, queue0, retries0, None;
      if step.hasSetup {
        var t, ok := Call();
        if !ok {
          return window, queue, retries, Some(HookThrew);
        }
        var cfg := hooks.setup(t, batch);
        if cfg.batchSize.Some? && cfg.batchSize.value < 1 {
          return window, queue, retries, Some(InvalidBatchSize);
        }
        if cfg.batchSize.Some? && cfg.batchSize.value < |batch| {
          queue := [batch[cfg.batchSize.value..]] + queue;
          window := batch[..cfg.batchSize.value];
        }
        if cfg.rejectionRetries.Some? {
          retries := cfg.rejectionRetries;
        }
      }
    }

    method BumpAttempt(budget: (nat, string), id: string)
      modifies this`attempts
      ensures attempts == Bumped(old(attempts), budget, id)
      ensures forall k, i ::
        AttemptsOf(attempts, k, i) == AttemptsOf(old(attempts), k, i) + (if k == budget && i == id then 1 else 0)
    {
      var byItem := if budget in attempts then attempts[budget] else map[];
      attempts := attempts[budget := byItem[id := AttemptsOf(attempts, budget, id) + 1]];
    }

    /** Route one rejected item. */
    method RouteOne(routes: seq<Route>, item: Item, tally0: Tally) returns (tally: Tally)
      modifies this`attempts
      ensures Routing(tally, attempts) == RouteItem(routes, item, Routing(tally0, old(attempts)))
    {
      var index := MatchRoute(routes, item);
      if index.None? {
        return tally0.(rejected := tally0.rejected + [item]);
      }
      var route := routes[index.value];
      var budget := (index.value, route.to);
      if route.maxAttempts.Some? && AttemptsOf(attempts, budget, item.id) >= route.maxAttempts.value {
        return tally0.(rejected := tally0.rejected + [item]);
      }
      BumpAttempt(budget, item.id);
      tally := tally0.(routed := AddTo(tally0.routed, route.to, item));
    }

    method RouteAll(routes: seq<Route>, items: seq<Item>, tally0: Tally) returns (tally: Tally)
      modifies this`attempts
      ensures Routing(tally, attempts) == RouteItems(routes, items, Routing(tally0, old(attempts)))
    {
      tally := tally0;
      assert items[..0] == [];
      for i := 0 to |items|
        invariant Routing(tally, attempts) == RouteItems(routes, items[..i], Routing(tally0, old(attempts)))
      {
        assert items[..i + 1][..i] == items[..i];
        tally := RouteOne(routes, items[i], tally);
      }
      assert items[..|items|] == items;
    }

    // ----- Scopes -----

    /** Run `steps` over `items`: accepted items accumulate, each step continues with what the one
        before left in play, and a gate that fires false skips what is in play. */
    method RunScope(steps: seq<Step>, items: seq<Item>, retries: Option<int>, ghost down: set<string>) returns (r: Exec)
      requires RoutesWithin(W(), RouteTargets(steps), down)
      modifies this
      ensures var ran := ScopeRun(W(), steps, items, retries, down, old(Mem()));
        r == ran.exec && (r.Done? ==> Mem() == ran.mem)
      decreases down, steps, 0
    {
      ghost var ran := ScopeRun(W(), steps, items, retries, down, Mem());
      var accepted, skipped, inPlay := [], [], items;
      NothingAccumulated(ran);
      assert steps[0..] == steps;
      for i := 0 to |steps|
        invariant RoutesWithin(W(), RouteTargets(steps[i..]), down)
        invariant ran == After(accepted, skipped, ScopeRun(W(), steps[i..], inPlay, retries, down, Mem()))
      {
        ScopeSuffix(W(), steps, i, inPlay, retries, down, Mem(), accepted, skipped);
        var exec := RunStep(steps[i], inPlay, retries, down);
        if exec.Threw? {
          return exec;
        }
        accepted, skipped, inPlay := accepted + exec.accepted, skipped + exec.skipped, exec.rejected;
        if exec.aborted {
          return Done(accepted, [], skipped, true);
        }
      }
      assert accepted + [] == accepted && skipped + [] == skipped;
      r := Done(accepted, inPlay, skipped, false);
    }

    method RunStep(step: Step, items: seq<Item>, retries: Option<int>, ghost down: set<string>) returns (r: Exec)
      requires step.Foreach? ==>
        RoutesWithin(W(), TargetsOf(step.onReject), down) && RoutesWithin(W(), RouteTargets(step.steps), down)
      modifies this
      ensures var ran := StepRun(W(), step, items, retries, down, old(Mem()));
        r == ran.exec && (r.Done? ==> Mem() == ran.mem)
      decreases down, step, 3
    {
      match step {
        case AgentLoop(_) => r := RunAgentLoop(step, items, retries);
        case Verify(_) => r := RunVerify(step, items);
        case Gate => r := RunGate(items);
        case Foreach(_, _, _, _, _) => r := RunForeach(step, items, retries, down);
        case _ => r := RunPassThrough(step, items);
      }
    }

    /** Run the body over every batch window, route what stays rejected, and run the fragments. */
    method RunForeach(step: Step, items: seq<Item>, retries: Option<int>, ghost down: set<string>) returns (r: Exec)
      requires step.Foreach?
      requires RoutesWithin(W(), TargetsOf(step.onReject), down) && RoutesWithin(W(), RouteTargets(step.steps), down)
      modifies this
      ensures var ran := ForeachRun(W(), step, items, retries, down, old(Mem()));
        r == ran.exec && (r.Done? ==> Mem() == ran.mem)
      decreases down, step, 2
    {
      if step.batch < 1 {
        return Threw(InvalidBatch);
      }
      BatchesRefineSource(items, step.batch, step.key);
      var queue := Partition(items, step.batch, step.key);
      var tally, error := RunBatches(step, queue, retries, down);
      if error.Some? {
        return Threw(error.value);
      }
      r := RunBuckets(step, tally, down);
    }

    /** The batch queue of a foreach, until it is empty. */
    method RunBatches(step: Step, queue0: seq<seq<Item>>, retries: Option<int>, ghost down: set<string>)
      returns (tally: Tally, error: Option<Error>)
      requires step.Foreach? && RoutesWithin(W(), RouteTargets(step.steps), down)
      requires WithinSize(queue0, step.batch)
      modifies this
      ensures var b := BatchesRun(W(), step, queue0, EmptyTally(), retries, down, old(Mem()));
        && (error.Some? ==> b == Broke(error.value))
        && (error.None? ==> b.Batched? && b.tally == tally && b.mem == Mem())
      decreases down, step, 1, |Flat(queue0)|
    {
      tally := EmptyTally();
      var queue := queue0;
      ghost var windows := [];
      ghost var all := BatchesRun(W(), step, queue, tally, retries, down, Mem());
      while queue != []
        invariant WithinSize(queue, step.batch) && BucketsWithin(tally.routed, TargetsOf(step.onReject))
        invariant |Flat(queue)| <= |Flat(queue0)|
        invariant all == WithWindows(windows, BatchesRun(W(), step, queue, tally, retries, down, Mem()))
        decreases |Flat(queue)|
      {
        ghost var window;
        queue, tally, error, window := RunWindow(step, queue, retries, tally, down);
        if error.Some? { return; }
        WindowsTwice(windows, window, BatchesRun(W(), step, queue, tally, retries, down, Mem()));
        windows := windows + [window];
      }
      error := None;
    }

    /** Draw one window, run the body over it, and route what the body rejects. */
    method RunWindow(step: Step, queue: seq<seq<Item>>, retries: Option<int>, tally0: Tally, ghost down: set<string>)
      returns (rest: seq<seq<Item>>, tally: Tally, error: Option<Error>, ghost drawn: seq<Item>)
      requires step.Foreach? && queue != [] && WithinSize(queue, step.batch)
      requires RoutesWithin(W(), RouteTargets(step.steps), down)
      requires BucketsWithin(tally0.routed, TargetsOf(step.onReject))
      modifies this
      ensures error.Some? ==>
        BatchesRun(W(), step, queue, tally0, retries, down, old(Mem())) == Broke(error.value)
      ensures error.None? ==>
        && WithinSize(rest, step.batch) && BucketsWithin(tally.routed, TargetsOf(step.onReject))
        && |Flat(rest)| < |Flat(queue)|
        && BatchesRun(W(), step, queue, tally0, retries, down, old(Mem()))
           == WithWindow(drawn, BatchesRun(W(), step, rest, tally, retries, down, Mem()))
      decreases down, step, 1, |Flat(queue)|, 0
    {
      tally := tally0;
      assert [queue[0]] + queue[1..] == queue;
      DrawKeepsOrder(hooks, step, queue[0], queue[1..], retries, clock, step.batch);
      var window, bodyRetries;
      window, rest, bodyRetries, error := DrawWindow(step, queue[0], queue[1..], retries);
      drawn := window;
      if error.Some? { return; }
      var res := RunScope(step.steps, window, bodyRetries, down);
      if res.Threw? {
        error := Some(res.error);
        return;
      }
      RoutedKeeps(step, tally0, Ran(res, Mem()));
      tally := RouteAll(step.onReject, res.rejected, Collected(tally0, res));
    }

    /** Run each bucket through its fragment. */
    method RunBuckets(step: Step, tally: Tally, ghost down: set<string>) returns (r: Exec)
      requires step.Foreach? && RoutesWithin(W(), TargetsOf(step.onReject), down)
      requires BucketsWithin(tally.routed, TargetsOf(step.onReject))
      modifies this
      ensures var ran := BucketsRun(W(), step, tally, down, old(Mem()));
        r == ran.exec && (r.Done? ==> Mem() == ran.mem)
      decreases down, step, 0
    {
      ghost var all := BucketsRun(W(), step, tally, down, Mem());
      var now := tally;
      while now.routed != []
        invariant BucketsWithin(now.routed, TargetsOf(step.onReject))
        invariant all == BucketsRun(W(), step, now, down, Mem())
        decreases |now.routed|
      {
        var bucket := now.routed[0];
        if bucket.to !in fragments {
          return Threw(UnknownFragment);
        }
        FragmentRoutes(W(), bucket.to, down);
        var res := RunScope(fragments[bucket.to], bucket.items, None, Below(W(), bucket.to));
        if res.Threw? {
          return res;
        }
        now := AfterBucket(now, res);
      }
      r := Done(now.accepted, now.rejected, now.skipped, false);
    }
  }
}
