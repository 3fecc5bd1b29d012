/** What every pipeline run conserves. */
module EngineConservation {
  import opened Prelude
  import opened Pipeline
  import opened RouteGraph
  import opened EngineMeaning

  // ----- Agent loops -----

  lemma DistinctPart(part: multiset<Item>, whole: multiset<Item>)
    requires part <= whole && Distinct(whole)
    ensures Distinct(part)
  {
    forall x
      ensures part[x] <= 1
    {
      assert part[x] <= whole[x];
    }
  }

  /** Reprompt hooks accept only items that are in play, each at most once. */
  ghost predicate WellBehaved(h: Hooks) {
    forall t: nat, inPlay :: multiset(h.reprompt(t, inPlay).accepted) <= multiset(inPlay)
  }

  /** A turn conserves the items in play exactly when its verdict accepts a sub-collection of what
      the drain left; the engine does not check that it does. */
  lemma TurnConserves(h: Hooks, clock: nat, inPlay: seq<Item>)
    requires Distinct(multiset(inPlay))
    ensures var turn := TurnOf(h, clock, inPlay);
            multiset(turn.drained) + multiset(turn.verdict.accepted) + multiset(turn.inPlay) == multiset(inPlay)
            <==> multiset(turn.verdict.accepted) <= multiset(turn.left)
  {
    var turn := TurnOf(h, clock, inPlay);
    OnlyAndWithout(inPlay, h.finish(clock));
    DistinctPart(multiset(turn.left), multiset(inPlay));
    AcceptingConserves(turn.left, turn.verdict.accepted);
    var d, a, p := multiset(turn.drained), multiset(turn.verdict.accepted), multiset(turn.inPlay);
    assert d + a + p == d + (a + p);
    if d + (a + p) == d + multiset(turn.left) {
      assert a + p == multiset(turn.left) by {
        forall x: Item
          ensures (a + p)[x] == multiset(turn.left)[x]
        {
          assert (d + (a + p))[x] == (d + multiset(turn.left))[x];
        }
      }
    }
  }

  lemma SplitOne(item: Item, ids: set<string>)
    ensures Only([item], ids) == if item.id in ids then [item] else []
    ensures Without([item], ids) == if item.id in ids then [] else [item]
  {
    assert [item] == [] + [item];
  }

  /** A loop over one item whose verdict names it twice ends with it accepted twice. */
  lemma AcceptedTwice(h: Hooks, clock: nat, cap: int, item: Item)
    requires (forall t :: !h.throws(t)) && h.finish(clock) == {}
    requires h.reprompt(clock + 1, [item]).accepted == [item, item]
    ensures var end := LoopFrom(h, clock, 0, cap, [], [item]);
      end.Ended? && end.accepted == [item, item] && end.inPlay == []
  {
    var turn := TurnOf(h, clock, [item]);
    SplitOne(item, h.finish(clock));
    SplitOne(item, Ids([item, item]));
    assert item in [item, item];
    assert [] + turn.drained + turn.verdict.accepted == [item, item];
  }

  lemma TurnAccumulates(h: Hooks, clock: nat, accepted: seq<Item>, inPlay: seq<Item>)
    requires WellBehaved(h) && Distinct(multiset(inPlay))
    ensures var turn := TurnOf(h, clock, inPlay);
            && Distinct(multiset(turn.inPlay))
            && multiset(accepted + turn.drained + turn.verdict.accepted) + multiset(turn.inPlay)
               == multiset(accepted) + multiset(inPlay)
  {
    var turn := TurnOf(h, clock, inPlay);
    assert multiset(h.reprompt(clock + 1 + |turn.drained|, turn.left).accepted) <= multiset(turn.left);
    TurnConserves(h, clock, inPlay);
    DistinctPart(multiset(turn.inPlay), multiset(inPlay));
    var a, d := multiset(accepted), multiset(turn.drained);
    var v, p := multiset(turn.verdict.accepted), multiset(turn.inPlay);
    assert a + d + v + p == a + (d + v + p);
  }

  /** The end of a loop accounts for all items, within the cap. */
  ghost predicate LoopKeeps(end: LoopEnd, total: multiset<Item>, cap: int) {
    end.Ended? ==> multiset(end.accepted) + multiset(end.inPlay) == total && end.turns <= TurnCap(cap)
  }

  lemma WrapUpKeeps(h: Hooks, clock: nat, turns: nat, feedback: string, all: seq<Item>, inPlay: seq<Item>,
                    total: multiset<Item>, cap: int)
    requires multiset(all) + multiset(inPlay) == total && turns <= TurnCap(cap)
    ensures LoopKeeps(WrapUp(h, clock, turns, feedback, all, inPlay), total, cap)
  {
    OnlyAndWithout(inPlay, h.finish(clock));
    var a, o, w := multiset(all), multiset(Only(inPlay, h.finish(clock))), multiset(Without(inPlay, h.finish(clock)));
    assert a + o + w == a + (o + w);
  }

  lemma {:induction false} LoopKeepsAfterTurn(h: Hooks, clock: nat, turns: nat, cap: int, accepted: seq<Item>,
                                              inPlay: seq<Item>, turn: TurnEnd, total: multiset<Item>)
    requires turns < TurnCap(cap) && inPlay != [] && turn == TurnOf(h, clock, inPlay)
    requires multiset(accepted + turn.drained + turn.verdict.accepted) + multiset(turn.inPlay) == total
    requires turns + 1 < cap ==>
      LoopKeeps(LoopFrom(h, turn.clock, turns + 1, cap, accepted + turn.drained + turn.verdict.accepted, turn.inPlay),
                total, cap)
    ensures LoopKeeps(LoopFrom(h, clock, turns, cap, accepted, inPlay), total, cap)
  {
    WrapUpKeeps(h, turn.clock, turns + 1, turn.verdict.feedback, accepted + turn.drained + turn.verdict.accepted,
                turn.inPlay, total, cap);
  }

  /** An agent loop conserves its items and evaluates at most max(1, cap) prompts. */
  lemma {:induction false} LoopConserves(h: Hooks, clock: nat, turns: nat, cap: int, accepted: seq<Item>,
                                         inPlay: seq<Item>, total: multiset<Item>)
    requires WellBehaved(h) && Distinct(multiset(inPlay)) && turns < TurnCap(cap)
    requires multiset(accepted) + multiset(inPlay) == total
    ensures LoopKeeps(LoopFrom(h, clock, turns, cap, accepted, inPlay), total, cap)
    decreases TurnCap(cap) - turns
  {
    if inPlay != [] {
      var turn := TurnOf(h, clock, inPlay);
      TurnAccumulates(h, clock, accepted, inPlay);
      if turns + 1 < cap {
        var all := accepted + turn.drained + turn.verdict.accepted;
        LoopConserves(h, turn.clock, turns + 1, cap, all, turn.inPlay, total);
      }
      LoopKeepsAfterTurn(h, clock, turns, cap, accepted, inPlay, turn, total);
    }
  }

  lemma {:induction false} VerifyPartitions(h: Hooks, clock: nat, items: seq<Item>)
    ensures multiset(Passing(h, clock, items)) + multiset(Failing(h, clock, items)) == multiset(items)
    decreases |items|
  {
    if items != [] {
      VerifyPartitions(h, clock + 1, items[1..]);
      assert items == [items[0]] + items[1..];
    }
  }

  // ----- Scopes and steps -----

  /** Nothing that entered is lost, duplicated or invented; what was finalized on the way was accepted;
      and an aborted outcome leaves nothing in play. */
  ghost predicate Conserves(w: World, m: Memory, r: Ran, entered: multiset<Item>) {
    r.exec.Done? && WellBehaved(w.hooks) && Distinct(entered) ==>
      && Everything(r.exec) == entered && m.finalized <= r.mem.finalized
      && multiset(r.mem.finalized[|m.finalized|..]) <= multiset(r.exec.accepted)
      && (r.exec.aborted ==> r.exec.rejected == [])
  }

  /** What running something over `items` may do to a tally: account for exactly these items, and
      accept whatever it finalizes. */
  ghost predicate Adds(w: World, m: Memory, before: Tally, items: seq<Item>, n: Memory, after: Tally) {
    WellBehaved(w.hooks) && Distinct(multiset(items)) ==>
      && Total(after) == Total(before) + multiset(items) && m.finalized <= n.finalized
      && multiset(before.accepted) + multiset(n.finalized[|m.finalized|..]) <= multiset(after.accepted)
  }

  lemma LoopRunConserves(w: World, step: Step, items: seq<Item>, retries: Option<int>, m: Memory)
    requires step.AgentLoop?
    ensures Conserves(w, m, LoopRun(w, step, items, retries, m), multiset(items))
  {
    if items != [] && WellBehaved(w.hooks) && Distinct(multiset(items)) {
      LoopConserves(w.hooks, m.clock + 1, 0, LoopCap(step, retries), [], items, multiset(items));
    }
  }

  lemma VerifyRunConserves(w: World, step: Step, items: seq<Item>, m: Memory)
    requires step.Verify?
    ensures Conserves(w, m, VerifyRun(w, step, items, m), multiset(items))
  {
    VerifyPartitions(w.hooks, m.clock, items);
  }

  lemma GateRunConserves(w: World, items: seq<Item>, m: Memory)
    ensures Conserves(w, m, GateRun(w, items, m), multiset(items))
  {
  }

  lemma PassThroughConserves(w: World, step: Step, items: seq<Item>, m: Memory)
    ensures Conserves(w, m, PassThroughRun(w, step, items, m), multiset(items))
  {
  }

  lemma {:induction false} StepConserves(w: World, step: Step, items: seq<Item>, retries: Option<int>,
                                         down: set<string>, m: Memory)
    requires step.Foreach? ==>
      RoutesWithin(w, TargetsOf(step.onReject), down) && RoutesWithin(w, RouteTargets(step.steps), down)
    ensures Conserves(w, m, StepRun(w, step, items, retries, down, m), multiset(items))
    decreases down, step, 3
  {
    match step
    case AgentLoop(_) => LoopRunConserves(w, step, items, retries, m);
    case Verify(_) => VerifyRunConserves(w, step, items, m);
    case Gate => GateRunConserves(w, items, m);
    case Foreach(_, _, _, _, _) => ForeachConserves(w, step, items, retries, down, m);
    case _ => PassThroughConserves(w, step, items, m);
  }

  /** A step that conserves what is in play, in front of a rest that does. */
  lemma AfterConserves(w: World, m: Memory, first: Ran, rest: Ran, entered: multiset<Item>)
    requires first.exec.Done? && Conserves(w, m, first, entered)
    requires Conserves(w, first.mem, rest, multiset(first.exec.rejected))
    ensures Conserves(w, m, After(first.exec.accepted, first.exec.skipped, rest), entered)
  {
    if rest.exec.Done? && WellBehaved(w.hooks) && Distinct(entered) {
      DistinctPart(multiset(first.exec.rejected), entered);
      var a, r, s := multiset(first.exec.accepted), multiset(first.exec.rejected), multiset(first.exec.skipped);
      var a', r', s' := multiset(rest.exec.accepted), multiset(rest.exec.rejected), multiset(rest.exec.skipped);
      assert (a + a') + r' + (s + s') == a + (a' + r' + s') + s;
      FinalizedGrows(m, first.mem, rest.mem);
    }
  }

  lemma FinalizedGrows(m: Memory, n: Memory, o: Memory)
    requires m.finalized <= n.finalized <= o.finalized
    ensures m.finalized <= o.finalized
    ensures multiset(o.finalized[|m.finalized|..])
      == multiset(n.finalized[|m.finalized|..]) + multiset(o.finalized[|n.finalized|..])
  {
    assert o.finalized[|m.finalized|..] == n.finalized[|m.finalized|..] + o.finalized[|n.finalized|..];
  }

  /** Accepted, rejected and skipped items of a scope together are a permutation of those that entered
      it, through nested foreach steps, setup splits, gates, agent loops and fragments. */
  lemma {:induction false} ScopeConserves(w: World, steps: seq<Step>, items: seq<Item>, retries: Option<int>,
                                          down: set<string>, m: Memory)
    requires RoutesWithin(w, RouteTargets(steps), down)
    ensures Conserves(w, m, ScopeRun(w, steps, items, retries, down, m), multiset(items))
    decreases down, steps, 0
  {
    if steps != [] {
      RoutesWithinScope(w, steps, down);
      var first := StepRun(w, steps[0], items, retries, down, m);
      StepConserves(w, steps[0], items, retries, down, m);
      if first.exec.Done? && !first.exec.aborted {
        ScopeConserves(w, steps[1..], first.exec.rejected, retries, down, first.mem);
        AfterConserves(w, m, first, ScopeRun(w, steps[1..], first.exec.rejected, retries, down, first.mem),
                       multiset(items));
      }
    }
  }

  /** A window that is run, collected and routed adds its items to the tally. */
  lemma WindowAdds(w: World, m: Memory, window: seq<Item>, step: Step, body: Ran, tally: Tally)
    requires step.Foreach? && body.exec.Done? && Conserves(w, m, body, multiset(window))
    requires BucketsWithin(tally.routed, TargetsOf(step.onReject))
    ensures var routing := Routed(step, tally, body);
      Adds(w, m, tally, window, body.mem.(attempts := routing.attempts), routing.tally)
  {
    RoutedKeeps(step, tally, body);
    if WellBehaved(w.hooks) && Distinct(multiset(window)) {
      var a, r, s, f := multiset(tally.accepted), multiset(tally.rejected), multiset(tally.skipped),
                        multiset(FlatBuckets(tally.routed));
      var a', r', s' := multiset(body.exec.accepted), multiset(body.exec.rejected), multiset(body.exec.skipped);
      assert multiset(tally.accepted + body.exec.accepted) == a + a';
      assert ((a + a') + r + (s + s') + f) + r' == (a + r + s + f) + (a' + r' + s');
    }
  }

  lemma AddsMore(w: World, m: Memory, before: Tally, a: seq<Item>, n: Memory, mid: Tally, b: seq<Item>, o: Memory,
                 after: Tally)
    requires Adds(w, m, before, a, n, mid) && Adds(w, n, mid, b, o, after)
    ensures Adds(w, m, before, a + b, o, after)
  {
    if WellBehaved(w.hooks) && Distinct(multiset(a + b)) {
      assert multiset(a + b) == multiset(a) + multiset(b);
      DistinctPart(multiset(a), multiset(a + b));
      DistinctPart(multiset(b), multiset(a + b));
      FinalizedGrows(m, n, o);
    }
  }

  /** What a batch loop did over a queue: its windows present the queue, uncut and unshuffled, in pieces
      of at most the batch size; and the tally accounts for exactly these items. */
  ghost predicate Presents(w: World, step: Step, queue: seq<seq<Item>>, m: Memory, tally: Tally, b: Batched)
    requires step.Foreach?
  {
    b.Batched? ==>
      && Flat(b.windows) == Flat(queue) && WithinSize(b.windows, step.batch)
      && Adds(w, m, tally, Flat(queue), b.mem, b.tally)
  }

  lemma {:induction false} BatchesAdd(w: World, step: Step, queue: seq<seq<Item>>, tally: Tally, retries: Option<int>,
                                      down: set<string>, m: Memory)
    requires step.Foreach? && RoutesWithin(w, RouteTargets(step.steps), down)
    requires WithinSize(queue, step.batch) && BucketsWithin(tally.routed, TargetsOf(step.onReject))
    ensures Presents(w, step, queue, m, tally, BatchesRun(w, step, queue, tally, retries, down, m))
    decreases down, step, 1, |Flat(queue)|
  {
    if queue != [] {
      var drawn := Draw(w.hooks, step, queue[0], queue[1..], retries, m.clock);
      assert queue == [queue[0]] + queue[1..];
      DrawKeepsOrder(w.hooks, step, queue[0], queue[1..], retries, m.clock, step.batch);
      if drawn.Drawn? {
        WindowThenRest(w, step, queue, drawn, tally, retries, down, m);
      }
    }
  }

  lemma {:induction false} WindowThenRest(w: World, step: Step, queue: seq<seq<Item>>, drawn: Drawn, tally: Tally,
                                          retries: Option<int>, down: set<string>, m: Memory)
    requires step.Foreach? && RoutesWithin(w, RouteTargets(step.steps), down)
    requires BucketsWithin(tally.routed, TargetsOf(step.onReject)) && drawn.Drawn?
    requires Flat([drawn.window] + drawn.queue) == Flat(queue) && |Flat(drawn.queue)| < |Flat(queue)|
    requires WithinSize([drawn.window] + drawn.queue, step.batch) && WithinSize(drawn.queue, step.batch)
    ensures var body := ScopeRun(w, step.steps, drawn.window, drawn.retries, down, m.(clock := drawn.clock));
      body.exec.Done? ==>
        var routing := Routed(step, tally, body);
        && BucketsWithin(routing.tally.routed, TargetsOf(step.onReject))
        && Presents(w, step, queue, m, tally,
             WithWindow(drawn.window, BatchesRun(w, step, drawn.queue, routing.tally, retries, down,
                                                 body.mem.(attempts := routing.attempts))))
    decreases down, step, 1, |Flat(queue)|, 0
  {
    var n := m.(clock := drawn.clock);
    var body := ScopeRun(w, step.steps, drawn.window, drawn.retries, down, n);
    ScopeConserves(w, step.steps, drawn.window, drawn.retries, down, n);
    if body.exec.Done? {
      var routing := Routed(step, tally, body);
      RoutedKeeps(step, tally, body);
      var o := body.mem.(attempts := routing.attempts);
      BatchesAdd(w, step, drawn.queue, routing.tally, retries, down, o);
      OneWindowMore(w, step, drawn.window, drawn.queue, m, n, tally, body,
                    BatchesRun(w, step, drawn.queue, routing.tally, retries, down, o));
    }
  }

  lemma OneWindowMore(w: World, step: Step, window: seq<Item>, queue: seq<seq<Item>>, m: Memory, n: Memory,
                      tally: Tally, body: Ran, b: Batched)
    requires step.Foreach? && WithinSize([window] + queue, step.batch) && n.finalized == m.finalized
    requires body.exec.Done? && Conserves(w, n, body, multiset(window))
    requires BucketsWithin(tally.routed, TargetsOf(step.onReject))
    requires var routing := Routed(step, tally, body);
      Presents(w, step, queue, body.mem.(attempts := routing.attempts), routing.tally, b)
    ensures Presents(w, step, [window] + queue, m, tally, WithWindow(window, b))
  {
    if b.Batched? {
      var routing := Routed(step, tally, body);
      WindowAdds(w, n, window, step, body, tally);
      FlatFront(window, queue);
      FlatFront(window, b.windows);
      var mem := body.mem.(attempts := routing.attempts);
      AddsMore(w, n, tally, window, mem, routing.tally, Flat(queue), b.mem, b.tally);
      assert ([window] + queue)[0] == window;
    }
  }

  /** What running the fragments over the buckets of a tally gives accounts for all of the tally. */
  ghost predicate Collects(w: World, m: Memory, tally: Tally, r: Ran) {
    r.exec.Done? && WellBehaved(w.hooks) && Distinct(multiset(FlatBuckets(tally.routed))) ==>
      && Everything(r.exec) == Total(tally) && m.finalized <= r.mem.finalized
      && multiset(tally.accepted) + multiset(r.mem.finalized[|m.finalized|..]) <= multiset(r.exec.accepted)
  }

  lemma {:induction false} BucketsConserve(w: World, step: Step, tally: Tally, down: set<string>, m: Memory)
    requires step.Foreach? && RoutesWithin(w, TargetsOf(step.onReject), down)
    requires BucketsWithin(tally.routed, TargetsOf(step.onReject))
    ensures Collects(w, m, tally, BucketsRun(w, step, tally, down, m))
    ensures var r := BucketsRun(w, step, tally, down, m); r.exec.Done? ==> !r.exec.aborted
    decreases down, step, 0, |tally.routed|
  {
    if tally.routed != [] && tally.routed[0].to in w.fragments {
      var bucket := tally.routed[0];
      FragmentRoutes(w, bucket.to, down);
      var below := Below(w, bucket.to);
      var res := ScopeRun(w, w.fragments[bucket.to], bucket.items, None, below, m);
      ScopeConserves(w, w.fragments[bucket.to], bucket.items, None, below, m);
      if res.exec.Done? {
        BucketsConserve(w, step, AfterBucket(tally, res.exec), down, res.mem);
        BucketCollects(w, m, tally, res, BucketsRun(w, step, AfterBucket(tally, res.exec), down, res.mem));
      }
    }
  }

  lemma BucketCollects(w: World, m: Memory, tally: Tally, res: Ran, r: Ran)
    requires tally.routed != [] && res.exec.Done? && Conserves(w, m, res, multiset(tally.routed[0].items))
    requires Collects(w, res.mem, AfterBucket(tally, res.exec), r)
    ensures Collects(w, m, tally, r)
  {
    if r.exec.Done? && WellBehaved(w.hooks) && Distinct(multiset(FlatBuckets(tally.routed))) {
      var bucket, rest := multiset(tally.routed[0].items), multiset(FlatBuckets(tally.routed[1..]));
      assert multiset(FlatBuckets(tally.routed)) == bucket + rest;
      DistinctPart(bucket, bucket + rest);
      DistinctPart(rest, bucket + rest);
      var a, j, s := multiset(tally.accepted), multiset(tally.rejected), multiset(tally.skipped);
      var a', j', s' := multiset(res.exec.accepted), multiset(res.exec.rejected), multiset(res.exec.skipped);
      assert (a + a') + (j + j') + (s + s') + rest == a + j + s + ((a' + j' + s') + rest);
      assert multiset(tally.accepted + res.exec.accepted) == a + a';
      FinalizedGrows(m, res.mem, r.mem);
    }
  }

  lemma {:induction false} ForeachConserves(w: World, step: Step, items: seq<Item>, retries: Option<int>,
                                            down: set<string>, m: Memory)
    requires step.Foreach?
    requires RoutesWithin(w, TargetsOf(step.onReject), down) && RoutesWithin(w, RouteTargets(step.steps), down)
    ensures Conserves(w, m, ForeachRun(w, step, items, retries, down, m), multiset(items))
    decreases down, step, 2
  {
    if step.batch >= 1 {
      BatchesRefineSource(items, step.batch, step.key);
      var queue := Batches(items, step.batch, step.key);
      var b := BatchesRun(w, step, queue, EmptyTally(), retries, down, m);
      BatchesAdd(w, step, queue, EmptyTally(), retries, down, m);
      if b.Batched? {
        BucketsConserve(w, step, b.tally, down, b.mem);
        TallyConserves(w, m, items, queue, b, BucketsRun(w, step, b.tally, down, b.mem));
      }
    }
  }

  lemma TallyConserves(w: World, m: Memory, items: seq<Item>, queue: seq<seq<Item>>, b: Batched, r: Ran)
    requires multiset(Flat(queue)) == multiset(items) && b.Batched?
    requires Adds(w, m, EmptyTally(), Flat(queue), b.mem, b.tally) && Collects(w, b.mem, b.tally, r)
    requires r.exec.Done? ==> !r.exec.aborted
    ensures Conserves(w, m, r, multiset(items))
  {
    if r.exec.Done? && WellBehaved(w.hooks) && Distinct(multiset(items)) {
      assert Total(EmptyTally()) == multiset{};
      assert Total(b.tally) == multiset(items);
      DistinctPart(multiset(FlatBuckets(b.tally.routed)), multiset(items));
      FinalizedGrows(m, b.mem, r.mem);
    }
  }

  /** The windows of a foreach are its items in batch order: grouped, then cut, never shuffled. */
  lemma WindowsRefineSource(w: World, step: Step, items: seq<Item>, retries: Option<int>, down: set<string>, m: Memory)
    requires step.Foreach? && step.batch >= 1 && RoutesWithin(w, RouteTargets(step.steps), down)
    ensures WithinSize(Batches(items, step.batch, step.key), step.batch)
    ensures var b := BatchesRun(w, step, Batches(items, step.batch, step.key), EmptyTally(), retries, down, m);
      b.Batched? ==> Flat(b.windows) == BatchOrder(items, step.key) && WithinSize(b.windows, step.batch)
  {
    BatchesRefineSource(items, step.batch, step.key);
    BatchesAdd(w, step, Batches(items, step.batch, step.key), EmptyTally(), retries, down, m);
  }
}
