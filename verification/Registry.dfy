/** Registration of pipelines and fragments, and the start of a run. */
module Registry {
  import opened Prelude
  import opened Pipeline
  import opened RouteGraph
  import opened EngineMeaning
  import opened EngineConservation
  import opened Engine

  datatype RegistrationError = EmptyId | RouteCycle(path: seq<string>)

  /** The route graph is acyclic and knows every fragment's routes. */
  ghost predicate KnowsRoutes(g: Graph, fragments: map<string, seq<Step>>) {
    Acyclic(g) && forall f :: f in fragments ==> f in g && g[f] == RouteTargets(fragments[f])
  }

  /** Then no fragment can route back to itself, through whatever others. */
  lemma NoFragmentReachesACycle(g: Graph, fragments: map<string, seq<Step>>)
    requires KnowsRoutes(g, fragments)
    ensures forall t :: !ReachesCycle(FragmentGraph(fragments), t)
  {
    forall c
      ensures !IsCycle(FragmentGraph(fragments), c)
    {
      if IsCycle(FragmentGraph(fragments), c) {
        forall i | 0 <= i < |c| - 1
          ensures c[i + 1] in Targets(g, c[i])
        {
          assert c[i + 1] in Targets(FragmentGraph(fragments), c[i]);
        }
        assert IsCycle(g, c);
      }
    }
  }

  /** A registration stores its entry before it is checked. Under the route-graph invariant it keeps
      the invariant exactly when its own node reaches no cycle and it does not overwrite the routes
      of a fragment of the same id. */
  lemma PipelineKeepsRoutes(g: Graph, fragments: map<string, seq<Step>>, id: string, targets: seq<string>)
    requires KnowsRoutes(g, fragments)
    ensures KnowsRoutes(g[id := targets], fragments) <==>
            !ReachesCycle(g[id := targets], id) && (id in fragments ==> targets == RouteTargets(fragments[id]))
  {
    RetargetedGraphAcyclic(g, id, targets);
  }

  lemma FragmentKeepsRoutes(g: Graph, fragments: map<string, seq<Step>>, id: string, steps: seq<Step>)
    requires KnowsRoutes(g, fragments)
    ensures KnowsRoutes(g[id := RouteTargets(steps)], fragments[id := steps]) <==>
            !ReachesCycle(g[id := RouteTargets(steps)], id)
  {
    RetargetedGraphAcyclic(g, id, RouteTargets(steps));
  }

  /** A fragment that verifies its items one by one and routes what fails to itself, without a limit. */
  function SelfRouting(f: string, verifier: string): Step {
    Foreach(1, None, [Verify(verifier)], [Route(None, f, None)], false)
  }

  lemma FailingAlone(h: Hooks, clock: nat, item: Item)
    requires !h.verify(clock, item)
    ensures Passing(h, clock, [item]) == [] && Failing(h, clock, [item]) == [item]
  {
    var none: seq<Item> := [];
    assert [item][1..] == none;
    assert Passing(h, clock + 1, none) == none && Failing(h, clock + 1, none) == none;
  }

  lemma FailingBody(w: World, verifier: string, item: Item, down: set<string>, m: Memory)
    requires verifier in w.verifiers && forall t :: !w.hooks.throws(t) && !w.hooks.verify(t, item)
    ensures ScopeRun(w, [Verify(verifier)], [item], None, down, m)
         == Ran(Done([], [item], [], false), m.(clock := m.clock + 1))
  {
    var step, none: seq<Step> := Verify(verifier), [];
    assert [step][1..] == none;
    FailingAlone(w.hooks, m.clock, item);
    assert StepRun(w, step, [item], None, down, m) == Ran(Done([], [item], [], false), m.(clock := m.clock + 1));
  }

  lemma RouteToSelf(f: string, verifier: string, item: Item, attempts: Attempts)
    ensures var r := RouteItems(SelfRouting(f, verifier).onReject, [item], Routing(EmptyTally(), attempts));
      r.tally == Tally([], [], [], [Bucket(f, [item])])
  {
    var routes := SelfRouting(f, verifier).onReject;
    assert [item][..0] == [];
    assert RouteItems(routes, [], Routing(EmptyTally(), attempts)) == Routing(EmptyTally(), attempts);
    assert FirstMatch(routes, item) == Some(0);
  }

  /** Its batches over an item that always fails, whatever has happened before, leave the same item in a
      bucket for the same fragment. Registration refuses such a fragment but keeps it, and a run through
      it goes round forever. */
  lemma SelfRouteGoesRound(w: World, f: string, verifier: string, item: Item, down: set<string>, m: Memory)
    requires verifier in w.verifiers && forall t :: !w.hooks.throws(t) && !w.hooks.verify(t, item)
    ensures var step := SelfRouting(f, verifier);
      && Batches([item], step.batch, step.key) == [[item]]
      && var b := BatchesRun(w, step, [[item]], EmptyTally(), None, down, m);
         b.Batched? && b.tally == Tally([], [], [], [Bucket(f, [item])])
  {
    var step := SelfRouting(f, verifier);
    var none: seq<seq<Item>> := [];
    assert [item][0..1] == [item] && ChunksFrom([item], 1, 1) == none;
    assert [[item]][1..] == none;
    assert Draw(w.hooks, step, [item], none, None, m.clock) == Drawn([item], none, None, m.clock);
    FailingBody(w, verifier, item, down, m);
    var body := Ran(Done([], [item], [], false), m.(clock := m.clock + 1));
    assert Collected(EmptyTally(), body.exec) == EmptyTally();
    RouteToSelf(f, verifier, item, m.attempts);
    var routing := Routed(step, EmptyTally(), body);
    RoutedKeeps(step, EmptyTally(), body);
    assert BatchesRun(w, step, none, routing.tally, None, down, body.mem.(attempts := routing.attempts))
        == Batched(routing.tally, [], body.mem.(attempts := routing.attempts));
  }

  /** Pipelines and fragments share one graph: registering fragment "a" (routing to "b"), pipeline
      "a" (no routes) and fragment "b" (routing to "a") passes every check, and yet the two
      fragments route to each other. */
  lemma SharedIdsHideACycle()
    ensures AllAccepted(map[], [("a", ["b"]), ("a", []), ("b", ["a"])])
    ensures !Acyclic(map["a" := ["b"], "b" := ["a"]])
  {
    var g1, g2 := map["a" := ["b"]], map["a" := []];
    var g3 := g2["b" := ["a"]];
    assert map[]["a" := ["b"]] == g1 && g1["a" := []] == g2;
    TwoNodesTopological(g1, "b", "a");
    TopologicalNodesReachNoCycle(g1, ["b", "a"], "a");
    assert IsTopological(g2, ["a"]);
    TopologicalNodesReachNoCycle(g2, ["a"], "a");
    TwoNodesTopological(g3, "a", "b");
    TopologicalNodesReachNoCycle(g3, ["a", "b"], "b");
    var r1, r2 := [("a", []), ("b", ["a"])], [("b", ["a"])];
    assert [("a", ["b"]), ("a", []), ("b", ["a"])][1..] == r1 && r1[1..] == r2 && r2[1..] == [];
    assert AllAccepted(g2, r2) && AllAccepted(g1, r1);
    assert IsCycle(map["a" := ["b"], "b" := ["a"]], ["a", "b", "a"]);
  }

  lemma TwoNodesTopological(g: Graph, x: string, y: string)
    requires x != y && Targets(g, x) == [] && forall t :: t in Targets(g, y) ==> t == x
    ensures IsTopological(g, [x, y])
  {
    assert [x, y][..0] == [] && [x, y][..1] == [x];
  }

  class PipelineEngine {
    var pipelines: map<string, seq<Step>>
    var fragments: map<string, seq<Step>>
    var routeTargets: Graph

    /** Every entry is in the graph with its own routes, the graph is acyclic, and no id names both
        a pipeline and a fragment. */
    ghost predicate Valid()
      reads this
    {
      && KnowsRoutes(routeTargets, fragments) && pipelines.Keys !! fragments.Keys
      && forall p :: p in pipelines ==> p in routeTargets && routeTargets[p] == RouteTargets(pipelines[p])
    }

    constructor ()
      ensures Valid() && pipelines == map[] && fragments == map[]
    {
      pipelines, fragments, routeTargets := map[], map[], map[];
      EmptyGraphAcyclic();
    }

    /** Accepted exactly when the stored graph has no cycle that the pipeline reaches; from a valid
        state, with an id no fragment has, exactly when the whole stored graph is acyclic. */
    method RegisterPipeline(id: string, steps: seq<Step>) returns (error: Option<RegistrationError>)
      modifies this
      ensures id == "" ==> error == Some(EmptyId) && pipelines == old(pipelines) && routeTargets == old(routeTargets)
      ensures id != "" ==>
        && pipelines == old(pipelines)[id := steps] && routeTargets == old(routeTargets)[id := RouteTargets(steps)]
        && (error.None? <==> !ReachesCycle(routeTargets, id))
        && (error.Some? ==> error.value.RouteCycle? && IsCycle(routeTargets, error.value.path))
        && (error.Some? && old(Acyclic(routeTargets)) ==> id in error.value.path)
      ensures fragments == old(fragments)
      ensures old(Valid()) && id !in fragments ==>
        (error.None? ==> Valid()) && (id != "" && error.Some? ==> !Acyclic(routeTargets))
    {
      if id == "" {
        return Some(EmptyId);
      }
      pipelines := pipelines[id := steps];
      var targets := CollectRouteTargets(steps, []);
      ghost var before := routeTargets;
      routeTargets := routeTargets[id := targets];
      assert targets == RouteTargets(steps);
      if old(Valid()) {
        PipelineKeepsRoutes(before, fragments, id, targets);
      }
      error := RejectCycle(id);
      if error.Some? && Acyclic(before) {
        CycleContainsNode(before, id, targets, error.value.path);
      }
    }

    method RegisterFragment(id: string, steps: seq<Step>) returns (error: Option<RegistrationError>)
      modifies this
      ensures id == "" ==> error == Some(EmptyId) && fragments == old(fragments) && routeTargets == old(routeTargets)
      ensures id != "" ==>
        && fragments == old(fragments)[id := steps] && routeTargets == old(routeTargets)[id := RouteTargets(steps)]
        && (error.None? <==> !ReachesCycle(routeTargets, id))
        && (error.Some? ==> error.value.RouteCycle? && IsCycle(routeTargets, error.value.path))
        && (error.Some? && old(Acyclic(routeTargets)) ==> id in error.value.path)
      ensures pipelines == old(pipelines)
      ensures old(Valid()) && id !in pipelines ==>
        (error.None? ==> Valid()) && (id != "" && error.Some? ==> !Acyclic(routeTargets))
    {
      if id == "" {
        return Some(EmptyId);
      }
      ghost var before, had := routeTargets, fragments;
      fragments := fragments[id := steps];
      var targets := CollectRouteTargets(steps, []);
      routeTargets := routeTargets[id := targets];
      assert targets == RouteTargets(steps);
      if old(Valid()) {
        FragmentKeepsRoutes(before, had, id, steps);
      }
      error := RejectCycle(id);
      if error.Some? && Acyclic(before) {
        CycleContainsNode(before, id, targets, error.value.path);
      }
    }

    method RejectCycle(id: string) returns (error: Option<RegistrationError>)
      ensures error.None? <==> !ReachesCycle(routeTargets, id)
      ensures error.Some? ==> error.value.RouteCycle? && IsCycle(routeTargets, error.value.path)
    {
      var cycle := FindCycle(routeTargets, id);
      error := if cycle.Some? then Some(RouteCycle(cycle.value)) else None;
    }

    /** No fragment that the pipeline leads to can route back to itself. */
    ghost predicate Terminates(id: string)
      reads this
    {
      id in pipelines ==>
        forall t :: t in RouteTargets(pipelines[id]) && t in fragments ==> !ReachesCycle(FragmentGraph(fragments), t)
    }

    /** Run a registered pipeline over the items its plan produced. The run ends whatever the hooks
        answer, does what its steps mean, and its outcome accounts for every planned item exactly once. */
    method RunPipeline(id: string, planned: seq<Item>, verifiers: set<string>, hooks: Hooks)
      returns (outcome: Option<Exec>, run: Run)
      requires Valid() || Terminates(id)
      ensures outcome.None? <==> id !in pipelines
      ensures outcome.Some? ==>
        var w, down := World(fragments, verifiers, hooks), Nodes(FragmentGraph(fragments));
        && RoutesWithin(w, RouteTargets(pipelines[id]), down)
        && outcome.value == ScopeRun(w, pipelines[id], planned, None, down, Memory(0, map[], [])).exec
      ensures outcome.Some? && outcome.value.Done? && WellBehaved(hooks) && Distinct(multiset(planned)) ==>
        && Everything(outcome.value) == multiset(planned)
        && multiset(run.finalized) <= multiset(outcome.value.accepted)
    {
      run := new Run(fragments, verifiers, hooks);
      if id !in pipelines {
        return None, run;
      }
      ghost var down := Nodes(FragmentGraph(fragments));
      if Valid() {
        NoFragmentReachesACycle(routeTargets, fragments);
      }
      assert RoutesWithin(run.W(), RouteTargets(pipelines[id]), down);
      ScopeConserves(run.W(), pipelines[id], planned, None, down, run.Mem());
      var r := run.RunScope(pipelines[id], planned, None, down);
      assert run.finalized[0..] == run.finalized;
      outcome := Some(r);
    }
  }
}
