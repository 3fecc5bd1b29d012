/** The route graph: nodes are pipeline and fragment ids, edges lead to the fragments that rejected
    items are routed to. Paths, cycles, reachability, and the depth-first cycle search. */
module RouteGraph {
  import opened Prelude

  type Graph = map<string, seq<string>>

  function Targets(g: Graph, n: string): seq<string> {
    if n in g then g[n] else []
  }

  ghost predicate IsPath(g: Graph, p: seq<string>) {
    |p| > 0 && forall i :: 0 <= i < |p| - 1 ==> p[i + 1] in Targets(g, p[i])
  }

  ghost predicate IsCycle(g: Graph, c: seq<string>) {
    |c| > 1 && IsPath(g, c) && c[0] == c[|c| - 1]
  }

  ghost predicate Acyclic(g: Graph) {
    forall c :: !IsCycle(g, c)
  }

  ghost predicate Connects(g: Graph, p: seq<string>, x: string, y: string) {
    IsPath(g, p) && p[0] == x && p[|p| - 1] == y
  }

  /** `y` can be reached from `x` in any number of steps, none included. */
  ghost predicate Reaches(g: Graph, x: string, y: string) {
    exists p :: Connects(g, p, x, y)
  }

  ghost predicate ReachesCycle(g: Graph, n: string) {
    exists c :: IsCycle(g, c) && Reaches(g, n, c[0])
  }

  // ----- Order certificates: how a finished search proves the absence of cycles -----

  /** Every edge out of the sequence leads to an earlier element of it. */
  ghost predicate IsTopological(g: Graph, order: seq<string>) {
    && (forall i, j :: 0 <= i < j < |order| ==> order[i] != order[j])
    && (forall i, t :: 0 <= i < |order| && t in Targets(g, order[i]) ==> t in order[..i])
  }

  lemma {:induction false} PathsDescend(g: Graph, order: seq<string>, p: seq<string>, i: nat) returns (j: nat)
    requires IsTopological(g, order) && IsPath(g, p) && i < |order| && p[0] == order[i]
    ensures j < |order| && p[|p| - 1] == order[j] && j + |p| - 1 <= i
    decreases |p|
  {
    if |p| == 1 {
      j := i;
    } else {
      assert p[1] in order[..i];
      var k :| 0 <= k < i && order[k] == p[1];
      assert forall m :: 0 <= m < |p| - 2 ==> p[1..][m + 1] in Targets(g, p[1..][m]);
      j := PathsDescend(g, order, p[1..], k);
    }
  }

  lemma TopologicalNodesReachNoCycle(g: Graph, order: seq<string>, n: string)
    requires IsTopological(g, order) && n in order
    ensures !ReachesCycle(g, n)
  {
    if ReachesCycle(g, n) {
      var c :| IsCycle(g, c) && Reaches(g, n, c[0]);
      var p :| Connects(g, p, n, c[0]);
      var i :| 0 <= i < |order| && order[i] == n;
      var j := PathsDescend(g, order, p, i);
      var k := PathsDescend(g, order, c, j);
    }
  }

  lemma EmptyGraphAcyclic()
    ensures Acyclic(map[])
  {
    forall c
      ensures !IsCycle(map[], c)
    {
      assert |c| > 1 ==> c[0 + 1] !in Targets(map[], c[0]);
    }
  }

  // ----- Registration: only the entry of one node changes -----

  /** Re-targeting one node of an acyclic graph can only create cycles that this node reaches, so
      searching from it alone decides whether the whole graph stays acyclic. */
  lemma RetargetedGraphAcyclic(g: Graph, n: string, targets: seq<string>)
    requires Acyclic(g)
    ensures Acyclic(g[n := targets]) <==> !ReachesCycle(g[n := targets], n)
  {
    var h := g[n := targets];
    if !ReachesCycle(h, n) {
      forall c
        ensures !IsCycle(h, c)
      {
        if IsCycle(h, c) {
          if n in c {
            var i :| 0 <= i < |c| && c[i] == n;
            assert Connects(h, c[i..], n, c[0]);
          } else {
            CycleElsewhere(g, n, targets, c);
          }
        }
      }
    }
  }

  lemma CycleElsewhere(g: Graph, n: string, targets: seq<string>, c: seq<string>)
    requires n !in c
    ensures IsCycle(g[n := targets], c) <==> IsCycle(g, c)
  {
    assert forall i :: 0 <= i < |c| ==> Targets(g[n := targets], c[i]) == Targets(g, c[i]);
  }

  /** A cycle that appears when one node of an acyclic graph is re-targeted contains that node. */
  lemma CycleContainsNode(g: Graph, n: string, targets: seq<string>, c: seq<string>)
    requires Acyclic(g) && IsCycle(g[n := targets], c)
    ensures n in c
  {
    if n !in c {
      CycleElsewhere(g, n, targets, c);
    }
  }

  /** Every cycle that a re-targeted node can reach contains it. */
  ghost predicate CyclesContain(g: Graph, n: string, targets: seq<string>) {
    forall c :: IsCycle(g[n := targets], c) && Reaches(g[n := targets], n, c[0]) ==> n in c
  }

  /** This is so for every registration exactly if the graph before it is acyclic. */
  lemma CyclesContainIff(g: Graph)
    ensures (forall n, targets :: CyclesContain(g, n, targets)) <==> Acyclic(g)
  {
    if Acyclic(g) {
      forall n, targets
        ensures CyclesContain(g, n, targets)
      {
        forall c | IsCycle(g[n := targets], c)
          ensures n in c
        {
          CycleContainsNode(g, n, targets, c);
        }
      }
    } else {
      var c :| IsCycle(g, c);
      var n := Longer(c);
      var h := g[n := [c[0]]];
      CycleElsewhere(g, n, [c[0]], c);
      assert Connects(h, [n, c[0]], n, c[0]);
      assert !CyclesContain(g, n, [c[0]]);
    }
  }

  /** A name longer than all the given ones. */
  function Longer(names: seq<string>): (n: string)
    ensures forall i :: 0 <= i < |names| ==> |names[i]| < |n|
  {
    if names == [] then "" else Longer(names[..|names| - 1]) + names[|names| - 1] + "x"
  }

  /** The graph that a refused registration of "b", routed to itself, has left behind: registering "a",
      routed to "b", then finds a cycle, and no cycle contains "a". */
  lemma CycleWithoutTheNode()
    ensures var h := (map["b" := ["b"]])["a" := ["b"]];
      ReachesCycle(h, "a") && IsCycle(h, ["b", "b"]) && forall c :: IsCycle(h, c) ==> "a" !in c
  {
    var h: Graph := (map["b" := ["b"]])["a" := ["b"]];
    assert IsCycle(h, ["b", "b"]);
    assert Connects(h, ["a", "b"], "a", "b");
    forall c | IsCycle(h, c)
      ensures "a" !in c
    {
      forall i | 0 <= i < |c|
        ensures c[i] != "a"
      {
        var j := if i == 0 then |c| - 2 else i - 1;
        assert c[j + 1] in Targets(h, c[j]);
      }
    }
  }

  /** A sequence of registrations, each of which found no cycle from its own node. */
  ghost predicate AllAccepted(g: Graph, registrations: seq<(string, seq<string>)>)
    decreases |registrations|
  {
    registrations != [] ==>
      var h := g[registrations[0].0 := registrations[0].1];
      !ReachesCycle(h, registrations[0].0) && AllAccepted(h, registrations[1..])
  }

  function Registered(g: Graph, registrations: seq<(string, seq<string>)>): Graph
    decreases |registrations|
  {
    if registrations == [] then g
    else Registered(g[registrations[0].0 := registrations[0].1], registrations[1..])
  }

  /** The last registration of an id decides its targets. */
  lemma {:induction false} LastRegistrationCounts(g: Graph, registrations: seq<(string, seq<string>)>, n: string,
                                                  targets: seq<string>)
    ensures Registered(g, registrations + [(n, targets)]) == Registered(g, registrations)[n := targets]
    decreases |registrations|
  {
    var all, none: seq<(string, seq<string>)> := registrations + [(n, targets)], [];
    if registrations == [] {
      assert all[1..] == none && Registered(g[n := targets], none) == g[n := targets];
    } else {
      assert all[1..] == registrations[1..] + [(n, targets)];
      LastRegistrationCounts(g[registrations[0].0 := registrations[0].1], registrations[1..], n, targets);
    }
  }

  /** After any sequence of non-throwing registrations and re-registrations the whole route graph
      is acyclic. */
  lemma {:induction false} AcceptedRegistrationsAcyclic(g: Graph, registrations: seq<(string, seq<string>)>)
    requires Acyclic(g) && AllAccepted(g, registrations)
    ensures Acyclic(Registered(g, registrations))
    decreases |registrations|
  {
    if registrations != [] {
      var n, targets := registrations[0].0, registrations[0].1;
      RetargetedGraphAcyclic(g, n, targets);
      AcceptedRegistrationsAcyclic(g[n := targets], registrations[1..]);
    }
  }

  // ----- Descendants: the well-founded measure of routing -----

  ghost function Nodes(g: Graph): set<string> {
    g.Keys + set n, t | n in g && t in g[n] :: t
  }

  /** `n` and everything routable from it. */
  ghost function Descendants(g: Graph, n: string): set<string> {
    set m | m in Nodes(g) + {n} && Reaches(g, n, m)
  }

  lemma ReachesSelf(g: Graph, n: string)
    ensures Reaches(g, n, n) && n in Descendants(g, n)
  {
    assert Connects(g, [n], n, n);
  }

  lemma ReachesThroughEdge(g: Graph, n: string, t: string, m: string)
    requires t in Targets(g, n) && Reaches(g, t, m)
    ensures Reaches(g, n, m)
  {
    var p :| Connects(g, p, t, m);
    var q := [n] + p;
    assert forall i :: 0 < i < |q| ==> q[i] == p[i - 1];
    assert Connects(g, q, n, m);
  }

  /** An edge out of a node back to which it leads closes a cycle. */
  lemma EdgeClosesCycle(g: Graph, n: string, t: string)
    requires t in Targets(g, n) && Reaches(g, t, n)
    ensures ReachesCycle(g, n)
  {
    var p :| Connects(g, p, t, n);
    var q := [n] + p;
    assert forall i :: 0 < i < |q| ==> q[i] == p[i - 1];
    assert IsCycle(g, q);
    ReachesSelf(g, n);
  }

  /** Along an edge out of a node that reaches no cycle the descendants shrink, and never include the
      source; and the other end reaches no cycle either. */
  lemma DescendantsShrink(g: Graph, n: string, t: string)
    requires !ReachesCycle(g, n) && t in Targets(g, n)
    ensures Descendants(g, t) <= Descendants(g, n) - {n} && !ReachesCycle(g, t)
  {
    if ReachesCycle(g, t) {
      var c :| IsCycle(g, c) && Reaches(g, t, c[0]);
      ReachesThroughEdge(g, n, t, c[0]);
    }
    forall m | m in Descendants(g, t)
      ensures m in Descendants(g, n) - {n}
    {
      ReachesThroughEdge(g, n, t, m);
      assert m in Nodes(g) + {n};
      if m == n {
        EdgeClosesCycle(g, n, t);
      }
    }
  }

  // ----- The search -----

  datatype Color = Gray | Black

  /** One run of the white / gray / black search; absent from `color` means white. */
  class CycleSearch {
    const routeTargets: Graph
    var color: map<string, Color>
    var path: seq<string>
    /** Black nodes in the order in which they were finished. */
    ghost var order: seq<string>

    ghost predicate Valid()
      reads this
    {
      && (forall n :: n in color && color[n] == Gray <==> n in path)
      && (forall n :: n in color && color[n] == Black <==> n in order)
      && (path != [] ==> IsPath(routeTargets, path))
      && IsTopological(routeTargets, order)
    }

    constructor (routeTargets: Graph)
      ensures this.routeTargets == routeTargets
      ensures Valid() && path == [] && order == [] && color == map[]
    {
      this.routeTargets := routeTargets;
      color, path, order := map[], [], [];
    }

    /** Put a white node on the stack. */
    method Enter(n: string)
      requires Valid() && n !in color && (path != [] ==> n in Targets(routeTargets, path[|path| - 1]))
      modifies this
      ensures Valid() && path == old(path) + [n] && order == old(order)
      ensures color == old(color)[n := Gray]
    {
      color := color[n := Gray];
      path := path + [n];
    }

    /** Take a node whose targets are all black off the stack and blacken it. */
    method Leave(n: string, ghost below: seq<string>)
      requires Valid() && path == below + [n] && n !in below
      requires forall t :: t in Targets(routeTargets, n) ==> t in order
      modifies this
      ensures Valid() && path == below && order == old(order) + [n] && color == old(color)[n := Black]
    {
      assert n in path;
      ExtendTopological(routeTargets, order, n);
      path := path[..|path| - 1];
      assert path == below;
      color := color[n := Black];
      order := order + [n];
    }

    /** Visit a white node. Without a cycle it ends up black and the stack is as before. */
    method Visit(n: string, ghost universe: set<string>) returns (cycle: Option<seq<string>>)
      requires Valid() && n !in color && n in universe && Nodes(routeTargets) <= universe
      requires path != [] ==> n in Targets(routeTargets, path[|path| - 1])
      modifies this
      ensures cycle.None? ==> Valid() && path == old(path) && n in order
      ensures cycle.None? ==> old(color.Keys) <= color.Keys && old(order) <= order
      ensures cycle.Some? ==>
        IsCycle(routeTargets, cycle.value) && Reaches(routeTargets, old(path + [n])[0], cycle.value[0])
      decreases universe - color.Keys
    {
      ghost var below := path;
      Enter(n);
      ghost var entered := path;
      var targets := Targets(routeTargets, n);
      var i := 0;
      while i < |targets|
        invariant i <= |targets|
        invariant Valid() && path == entered && old(color.Keys) + {n} <= color.Keys && old(order) <= order
        invariant forall j :: 0 <= j < i ==> targets[j] in order
      {
        var target := targets[i];
        assert n in routeTargets && target in routeTargets[n];
        if target in color && color[target] == Gray {
          var from := IndexOf(path, target);
          CloseCycle(routeTargets, path, from);
          return Some(path[from..] + [target]);
        }
        if target !in color {
          var found := Visit(target, universe);
          if found.Some? {
            assert (entered + [target])[0] == entered[0];
            return found;
          }
        }
        i := i + 1;
      }
      Leave(n, below);
      return None;
    }
  }

  /** A node whose targets are all finished can be finished. */
  lemma ExtendTopological(g: Graph, order: seq<string>, n: string)
    requires IsTopological(g, order) && n !in order && forall t :: t in Targets(g, n) ==> t in order
    ensures IsTopological(g, order + [n])
  {
    var longer := order + [n];
    forall i, t | 0 <= i < |longer| && t in Targets(g, longer[i])
      ensures t in longer[..i]
    {
      assert longer[..i] == order[..i];
    }
  }

  /** An edge back into the stack closes a cycle that the bottom of the stack reaches. */
  lemma CloseCycle(g: Graph, path: seq<string>, from: nat)
    requires IsPath(g, path) && from < |path| && path[from] in Targets(g, path[|path| - 1])
    ensures IsCycle(g, path[from..] + [path[from]]) && Reaches(g, path[0], path[from])
  {
    var c := path[from..] + [path[from]];
    assert forall i :: 0 <= i < |c| - 1 ==> c[i] == path[from + i];
    assert Connects(g, path[..from + 1], path[0], path[from]);
  }

  /** The search from one node: a returned path is a cycle the node reaches, and none is returned
      exactly when the node reaches no cycle. Before a registration into an acyclic graph the cycle
      contains the node: see `CyclesContainIff`. */
  method FindCycle(g: Graph, n: string) returns (cycle: Option<seq<string>>)
    ensures cycle.Some? <==> ReachesCycle(g, n)
    ensures cycle.Some? ==> IsCycle(g, cycle.value) && Reaches(g, n, cycle.value[0])
  {
    var search := new CycleSearch(g);
    cycle := search.Visit(n, Nodes(g) + {n});
    if cycle.None? {
      TopologicalNodesReachNoCycle(g, search.order, n);
    }
  }

  function IndexOf(s: seq<string>, x: string): (i: nat)
    requires x in s
    ensures i < |s| && s[i] == x
  {
    if s[0] == x then 0 else 1 + IndexOf(s[1..], x)
  }
}
