/** Triggers: when a run has accepted every item of a unit, the pipelines that wait for the unit run, once
    per pipeline and unit. */
module Triggers {
  import opened Prelude
  import opened Pipeline

  datatype Outcome = Outcome(accepted: seq<Item>, rejected: seq<Item>, skipped: seq<Item>)

  function AllItems(o: Outcome): seq<Item> {
    o.accepted + o.rejected + o.skipped
  }

  predicate InUnit(item: Item, unit: string) {
    item.unitId == Some(unit) && unit != ""
  }

  predicate Accepted(o: Outcome, item: Item) {
    item !in o.rejected && item !in o.skipped
  }

  ghost predicate Seen(items: seq<Item>, unit: string) {
    exists item :: item in items && InUnit(item, unit)
  }

  ghost predicate Missed(o: Outcome, items: seq<Item>, unit: string) {
    exists item :: item in items && InUnit(item, unit) && !Accepted(o, item)
  }

  /** The run saw items of the unit and accepted all of them. */
  ghost predicate Complete(o: Outcome, unit: string) {
    Seen(AllItems(o), unit) && !Missed(o, AllItems(o), unit)
  }

  /** A unit is complete exactly if some accepted item is of it, and no rejected or skipped one. */
  lemma CompleteIff(o: Outcome, unit: string)
    ensures Complete(o, unit) <==>
      && unit != ""
      && (exists item: Item :: item in o.accepted && item.unitId == Some(unit))
      && (forall item: Item :: item in o.rejected || item in o.skipped ==> item.unitId != Some(unit))
  {
    assert forall item: Item :: item in AllItems(o) <==> item in o.accepted || item in o.rejected || item in o.skipped;
    if unit != "" {
      assert forall item: Item :: item.unitId == Some(unit) ==> InUnit(item, unit);
    }
  }

  // ----- Keys -----

  function Key(pipeline: string, unit: string): string {
    pipeline + ":" + unit
  }

  lemma KeyOfPrefix(p: string, q: string, unit: string)
    requires p + ":" <= q
    ensures var x := q[|p| + 1..]; Key(q, unit) == Key(p, x + ":" + unit)
  {
    var x := q[|p| + 1..];
    assert q == p + ":" + x;
    assert p + ":" + x + ":" + unit == p + ":" + (x + ":" + unit);
  }

  lemma SameUnit(p: string, u: string, v: string)
    requires Key(p, u) == Key(p, v)
    ensures u == v
  {
    assert Key(p, u)[|p| + 1..] == u && Key(p, v)[|p| + 1..] == v;
  }

  lemma ShorterIsPrefix(p: string, q: string, u: string, v: string)
    requires Key(p, u) == Key(q, v) && |p| < |q|
    ensures p + ":" <= q
  {
    var k := Key(q, v);
    assert Key(p, u)[..|p| + 1] == p + ":" && k[..|q|] == q;
    assert k[..|q|][..|p| + 1] == k[..|p| + 1];
  }

  lemma SameLength(p: string, q: string, u: string, v: string)
    requires Key(p, u) == Key(q, v) && |p| == |q|
    ensures p == q
  {
    assert Key(p, u)[..|p|] == p && Key(q, v)[..|q|] == q;
  }

  ghost predicate Collide(p: string, q: string) {
    exists u, v :: Key(p, u) == Key(q, v)
  }

  /** Two pipelines can take one another's units away exactly if one id is the other with a colon and more
      behind it. */
  lemma CollideIff(p: string, q: string)
    requires p != q
    ensures Collide(p, q) <==> p + ":" <= q || q + ":" <= p
  {
    if p + ":" <= q {
      KeyOfPrefix(p, q, "");
    } else if q + ":" <= p {
      KeyOfPrefix(q, p, "");
    } else if Collide(p, q) {
      var u, v :| Key(p, u) == Key(q, v);
      if |p| < |q| {
        ShorterIsPrefix(p, q, u, v);
      } else if |q| < |p| {
        ShorterIsPrefix(q, p, v, u);
      } else {
        SameLength(p, q, u, v);
      }
    }
  }

  // ----- What an engine has done -----

  datatype Firing = Firing(pipeline: string, unit: string)

  /** A run, and its outcome unless it threw. */
  datatype Ran = Ran(pipeline: string, outcome: Option<Outcome>)

  /** `waiting` are the registered pipelines, each with the targets of its triggers. */
  datatype Log = Log(waiting: map<string, seq<string>>, fired: set<string>, runs: seq<Ran>, firings: seq<Firing>)

  function KeyOf(f: Firing): string {
    Key(f.pipeline, f.unit)
  }

  /** A run of that pipeline completed that unit. */
  ghost predicate Earned(l: Log, f: Firing) {
    exists r :: 0 <= r < |l.runs| && l.runs[r].pipeline == f.pipeline
                && l.runs[r].outcome.Some? && Complete(l.runs[r].outcome.value, f.unit)
  }

  /** Every firing has its own key and was earned, and the set holds the keys of the firings. */
  ghost predicate Valid(l: Log) {
    && (forall i, j :: 0 <= i < j < |l.firings| ==> KeyOf(l.firings[i]) != KeyOf(l.firings[j]))
    && (forall k :: k in l.fired <==> exists i :: 0 <= i < |l.firings| && KeyOf(l.firings[i]) == k)
    && (forall i :: 0 <= i < |l.firings| ==> Earned(l, l.firings[i]))
  }

  /** What a run completed is marked as fired, if its pipeline has triggers. */
  ghost predicate Served(l: Log, r: nat)
    requires r < |l.runs|
  {
    var run := l.runs[r];
    && run.pipeline in l.waiting && run.outcome.Some?
    && (l.waiting[run.pipeline] != [] ==>
        forall u :: Complete(run.outcome.value, u) ==> Key(run.pipeline, u) in l.fired)
  }

  lemma CountedOnce(l: Log, i: nat)
    requires Valid(l) && i < |l.firings|
    ensures multiset(l.firings)[l.firings[i]] == 1
  {
    var f := l.firings[i];
    var a, b := l.firings[..i], l.firings[i + 1..];
    assert l.firings == a + [f] + b;
    assert f !in a;
    assert f !in b;
  }

  predicate HasTriggers(waiting: map<string, seq<string>>, p: string) {
    p in waiting && waiting[p] != []
  }

  ghost predicate OnlyTriggersFire(l: Log) {
    forall i :: 0 <= i < |l.firings| ==> HasTriggers(l.waiting, l.firings[i].pipeline)
  }

  /** The r-th run is of a pipeline with triggers, was served, and completed the unit. */
  ghost predicate Completed(l: Log, r: nat, unit: string) {
    && r < |l.runs| && HasTriggers(l.waiting, l.runs[r].pipeline) && Served(l, r)
    && Complete(l.runs[r].outcome.value, unit)
  }

  /** For each completed unit, its pipeline has fired once. */
  ghost predicate AllFiredOnce(l: Log) {
    forall r: nat, unit | Completed(l, r, unit) :: multiset(l.firings)[Firing(l.runs[r].pipeline, unit)] == 1
  }

  /** No id with triggers is another one with a colon and more behind it. */
  ghost predicate Unambiguous(waiting: map<string, seq<string>>) {
    forall p, q :: HasTriggers(waiting, p) && HasTriggers(waiting, q) ==> !(p + ":" <= q)
  }

  lemma UnambiguousFires(l: Log)
    requires Valid(l) && OnlyTriggersFire(l) && Unambiguous(l.waiting)
    ensures AllFiredOnce(l)
  {
    forall r: nat, unit | Completed(l, r, unit)
      ensures multiset(l.firings)[Firing(l.runs[r].pipeline, unit)] == 1
    {
      var p := l.runs[r].pipeline;
      var i :| 0 <= i < |l.firings| && KeyOf(l.firings[i]) == Key(p, unit);
      var f := l.firings[i];
      if f.pipeline == p {
        SameUnit(p, f.unit, unit);
        CountedOnce(l, i);
      } else {
        CollideIff(p, f.pipeline);
      }
    }
  }

  /** A run whose only item, accepted, is of that unit. */
  function Completes(unit: string): Outcome {
    Outcome([Item("item", Some(unit), None, "", 0, map[])], [], [])
  }

  lemma CompletesOnly(unit: string, u: string)
    requires unit != ""
    ensures Complete(Completes(unit), u) <==> u == unit
  {
    var item := Completes(unit).accepted[0];
    assert AllItems(Completes(unit)) == [item];
    assert item in AllItems(Completes(unit)) && InUnit(item, unit);
  }

  /** The id q is p with a colon and x behind it: q completes "c" and fires, and then p completes x with
      ":c" behind it, which is marked already. */
  function TakenUnit(waiting: map<string, seq<string>>, p: string, q: string, x: string): Log {
    Log(waiting, {Key(q, "c")}, [Ran(q, Some(Completes("c"))), Ran(p, Some(Completes(x + ":c")))], [Firing(q, "c")])
  }

  lemma TakenUnitNeverFires(waiting: map<string, seq<string>>, p: string, q: string, x: string)
    requires HasTriggers(waiting, p) && HasTriggers(waiting, q) && q == p + ":" + x
    ensures var l := TakenUnit(waiting, p, q, x);
      && Valid(l) && OnlyTriggersFire(l) && Served(l, 0)
      && Completed(l, 1, x + ":c") && Firing(p, x + ":c") !in l.firings
  {
    var l := TakenUnit(waiting, p, q, x);
    assert |p| < |q|;
    KeyOfPrefix(p, q, "c");
    assert q[|p| + 1..] == x && x + ":" + "c" == x + ":c";
    forall u
      ensures Complete(Completes("c"), u) <==> u == "c"
      ensures Complete(Completes(x + ":c"), u) <==> u == x + ":c"
    {
      CompletesOnly("c", u);
      CompletesOnly(x + ":c", u);
    }
    assert l.runs[0].pipeline == q && KeyOf(l.firings[0]) == Key(q, "c");
  }

  /** Whatever has run: every completed unit fires, once, exactly if no registered id with triggers is
      another one with a colon and more behind it. */
  lemma ExactlyOnceIff(waiting: map<string, seq<string>>)
    ensures (forall l: Log :: l.waiting == waiting && Valid(l) && OnlyTriggersFire(l) ==> AllFiredOnce(l))
            <==> Unambiguous(waiting)
  {
    if Unambiguous(waiting) {
      forall l: Log | l.waiting == waiting && Valid(l) && OnlyTriggersFire(l)
        ensures AllFiredOnce(l)
      {
        UnambiguousFires(l);
      }
    } else {
      var p, q :| HasTriggers(waiting, p) && HasTriggers(waiting, q) && p + ":" <= q;
      var x := q[|p| + 1..];
      assert q == p + ":" + x;
      TakenUnitNeverFires(waiting, p, q, x);
      assert !AllFiredOnce(TakenUnit(waiting, p, q, x));
    }
  }

  // ----- The units of an outcome -----

  /** The units of some items, each once, and those of them with an item that was not accepted. */
  ghost predicate UnitsOf(units: seq<string>, missed: set<string>, o: Outcome, items: seq<Item>) {
    && (forall i, j :: 0 <= i < j < |units| ==> units[i] != units[j])
    && (forall u :: u in units <==> Seen(items, u))
    && (forall u :: u in missed <==> Missed(o, items, u))
  }

  /** The units that occur, and those that are not complete. */
  method Units(o: Outcome) returns (units: seq<string>, missed: set<string>)
    ensures forall i, j :: 0 <= i < j < |units| ==> units[i] != units[j]
    ensures forall u :: Complete(o, u) <==> u in units && u !in missed
  {
    var items := AllItems(o);
    units, missed := [], {};
    for n := 0 to |items|
      invariant UnitsOf(units, missed, o, items[..n])
    {
      var item := items[n];
      assert items[..n + 1] == items[..n] + [item];
      OneMoreItem(o, items[..n], item);
      if item.unitId.Some? && item.unitId.value != "" {
        var unit := item.unitId.value;
        if unit !in units {
          units := units + [unit];
        }
        if item in o.rejected || item in o.skipped {
          missed := missed + {unit};
        }
      }
    }
    assert items[..|items|] == items;
  }

  lemma OneMoreItem(o: Outcome, items: seq<Item>, item: Item)
    ensures forall u :: Seen(items + [item], u) <==> Seen(items, u) || InUnit(item, u)
    ensures forall u :: Missed(o, items + [item], u) <==> Missed(o, items, u) || (InUnit(item, u) && !Accepted(o, item))
  {
    assert item in items + [item];
    forall u
      ensures Seen(items, u) ==> Seen(items + [item], u)
      ensures Missed(o, items, u) ==> Missed(o, items + [item], u)
    {
      if Seen(items, u) {
        var x :| x in items && InUnit(x, u);
        assert x in items + [item];
      }
      if Missed(o, items, u) {
        var x :| x in items && InUnit(x, u) && !Accepted(o, x);
        assert x in items + [item];
      }
    }
  }

  // ----- How a log grows -----

  /** The pipelines that the firings ask for. */
  function Asked(waiting: map<string, seq<string>>, firings: seq<Firing>): multiset<string> {
    if firings == [] then multiset{}
    else
      var last := firings[|firings| - 1];
      Asked(waiting, firings[..|firings| - 1])
      + if last.pipeline in waiting then multiset(waiting[last.pipeline]) else multiset{}
  }

  function Pipelines(runs: seq<Ran>): seq<string> {
    seq(|runs|, i requires 0 <= i < |runs| => runs[i].pipeline)
  }

  ghost predicate Grows(a: Log, b: Log) {
    a.waiting == b.waiting && a.runs <= b.runs && a.firings <= b.firings && a.fired <= b.fired
  }

  /** From a to b, the runs are exactly those asked for, by the caller or by a firing, but for those owed. */
  ghost predicate Tallied(a: Log, b: Log, asked: multiset<string>, owed: multiset<string>) {
    && Grows(a, b)
    && multiset(Pipelines(b.runs[|a.runs|..])) + owed == asked + Asked(b.waiting, b.firings[|a.firings|..])
  }

  /** And every run ended, and what it completed has fired. */
  ghost predicate Complied(a: Log, b: Log, asked: multiset<string>, owed: multiset<string>) {
    Tallied(a, b, asked, owed) && forall r :: |a.runs| <= r < |b.runs| ==> Served(b, r)
  }

  /** At least these have not run, though they were asked for, and nothing has run that was not. */
  ghost predicate Lost(a: Log, b: Log, asked: multiset<string>, lost: multiset<string>) {
    exists owed :: lost <= owed && Tallied(a, b, asked, owed)
  }

  ghost predicate LostFrom(a: Log, b: Log, targets: seq<string>, j: nat) {
    j <= |targets| && Lost(a, b, multiset{}, multiset(targets[j..]))
  }

  /** The targets behind some first one have not run. */
  ghost predicate LostBehind(a: Log, b: Log, targets: seq<string>) {
    exists j: nat :: j >= 1 && LostFrom(a, b, targets, j)
  }

  lemma {:induction false} AskedConcat(waiting: map<string, seq<string>>, a: seq<Firing>, b: seq<Firing>)
    ensures Asked(waiting, a + b) == Asked(waiting, a) + Asked(waiting, b)
    decreases |b|
  {
    if b == [] {
      assert a + b == a;
    } else {
      assert (a + b)[..|a + b| - 1] == a + b[..|b| - 1];
      AskedConcat(waiting, a, b[..|b| - 1]);
    }
  }

  lemma SliceConcat<T>(a: seq<T>, b: seq<T>, c: seq<T>)
    requires a <= b <= c
    ensures c[|a|..] == b[|a|..] + c[|b|..]
  {
  }

  lemma Counted(a: Log, b: Log, c: Log)
    requires Grows(a, b) && Grows(b, c)
    ensures Grows(a, c)
    ensures multiset(Pipelines(c.runs[|a.runs|..]))
         == multiset(Pipelines(b.runs[|a.runs|..])) + multiset(Pipelines(c.runs[|b.runs|..]))
    ensures Asked(c.waiting, c.firings[|a.firings|..])
         == Asked(c.waiting, b.firings[|a.firings|..]) + Asked(c.waiting, c.firings[|b.firings|..])
  {
    SliceConcat(a.runs, b.runs, c.runs);
    SliceConcat(a.firings, b.firings, c.firings);
    AskedConcat(c.waiting, b.firings[|a.firings|..], c.firings[|b.firings|..]);
    assert Pipelines(c.runs[|a.runs|..]) == Pipelines(b.runs[|a.runs|..]) + Pipelines(c.runs[|b.runs|..]);
  }

  lemma ServedStays(b: Log, c: Log, r: nat)
    requires Grows(b, c) && r < |b.runs| && Served(b, r)
    ensures Served(c, r)
  {
  }

  lemma Balance(ran: multiset<string>, later: multiset<string>, asked: multiset<string>, paid: multiset<string>,
                owed: multiset<string>, still: multiset<string>, fired: multiset<string>,
                laterFired: multiset<string>)
    requires ran + (paid + owed) == asked + fired && later + still == paid + laterFired
    ensures ran + later + (owed + still) == asked + (fired + laterFired)
  {
    forall x
      ensures (ran + later + (owed + still))[x] == (asked + (fired + laterFired))[x]
    {
      assert (ran + (paid + owed))[x] == (asked + fired)[x];
      assert (later + still)[x] == (paid + laterFired)[x];
    }
  }

  lemma ComposeTally(a: Log, b: Log, c: Log, asked: multiset<string>, paid: multiset<string>,
                     owed: multiset<string>, still: multiset<string>)
    requires Tallied(a, b, asked, paid + owed) && Tallied(b, c, paid, still)
    ensures Tallied(a, c, asked, owed + still)
  {
    Counted(a, b, c);
    Balance(multiset(Pipelines(b.runs[|a.runs|..])), multiset(Pipelines(c.runs[|b.runs|..])), asked, paid, owed, still,
            Asked(c.waiting, b.firings[|a.firings|..]), Asked(c.waiting, c.firings[|b.firings|..]));
  }

  /** What is owed at first may be paid by what follows. */
  lemma Compose(a: Log, b: Log, c: Log, asked: multiset<string>, paid: multiset<string>, owed: multiset<string>)
    requires Complied(a, b, asked, paid + owed) && Complied(b, c, paid, multiset{})
    ensures Complied(a, c, asked, owed)
  {
    ComposeTally(a, b, c, asked, paid, owed, multiset{});
    assert owed + multiset{} == owed;
    forall r | |a.runs| <= r < |c.runs|
      ensures Served(c, r)
    {
      if r < |b.runs| {
        ServedStays(b, c, r);
      }
    }
  }

  /** When what follows breaks off, the rest stays owed. */
  lemma BreakOff(a: Log, b: Log, c: Log, asked: multiset<string>, paid: multiset<string>, owed: multiset<string>,
                 lost: multiset<string>)
    requires Tallied(a, b, asked, paid + owed) && Lost(b, c, paid, lost)
    ensures Lost(a, c, asked, owed)
  {
    var still :| lost <= still && Tallied(b, c, paid, still);
    ComposeTally(a, b, c, asked, paid, owed, still);
    assert owed <= owed + still;
  }

  /** A marked unit is marked for good: no later firing has its key, so what its firing asked for and did
      not get, because a target threw, never runs on its account. */
  lemma MarkedForGood(a: Log, b: Log, k: string, i: nat)
    requires Valid(a) && Valid(b) && Grows(a, b) && k in a.fired && |a.firings| <= i < |b.firings|
    ensures KeyOf(b.firings[i]) != k
  {
    var j :| 0 <= j < |a.firings| && KeyOf(a.firings[j]) == k;
    assert b.firings[j] == a.firings[j];
  }

  lemma Nothing(l: Log)
    ensures Complied(l, l, multiset{}, multiset{})
  {
    assert l.runs[|l.runs|..] == [] && l.firings[|l.firings|..] == [];
  }

  function WithRun(l: Log, run: Ran): Log {
    l.(runs := l.runs + [run])
  }

  lemma RunKeepsValid(l: Log, run: Ran)
    requires Valid(l)
    ensures Valid(WithRun(l, run))
  {
    forall i | 0 <= i < |l.firings|
      ensures Earned(WithRun(l, run), l.firings[i])
    {
      EarnedStays(l, run, l.firings[i]);
    }
  }

  lemma EarnedStays(l: Log, run: Ran, f: Firing)
    requires Earned(l, f)
    ensures Earned(WithRun(l, run), f)
  {
    var r :| 0 <= r < |l.runs| && l.runs[r].pipeline == f.pipeline
             && l.runs[r].outcome.Some? && Complete(l.runs[r].outcome.value, f.unit);
    assert WithRun(l, run).runs[r] == l.runs[r];
  }

  lemma RunIsTallied(a: Log, run: Ran)
    ensures Tallied(a, WithRun(a, run), multiset{run.pipeline}, multiset{})
  {
    var b := WithRun(a, run);
    assert b.runs[|a.runs|..] == [run] && b.firings[|a.firings|..] == [];
    assert Pipelines([run]) == [run.pipeline];
  }

  /** A run that was asked for, and whose triggers were dispatched. */
  lemma RunThenDispatch(a: Log, run: Ran, c: Log)
    requires Complied(WithRun(a, run), c, multiset{}, multiset{}) && Served(c, |a.runs|)
    ensures Complied(a, c, multiset{run.pipeline}, multiset{})
  {
    RunIsTallied(a, run);
    ComposeTally(a, WithRun(a, run), c, multiset{run.pipeline}, multiset{}, multiset{}, multiset{});
  }

  lemma RunThenBreak(a: Log, run: Ran, c: Log)
    requires Lost(WithRun(a, run), c, multiset{}, multiset{})
    ensures Lost(a, c, multiset{run.pipeline}, multiset{})
  {
    RunIsTallied(a, run);
    BreakOff(a, WithRun(a, run), c, multiset{run.pipeline}, multiset{}, multiset{}, multiset{});
  }

  lemma NothingRan(l: Log, id: string)
    ensures Lost(l, l, multiset{id}, multiset{})
  {
    Nothing(l);
    assert Tallied(l, l, multiset{id}, multiset{id});
  }

  /** A run that threw. */
  lemma RunThrew(l: Log, id: string)
    ensures Lost(l, WithRun(l, Ran(id, None)), multiset{id}, multiset{})
  {
    RunIsTallied(l, Ran(id, None));
  }

  function WithFiring(l: Log, f: Firing): Log {
    l.(fired := l.fired + {KeyOf(f)}, firings := l.firings + [f])
  }

  lemma FiringKeepsValid(l: Log, f: Firing)
    requires Valid(l) && KeyOf(f) !in l.fired && Earned(l, f)
    ensures Valid(WithFiring(l, f))
  {
    var t := WithFiring(l, f);
    var n := |l.firings|;
    assert t.firings[n] == f && forall i :: 0 <= i < n ==> t.firings[i] == l.firings[i];
    forall k
      ensures k in t.fired <==> exists i :: 0 <= i < n + 1 && KeyOf(t.firings[i]) == k
    {
      if k in l.fired {
        var i :| 0 <= i < n && KeyOf(l.firings[i]) == k;
        assert KeyOf(t.firings[i]) == k;
      } else if k == KeyOf(f) {
        assert KeyOf(t.firings[n]) == k;
      }
    }
    forall i | 0 <= i < n + 1
      ensures Earned(t, t.firings[i])
    {
      assert t.runs == l.runs && Earned(l, t.firings[i]);
    }
  }

  lemma FiringOwes(l: Log, f: Firing)
    requires f.pipeline in l.waiting
    ensures Complied(l, WithFiring(l, f), multiset{}, multiset(l.waiting[f.pipeline]))
  {
    var t := WithFiring(l, f);
    assert t.firings[|l.firings|..] == [f] && t.runs[|l.runs|..] == [];
    assert [f][..0] == [];
  }

  /** When all complete units have fired, the run is served. */
  lemma ServedIf(ok: bool, l: Log, r: nat, id: string, o: Outcome, units: seq<string>, missed: set<string>)
    requires r < |l.runs| && l.runs[r] == Ran(id, Some(o)) && id in l.waiting
    requires forall u :: Complete(o, u) <==> u in units && u !in missed
    requires ok ==> Marked(l.fired, id, units, missed, |units|)
    ensures ok ==> Served(l, r)
  {
  }

  /** The first n units are marked, but for those that are not complete. */
  ghost predicate Marked(fired: set<string>, id: string, units: seq<string>, missed: set<string>, n: nat)
    requires n <= |units|
  {
    forall j :: 0 <= j < n && units[j] !in missed ==> Key(id, units[j]) in fired
  }

  lemma OneMoreMarked(fired: set<string>, more: set<string>, id: string, units: seq<string>, missed: set<string>,
                      n: nat)
    requires n < |units| && Marked(fired, id, units, missed, n) && fired <= more
    requires units[n] !in missed ==> Key(id, units[n]) in more
    ensures Marked(more, id, units, missed, n + 1)
  {
  }

  lemma EarnedBy(before: Log, l: Log, r: nat, id: string, o: Outcome, unit: string)
    requires before.runs <= l.runs && r < |before.runs| && before.runs[r] == Ran(id, Some(o)) && Complete(o, unit)
    ensures Earned(l, Firing(id, unit))
  {
    assert l.runs[r] == before.runs[r];
  }

  lemma Owed(targets: seq<string>, j: nat)
    requires j < |targets|
    ensures multiset(targets[j..]) == multiset{targets[j]} + multiset(targets[j + 1..])
  {
    assert targets[j..] == [targets[j]] + targets[j + 1..];
  }

  // ----- The engine -----

  class TriggerEngine {
    const waiting: map<string, seq<string>>
    /** The outcome of the n-th run, if it does not throw. */
    const outcome: nat -> Option<Outcome>
    var firedTriggers: set<string>
    var count: nat
    ghost var runs: seq<Ran>
    ghost var firings: seq<Firing>

    ghost function State(): Log
      reads this
    {
      Log(waiting, firedTriggers, runs, firings)
    }

    /** The keys that any run can ask for: pipelines are registered, and units come from a finite store. */
    ghost predicate Within(universe: set<string>) {
      forall p, n: nat, u ::
        p in waiting && outcome(n).Some? && Complete(outcome(n).value, u) ==> Key(p, u) in universe
    }

    ghost predicate Fits()
      reads this
    {
      && Valid(State()) && OnlyTriggersFire(State())
      && count == |runs| && forall n :: 0 <= n < |runs| ==> runs[n].outcome == outcome(n)
    }

    /** No run throws, and all targets are registered. */
    ghost predicate Smooth() {
      && (forall n: nat :: outcome(n).Some?)
      && forall p, target :: p in waiting && target in waiting[p] ==> target in waiting
    }

    constructor (waiting: map<string, seq<string>>, outcome: nat -> Option<Outcome>)
      ensures this.waiting == waiting && this.outcome == outcome
      ensures State() == Log(waiting, {}, [], []) && Fits()
    {
      this.waiting, this.outcome, firedTriggers, count := waiting, outcome, {}, 0;
      runs, firings := [], [];
    }

    /** Run a pipeline and dispatch its triggers. However the triggers form loops, this ends. */
    method RunPipeline(id: string, ghost universe: set<string>) returns (ok: bool)
      requires Fits() && Within(universe)
      modifies this
      ensures Fits() && Grows(old(State()), State())
      ensures ok ==> Complied(old(State()), State(), multiset{id}, multiset{})
      ensures ok ==> |old(runs)| < |runs| && runs[|old(runs)|] == Ran(id, outcome(|old(runs)|))
      ensures !ok ==> Lost(old(State()), State(), multiset{id}, multiset{})
      ensures id in waiting && Smooth() ==> ok
      decreases universe - firedTriggers, 5
    {
      if id !in waiting {
        NothingRan(State(), id);
        return false;
      }
      ghost var before, n := State(), count;
      var end := Record(id);
      if end.None? {
        RunThrew(before, id);
        return false;
      }
      ok := Dispatch(id, end.value, n, universe);
      if ok {
        RunThenDispatch(before, Ran(id, end), State());
      } else {
        RunThenBreak(before, Ran(id, end), State());
      }
    }

    /** The run itself, and how it ends. */
    method Record(id: string) returns (end: Option<Outcome>)
      requires Fits()
      modifies this`count, this`runs
      ensures Fits() && end == outcome(old(count)) && State() == WithRun(old(State()), Ran(id, end))
    {
      end := outcome(count);
      RunKeepsValid(State(), Ran(id, end));
      count := count + 1;
      runs := runs + [Ran(id, end)];
    }

    method Dispatch(id: string, o: Outcome, ghost n: nat, ghost universe: set<string>) returns (ok: bool)
      requires Fits() && Within(universe) && id in waiting && outcome(n) == Some(o)
      requires runs != [] && runs[|runs| - 1] == Ran(id, Some(o))
      modifies this
      ensures Fits() && Grows(old(State()), State())
      ensures ok ==> Complied(old(State()), State(), multiset{}, multiset{}) && Served(State(), |old(runs)| - 1)
      ensures !ok ==> Lost(old(State()), State(), multiset{}, multiset{})
      ensures Smooth() ==> ok
      decreases universe - firedTriggers, 4
    {
      ghost var before := State();
      if waiting[id] == [] {
        Nothing(before);
        return true;
      }
      var units, missed := Units(o);
      ok := FireAll(id, o, |runs| - 1, n, units, missed, universe);
      ServedIf(ok, State(), |before.runs| - 1, id, o, units, missed);
    }

    /** Fire the complete units one after the other. */
    method FireAll(id: string, o: Outcome, ghost r: nat, ghost n: nat, units: seq<string>, missed: set<string>,
                   ghost universe: set<string>) returns (ok: bool)
      requires Fits() && Within(universe) && HasTriggers(waiting, id) && outcome(n) == Some(o)
      requires r < |runs| && runs[r] == Ran(id, Some(o))
      requires forall u :: Complete(o, u) <==> u in units && u !in missed
      modifies this
      ensures Fits() && Grows(old(State()), State())
      ensures ok ==> Complied(old(State()), State(), multiset{}, multiset{})
      ensures !ok ==> Lost(old(State()), State(), multiset{}, multiset{})
      ensures Smooth() ==> ok
      ensures ok ==> Marked(firedTriggers, id, units, missed, |units|)
      decreases universe - firedTriggers, 3
    {
      ghost var before := State();
      Nothing(before);
      for i := 0 to |units|
        invariant Fits() && Complied(before, State(), multiset{}, multiset{})
        invariant Marked(firedTriggers, id, units, missed, i)
      {
        ghost var marked := firedTriggers;
        if units[i] !in missed {
          EarnedBy(before, State(), r, id, o, units[i]);
          var fired := FireNext(before, id, units[i], universe);
          if !fired {
            return false;
          }
        }
        OneMoreMarked(marked, firedTriggers, id, units, missed, i);
      }
      ok := true;
    }

    method FireNext(ghost before: Log, id: string, unit: string, ghost universe: set<string>) returns (ok: bool)
      requires Fits() && Within(universe) && HasTriggers(waiting, id) && Key(id, unit) in universe
      requires Earned(State(), Firing(id, unit)) && Complied(before, State(), multiset{}, multiset{})
      modifies this
      ensures Fits() && Grows(before, State()) && old(firedTriggers) + {Key(id, unit)} <= firedTriggers
      ensures ok ==> Complied(before, State(), multiset{}, multiset{})
      ensures !ok ==> Lost(before, State(), multiset{}, multiset{})
      ensures Smooth() ==> ok
      decreases universe - firedTriggers, 2
    {
      ghost var between := State();
      ok := FireOnce(id, unit, universe);
      if ok {
        Compose(before, between, State(), multiset{}, multiset{}, multiset{});
      } else {
        BreakOff(before, between, State(), multiset{}, multiset{}, multiset{}, multiset{});
      }
    }

    /** Exactly once per pipeline and unit. */
    method FireOnce(id: string, unit: string, ghost universe: set<string>) returns (ok: bool)
      requires Fits() && Within(universe) && HasTriggers(waiting, id) && Key(id, unit) in universe
      requires Earned(State(), Firing(id, unit))
      modifies this
      ensures Fits() && Grows(old(State()), State()) && Key(id, unit) in firedTriggers
      ensures ok ==> Complied(old(State()), State(), multiset{}, multiset{})
      ensures !ok ==> Lost(old(State()), State(), multiset{}, multiset{})
      ensures Smooth() ==> ok
      decreases universe - firedTriggers, 1
    {
      if Key(id, unit) in firedTriggers {
        Nothing(State());
        return true;
      }
      ok := Fire(id, unit, universe);
    }

    method Mark(id: string, unit: string)
      requires Fits() && HasTriggers(waiting, id) && Key(id, unit) !in firedTriggers
      requires Earned(State(), Firing(id, unit))
      modifies this`firedTriggers, this`firings
      ensures Fits() && State() == WithFiring(old(State()), Firing(id, unit))
    {
      FiringKeepsValid(State(), Firing(id, unit));
      firedTriggers := firedTriggers + {Key(id, unit)};
      firings := firings + [Firing(id, unit)];
    }

    /** Mark the unit, and then run the target of each trigger. If one throws, the unit stays marked, and
        the targets behind it are not run. */
    method Fire(id: string, unit: string, ghost universe: set<string>) returns (ok: bool)
      requires Fits() && Within(universe) && HasTriggers(waiting, id) && Key(id, unit) in universe - firedTriggers
      requires Earned(State(), Firing(id, unit))
      modifies this
      ensures Fits() && Grows(old(State()), State()) && Key(id, unit) in firedTriggers
      ensures ok ==> Complied(old(State()), State(), multiset{}, multiset{})
      ensures !ok ==> LostBehind(old(State()), State(), waiting[id])
      ensures Smooth() ==> ok
      decreases universe - firedTriggers, 0
    {
      ghost var before := State();
      FiringOwes(before, Firing(id, unit));
      Mark(id, unit);
      ok := RunTargets(before, waiting[id], universe);
    }

    /** The targets are owed, and run one after the other. */
    method RunTargets(ghost before: Log, targets: seq<string>, ghost universe: set<string>) returns (ok: bool)
      requires Fits() && Within(universe) && Complied(before, State(), multiset{}, multiset(targets))
      modifies this
      ensures Fits() && Grows(old(State()), State())
      ensures ok ==> Complied(before, State(), multiset{}, multiset{})
      ensures !ok ==> LostBehind(before, State(), targets)
      ensures Smooth() && (forall target :: target in targets ==> target in waiting) ==> ok
      decreases universe - firedTriggers, 6
    {
      assert targets[0..] == targets;
      for j := 0 to |targets|
        invariant Fits() && Grows(old(State()), State())
        invariant Complied(before, State(), multiset{}, multiset(targets[j..]))
      {
        ghost var between := State();
        Owed(targets, j);
        var ran := RunPipeline(targets[j], universe);
        if !ran {
          BreakOff(before, between, State(), multiset{}, multiset{targets[j]}, multiset(targets[j + 1..]), multiset{});
          assert LostFrom(before, State(), targets, j + 1);
          return false;
        }
        Compose(before, between, State(), multiset{}, multiset{targets[j]}, multiset(targets[j + 1..]));
      }
      ok := true;
    }
  }

  // ----- A run that loses a unit -----

  /** Every run accepts one item of unit "c", and one of x with ":c" behind it. */
  function BothUnits(x: string): Outcome {
    Outcome(Completes("c").accepted + Completes(x + ":c").accepted, [], [])
  }

  lemma CompletesBoth(x: string, u: string)
    ensures Complete(BothUnits(x), u) <==> u == "c" || u == x + ":c"
  {
    var o := BothUnits(x);
    var a, b := Completes("c").accepted[0], Completes(x + ":c").accepted[0];
    assert AllItems(o) == [a, b];
    assert a in AllItems(o) && InUnit(a, "c") && b in AllItems(o) && InUnit(b, x + ":c");
  }

  lemma {:induction false} AskedOnly(waiting: map<string, seq<string>>, firings: seq<Firing>, target: string)
    requires forall p, t :: p in waiting && t in waiting[p] ==> t == target
    ensures forall t :: t in Asked(waiting, firings) ==> t == target
    decreases |firings|
  {
    if firings != [] {
      var p := firings[|firings| - 1].pipeline;
      AskedOnly(waiting, firings[..|firings| - 1], target);
      assert p in waiting ==> forall t :: t in multiset(waiting[p]) ==> t in waiting[p];
    }
  }

  /** From a new engine, only q and the target without triggers have run; so only q has fired. */
  lemma OnlyQueried(a: Log, b: Log, q: string, target: string, f: Firing)
    requires a.runs == [] && a.firings == [] && Complied(a, b, multiset{q}, multiset{}) && Valid(b)
    requires forall p, t :: p in b.waiting && t in b.waiting[p] ==> t == target
    requires OnlyTriggersFire(b) && !HasTriggers(b.waiting, target) && f in b.firings
    ensures f.pipeline == q
  {
    var i :| 0 <= i < |b.firings| && b.firings[i] == f;
    assert Earned(b, f);
    var r :| 0 <= r < |b.runs| && b.runs[r].pipeline == f.pipeline;
    assert b.runs[0..] == b.runs && b.firings[0..] == b.firings;
    assert Pipelines(b.runs)[r] == f.pipeline;
    assert f.pipeline in multiset(Pipelines(b.runs)) + multiset{};
    AskedOnly(b.waiting, b.firings, target);
  }

  /** So after q has run, the unit "c" of q is marked by q itself. */
  lemma FirstRunFires(a: Log, b: Log, q: string, target: string, x: string)
    requires a.runs == [] && a.firings == [] && Complied(a, b, multiset{q}, multiset{}) && Valid(b)
    requires forall p, t :: p in b.waiting && t in b.waiting[p] ==> t == target
    requires OnlyTriggersFire(b) && !HasTriggers(b.waiting, target) && HasTriggers(b.waiting, q)
    requires |b.runs| >= 1 && b.runs[0] == Ran(q, Some(BothUnits(x)))
    ensures Firing(q, "c") in b.firings
  {
    CompletesBoth(x, "c");
    assert Served(b, 0);
    var i :| 0 <= i < |b.firings| && KeyOf(b.firings[i]) == Key(q, "c");
    OnlyQueried(a, b, q, target, b.firings[i]);
    SameUnit(q, b.firings[i].unit, "c");
  }

  lemma TakenKey(l: Log, p: string, q: string, x: string)
    requires Valid(l) && q == p + ":" + x && Firing(q, "c") in l.firings
    ensures Firing(p, x + ":c") !in l.firings
  {
    var i :| 0 <= i < |l.firings| && l.firings[i] == Firing(q, "c");
    KeyOfPrefix(p, q, "c");
    assert q[|p| + 1..] == x && x + ":" + "c" == x + ":c";
    assert |p| < |q|;
    assert KeyOf(l.firings[i]) == KeyOf(Firing(p, x + ":c"));
  }

  function TwoWaiting(p: string, q: string, target: string): map<string, seq<string>> {
    map[p := [target], q := [target], target := []]
  }

  /** The keys that such runs can ask for. */
  ghost function TwoKeys(waiting: map<string, seq<string>>, x: string): set<string> {
    set id, unit | id in waiting.Keys && unit in {"c", x + ":c"} :: Key(id, unit)
  }

  lemma TwoKeysSuffice(waiting: map<string, seq<string>>, x: string)
    ensures forall p, u :: p in waiting && Complete(BothUnits(x), u) ==> Key(p, u) in TwoKeys(waiting, x)
  {
    forall p, u | p in waiting && Complete(BothUnits(x), u)
      ensures Key(p, u) in TwoKeys(waiting, x)
    {
      CompletesBoth(x, u);
    }
  }

  /** In a log that goes on with a run of p. */
  lemma SecondRunLoses(b: Log, c: Log, p: string, x: string)
    requires Valid(c) && Grows(b, c) && Firing(p + ":" + x, "c") in b.firings && HasTriggers(c.waiting, p)
    requires Complied(b, c, multiset{p}, multiset{})
    requires |b.runs| < |c.runs| && c.runs[|b.runs|] == Ran(p, Some(BothUnits(x)))
    ensures Completed(c, |b.runs|, x + ":c") && Firing(p, x + ":c") !in c.firings
  {
    CompletesBoth(x, x + ":c");
    assert Firing(p + ":" + x, "c") in c.firings;
    TakenKey(c, p, p + ":" + x, x);
  }

  /** A new engine runs q, and then p; nothing throws, and the second run completes a unit that p never
      fires for. */
  method LoseAUnit(p: string, x: string, target: string) returns (engine: TriggerEngine)
    requires target != p && target != p + ":" + x
    ensures engine.Fits() && engine.waiting == TwoWaiting(p, p + ":" + x, target)
    ensures exists r: nat :: Completed(engine.State(), r, x + ":c") && engine.runs[r].pipeline == p
    ensures Firing(p, x + ":c") !in engine.firings
  {
    var q := p + ":" + x;
    engine := new TriggerEngine(TwoWaiting(p, q, target), n => Some(BothUnits(x)));
    TwoKeysSuffice(engine.waiting, x);
    ghost var universe := TwoKeys(engine.waiting, x);
    assert engine.Smooth() && engine.Within(universe);
    ghost var a := engine.State();
    var first := engine.RunPipeline(q, universe);
    ghost var b := engine.State();
    FirstRunFires(a, b, q, target, x);
    var second := engine.RunPipeline(p, universe);
    SecondRunLoses(b, engine.State(), p, x);
  }
}
