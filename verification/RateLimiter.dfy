/** Per-model request pacing: permits, their distance, and the object with its three maps. */
module RateLimiter {
  import opened Prelude

  type Model = string

  // ----- One model -----

  /** A caller in the chain of its model, with the interval that its rpm asks for. */
  datatype Waiting = Waiting(key: nat, interval: real)

  /** The time from which the request may leave, and how long it keeps the window closed. */
  datatype Permit = Permit(key: nat, time: real, interval: real)

  /** `sleeping`: the head of the chain sleeps until that time. `releases`: the log, one entry per
      permit. `joined`: every caller that ever queued; `settled`: those that left the chain, with a
      permit or by a failed sleep. */
  datatype Lane = Lane(
    nextAt: real, chain: seq<Waiting>, sleeping: Option<real>, releases: seq<real>,
    permits: seq<Permit>, joined: seq<nat>, settled: seq<nat>)

  const FRESH := Lane(0.0, [], None, [], [], [], [])

  function Later(a: real, b: real): real {
    if a < b then b else a
  }

  function Join(l: Lane, w: Waiting): Lane {
    l.(chain := l.chain + [w], joined := l.joined + [w.key])
  }

  /** The window opens for the head of the chain, and closes behind it for one interval. The clock is
      read once for the window, and once more for the log. */
  function Finish(l: Lane, at: real, now: real, logged: real): Lane
    requires l.chain != []
  {
    var head, time := l.chain[0], Later(now, at);
    l.(nextAt := time + head.interval, chain := l.chain[1..], sleeping := None, releases := l.releases + [logged],
       permits := l.permits + [Permit(head.key, time, head.interval)], settled := l.settled + [head.key])
  }

  /** The head of the chain reads the window: it sleeps, or goes on with a second look at the clock. */
  function Start(l: Lane, now: real, again: real, logged: real): Lane {
    if l.chain == [] || l.sleeping.Some? then l
    else if l.nextAt - now > 0.0 then l.(sleeping := Some(l.nextAt))
    else Finish(l, l.nextAt, again, logged)
  }

  /** The sleep ends, early or late. */
  function Wake(l: Lane, now: real, logged: real): Lane {
    if l.chain == [] || l.sleeping.None? then l else Finish(l, l.sleeping.value, now, logged)
  }

  function Keys(chain: seq<Waiting>): seq<nat> {
    seq(|chain|, i requires 0 <= i < |chain| => chain[i].key)
  }

  /** A sleep that rejects takes the whole chain with it. */
  function FailSleep(l: Lane): Lane {
    if l.sleeping.None? then l else l.(chain := [], sleeping := None, settled := l.settled + Keys(l.chain))
  }

  // ----- What every lane keeps -----

  /** Each permit keeps its interval from the one before. */
  ghost predicate Paced(permits: seq<Permit>) {
    && (forall i :: 0 <= i < |permits| ==> permits[i].interval > 0.0)
    && forall i, j :: 0 <= i < j < |permits| ==> permits[i].time + permits[i].interval <= permits[j].time
  }

  ghost predicate Inv(l: Lane) {
    && Paced(l.permits)
    && (l.permits != [] ==>
        var last := l.permits[|l.permits| - 1]; l.nextAt == last.time + last.interval)
    && (forall i :: 0 <= i < |l.chain| ==> l.chain[i].interval > 0.0)
    && (l.sleeping.Some? ==> l.chain != [] && l.sleeping.value == l.nextAt)
    && l.joined == l.settled + Keys(l.chain) && |l.releases| == |l.permits|
  }

  lemma FinishKeeps(l: Lane, now: real, logged: real)
    requires Inv(l) && l.chain != []
    ensures Inv(Finish(l, l.nextAt, now, logged))
  {
    var t := Finish(l, l.nextAt, now, logged);
    var n := |l.permits|;
    forall i | 0 <= i < n
      ensures t.permits[i].time + t.permits[i].interval <= t.permits[n].time
    {
      assert t.permits[i] == l.permits[i];
      var last := l.permits[n - 1];
      assert last.interval > 0.0;
      if i < n - 1 {
        assert l.permits[i].time + l.permits[i].interval <= last.time;
      }
    }
    assert l.settled + Keys(l.chain) == t.settled + Keys(t.chain);
  }

  // ----- All models -----

  datatype Event =
    | Acquire(model: Model, key: nat, rpm: Option<real>)
    | Started(model: Model, now: real, again: real, logged: real)
    | Woken(model: Model, now: real, logged: real)
    | SleepFailed(model: Model)

  type Limiter = map<Model, Lane>

  function LaneOf(s: Limiter, m: Model): Lane {
    if m in s then s[m] else FRESH
  }

  /** No cap: not a finite number, or not positive. Such a request leaves at once. */
  predicate Unlimited(rpm: Option<real>) {
    rpm.None? || rpm.value <= 0.0
  }

  function LaneStep(l: Lane, e: Event): Lane {
    match e
    case Acquire(_, key, rpm) => if Unlimited(rpm) then l else Join(l, Waiting(key, 60000.0 / rpm.value))
    case Started(_, now, again, logged) => Start(l, now, again, logged)
    case Woken(_, now, logged) => Wake(l, now, logged)
    case SleepFailed(_) => FailSleep(l)
  }

  function Step(s: Limiter, e: Event): Limiter {
    s[e.model := LaneStep(LaneOf(s, e.model), e)]
  }

  function RunOf(s: Limiter, events: seq<Event>): Limiter
    decreases |events|
  {
    if events == [] then s else RunOf(Step(s, events[0]), events[1..])
  }

  lemma LaneStepKeeps(l: Lane, e: Event)
    requires Inv(l)
    ensures Inv(LaneStep(l, e))
  {
    match e
    case Acquire(_, key, rpm) =>
      if !Unlimited(rpm) {
        var w := Waiting(key, 60000.0 / rpm.value);
        assert Keys(l.chain + [w]) == Keys(l.chain) + [key];
        assert l.settled + (Keys(l.chain) + [key]) == l.settled + Keys(l.chain) + [key];
      }
    case Started(_, _, again, logged) => if l.chain != [] { FinishKeeps(l, again, logged); }
    case Woken(_, now, logged) => if l.chain != [] { FinishKeeps(l, now, logged); }
    case SleepFailed(_) =>
      assert Keys([]) == [];
      assert l.settled + Keys(l.chain) + [] == l.settled + Keys(l.chain);
  }

  /** Callers of one model leave its chain in the order in which they came, and their permits are paced,
      whatever the clock reads and however long the sleeps take. */
  lemma {:induction false} EveryRunIsPaced(s: Limiter, events: seq<Event>, m: Model)
    requires Inv(LaneOf(s, m))
    ensures Inv(LaneOf(RunOf(s, events), m))
    decreases |events|
  {
    if events != [] {
      LaneStepKeeps(LaneOf(s, m), events[0]);
      EveryRunIsPaced(Step(s, events[0]), events[1..], m);
    }
  }

  /** The events of one model. */
  function Only(events: seq<Event>, m: Model): seq<Event> {
    if events == [] then []
    else (if events[0].model == m then [events[0]] else []) + Only(events[1..], m)
  }

  /** One model never delays another: what happens to a model is decided by its own events. */
  lemma {:induction false} ModelsAreIndependent(s: Limiter, events: seq<Event>, m: Model)
    ensures LaneOf(RunOf(s, events), m) == LaneOf(RunOf(s, Only(events, m)), m)
    decreases |events|
  {
    if events != [] {
      var e, rest := events[0], events[1..];
      ModelsAreIndependent(Step(s, e), rest, m);
      if e.model == m {
        assert Only(events, m)[1..] == Only(rest, m);
      } else {
        assert Only(events, m) == Only(rest, m);
        SameLane(s, Step(s, e), Only(rest, m), m);
      }
    }
  }

  lemma {:induction false} SameLane(s: Limiter, t: Limiter, events: seq<Event>, m: Model)
    requires LaneOf(s, m) == LaneOf(t, m)
    ensures LaneOf(RunOf(s, events), m) == LaneOf(RunOf(t, events), m)
    decreases |events|
  {
    if events != [] {
      SameLane(Step(s, events[0]), Step(t, events[0]), events[1..], m);
    }
  }

  /** A request for a model with a positive rpm joins its chain, to hold the window for a minute divided by
      rpm; any other request leaves no trace. */
  lemma AcquireDecides(l: Lane, m: Model, key: nat, rpm: Option<real>)
    ensures var t := LaneStep(l, Acquire(m, key, rpm));
      && (t == l <==> rpm.None? || rpm.value <= 0.0)
      && (rpm.Some? && rpm.value > 0.0 ==>
          && t.chain == l.chain + [Waiting(key, 60000.0 / rpm.value)] && t.joined == l.joined + [key]
          && t.permits == l.permits && t.nextAt == l.nextAt && t.sleeping == l.sleeping)
  {
  }

  /** The head of the chain, when it looks at the clock, sleeps exactly until its window opens, one interval
      after the permit before. It gets its permit as soon as both the clock and the window allow it: no
      caller is held longer than the interval asks for. */
  lemma PermitDecides(l: Lane, m: Model, now: real, again: real, logged: real)
    requires Inv(l) && l.chain != [] && l.permits != []
    ensures var last := l.permits[|l.permits| - 1];
      var opens, head := last.time + last.interval, l.chain[0];
      var started, woken := LaneStep(l, Started(m, now, again, logged)), LaneStep(l, Woken(m, now, logged));
      && (l.sleeping.None? && now < opens ==> started == l.(sleeping := Some(opens)))
      && (l.sleeping.None? && now >= opens ==>
          && started.permits == l.permits + [Permit(head.key, if again < opens then opens else again, head.interval)]
          && started.chain == l.chain[1..] && started.releases == l.releases + [logged])
      && (l.sleeping.Some? ==>
          && woken.permits == l.permits + [Permit(head.key, if now < opens then opens else now, head.interval)]
          && woken.chain == l.chain[1..] && woken.releases == l.releases + [logged])
  {
  }

  /** A sleep that is rejected takes everyone in the chain with it, and nothing else: the window and the
      permits stay. */
  lemma FailDecides(l: Lane, m: Model)
    ensures var t := LaneStep(l, SleepFailed(m));
      if l.sleeping.None? then t == l
      else
        && t == l.(chain := [], sleeping := None, settled := t.settled)
        && |t.settled| == |l.settled| + |l.chain| && l.settled <= t.settled
        && forall i :: 0 <= i < |l.chain| ==> t.settled[|l.settled| + i] == l.chain[i].key
  {
  }

  /** The first caller of a model never sleeps, unless the clock is before its origin. */
  lemma FirstPermit(m: Model, key: nat, rpm: real, now: real, logged: real)
    requires rpm > 0.0 && now >= 0.0
    ensures LaneStep(LaneStep(FRESH, Acquire(m, key, Some(rpm))), Started(m, now, now, logged)).permits
         == [Permit(key, now, 60000.0 / rpm)]
  {
    var l := LaneStep(FRESH, Acquire(m, key, Some(rpm)));
    assert l.chain == [Waiting(key, 60000.0 / rpm)];
  }

  // ----- Permits per minute -----

  /** How many permits fall into the minute that starts at t. */
  function PerMinute(permits: seq<Permit>, t: real): nat {
    if permits == [] then 0
    else
      var last := permits[|permits| - 1];
      PerMinute(permits[..|permits| - 1], t) + if t <= last.time < t + 60000.0 then 1 else 0
  }

  lemma Larger(a: real, b: real, q: real)
    requires a >= b && q > 0.0
    ensures a * q >= b * q
  {
    assert (a - b) * q >= 0.0;
  }

  lemma StrictlyLarger(a: real, b: real, q: real)
    requires a > b && q > 0.0
    ensures a * q > b * q
  {
    assert (a - b) * q > 0.0;
  }

  /** The sum of k gaps. */
  function Gaps(k: nat, gap: real): real {
    if k == 0 then 0.0 else Gaps(k - 1, gap) + gap
  }

  lemma {:induction false} GapsMultiply(k: nat, gap: real)
    ensures Gaps(k, gap) == k as real * gap
  {
    if k > 0 {
      GapsMultiply(k - 1, gap);
      var x := (k - 1) as real;
      assert k as real == x + 1.0 && (x + 1.0) * gap == x * gap + gap;
    }
  }

  /** k permits in the minute take k - 1 gaps. */
  lemma {:induction false} PermitsSpread(permits: seq<Permit>, t: real, gap: real)
    requires Paced(permits) && gap > 0.0 && forall i :: 0 <= i < |permits| ==> permits[i].interval >= gap
    requires PerMinute(permits, t) >= 1
    ensures permits[|permits| - 1].time >= t + Gaps(PerMinute(permits, t) - 1, gap)
    decreases |permits|
  {
    var init, last := permits[..|permits| - 1], permits[|permits| - 1];
    var k := PerMinute(init, t);
    if k >= 1 {
      PermitsSpread(init, t, gap);
      var before := init[|init| - 1];
      assert before == permits[|permits| - 2];
      assert before.time + gap <= last.time;
    }
  }

  lemma FewerGaps(k: nat, rpm: real, gap: real)
    requires gap > 0.0 && gap * rpm == 60000.0 && Gaps(k, gap) < 60000.0
    ensures k as real < rpm
  {
    GapsMultiply(k, gap);
    assert rpm * gap == gap * rpm;
    if k as real >= rpm {
      Larger(k as real, rpm, gap);
    }
  }

  /** With every interval at least a minute divided by rpm, no minute holds rpm + 1 permits. */
  lemma {:induction false} AtMostRpmPerMinute(permits: seq<Permit>, t: real, rpm: real, gap: real)
    requires Paced(permits) && rpm > 0.0 && gap > 0.0 && gap * rpm == 60000.0
    requires forall i :: 0 <= i < |permits| ==> permits[i].interval >= gap
    ensures PerMinute(permits, t) as real < rpm + 1.0
    decreases |permits|
  {
    if permits != [] {
      var last := permits[|permits| - 1];
      var k := PerMinute(permits, t);
      if t <= last.time < t + 60000.0 {
        PermitsSpread(permits, t, gap);
        FewerGaps(k - 1, rpm, gap);
        assert k as real == (k - 1) as real + 1.0;
      } else {
        AtMostRpmPerMinute(permits[..|permits| - 1], t, rpm, gap);
      }
    }
  }

  /** All caps that a run asks for a model. */
  ghost predicate CappedAt(events: seq<Event>, m: Model, rpm: real) {
    forall i :: 0 <= i < |events| && events[i].Acquire? && events[i].model == m && events[i].rpm.Some? ==>
      events[i].rpm.value <= rpm
  }

  ghost predicate Spaced(l: Lane, gap: real) {
    && (forall i :: 0 <= i < |l.chain| ==> l.chain[i].interval >= gap)
    && forall i :: 0 <= i < |l.permits| ==> l.permits[i].interval >= gap
  }

  lemma {:induction false} RunIsSpaced(s: Limiter, events: seq<Event>, m: Model, rpm: real)
    requires rpm > 0.0 && CappedAt(events, m, rpm) && Spaced(LaneOf(s, m), 60000.0 / rpm)
    ensures Spaced(LaneOf(RunOf(s, events), m), 60000.0 / rpm)
    decreases |events|
  {
    if events != [] {
      var e := events[0];
      if e.model == m && e.Acquire? && !Unlimited(e.rpm) {
        SmallerRpm(e.rpm.value, rpm);
      }
      RunIsSpaced(Step(s, e), events[1..], m, rpm);
    }
  }

  lemma Quotient(rpm: real)
    requires rpm > 0.0
    ensures 60000.0 / rpm > 0.0 && (60000.0 / rpm) * rpm == 60000.0
  {
  }

  lemma LongerGap(r: real, rpm: real, p: real, q: real)
    requires 0.0 < r <= rpm && p > 0.0 && q > 0.0 && p * r == q * rpm
    ensures p >= q
  {
    Larger(rpm, r, q);
    if p < q {
      StrictlyLarger(q, p, r);
    }
  }

  lemma SmallerRpm(r: real, rpm: real)
    requires 0.0 < r <= rpm
    ensures 60000.0 / r >= 60000.0 / rpm
  {
    Quotient(r);
    Quotient(rpm);
    LongerGap(r, rpm, 60000.0 / r, 60000.0 / rpm);
  }

  lemma PacedPermits(events: seq<Event>, m: Model) returns (permits: seq<Permit>)
    ensures permits == LaneOf(RunOf(map[], events), m).permits && Paced(permits)
  {
    EveryRunIsPaced(map[], events, m);
    permits := LaneOf(RunOf(map[], events), m).permits;
  }

  /** In every run, whatever callers queue: a model capped at rpm gets fewer than rpm + 1 permits in any
      half-open minute, which is at most rpm when rpm is a whole number. */
  lemma EveryRunIsLimited(events: seq<Event>, m: Model, rpm: real, t: real)
    requires rpm > 0.0 && CappedAt(events, m, rpm)
    ensures PerMinute(LaneOf(RunOf(map[], events), m).permits, t) as real < rpm + 1.0
  {
    var gap := 60000.0 / rpm;
    var permits := PacedPermits(events, m);
    RunIsSpaced(map[], events, m, rpm);
    Quotient(rpm);
    AtMostRpmPerMinute(permits, t, rpm, gap);
  }

  // ----- The log -----

  /** The entries of the log keep the intervals of the permits that they stand for. */
  ghost predicate LogPaced(l: Lane) {
    && |l.releases| == |l.permits|
    && forall i, j :: 0 <= i < j < |l.releases| ==> l.releases[i] + l.permits[i].interval <= l.releases[j]
  }

  /** The last entry is not later than its permit. */
  predicate LastOnTime(l: Lane) {
    l.releases != [] && |l.releases| == |l.permits| ==>
      l.releases[|l.releases| - 1] <= l.permits[|l.permits| - 1].time
  }

  /** The step is a release. */
  predicate Releases(l: Lane, e: Event) {
    match e
    case Started(_, now, again, logged) => l.chain != [] && l.sleeping.None? && l.nextAt - now <= 0.0
    case Woken(_, now, logged) => l.chain != [] && l.sleeping.Some?
    case _ => false
  }

  /** A release logs the time from which its request may leave: its last look at the clock agrees with
      the look before, or with the window if that opens later. */
  predicate Punctual(l: Lane, e: Event)
    requires Inv(l)
  {
    Releases(l, e) ==> e.logged == Later(if e.Woken? then e.now else e.again, l.nextAt)
  }

  lemma PunctualEntry(l: Lane, e: Event) returns (p: Permit)
    requires Inv(l) && Releases(l, e) && Punctual(l, e)
    ensures var t := LaneStep(l, e);
      t.releases == l.releases + [p.time] && t.permits == l.permits + [p] && l.nextAt <= p.time
  {
    p := LaneStep(l, e).permits[|l.permits|];
  }

  /** A punctual release keeps the log paced if the last entry is on time, and is on time itself. */
  lemma PunctualKeeps(l: Lane, e: Event)
    requires Inv(l) && LogPaced(l) && LastOnTime(l) && Punctual(l, e)
    ensures LogPaced(LaneStep(l, e)) && LastOnTime(LaneStep(l, e))
  {
    var t, n := LaneStep(l, e), |l.releases|;
    if Releases(l, e) {
      var p := PunctualEntry(l, e);
      forall i | 0 <= i < n
        ensures l.releases[i] + l.permits[i].interval <= p.time
      {
        var last := l.permits[n - 1];
        assert l.releases[n - 1] + last.interval <= l.nextAt;
        if i < n - 1 {
          assert l.releases[i] + l.permits[i].interval <= l.releases[n - 1];
        }
      }
    } else {
      assert t.releases == l.releases && t.permits == l.permits;
    }
  }

  /** A release at the very moment at which the window opens. */
  function OnTheDot(l: Lane, m: Model): Event {
    if l.sleeping.Some? then Woken(m, l.nextAt, l.nextAt) else Started(m, l.nextAt, l.nextAt, l.nextAt)
  }

  /** The next punctual release keeps the log paced, whenever it comes, exactly if the last entry is not
      later than its permit. */
  lemma NextReleaseIff(l: Lane, m: Model)
    requires Inv(l) && l.chain != [] && l.releases != [] && LogPaced(l)
    ensures (forall e: Event :: Releases(l, e) && Punctual(l, e) ==> LogPaced(LaneStep(l, e))) <==> LastOnTime(l)
  {
    if LastOnTime(l) {
      forall e: Event | Releases(l, e) && Punctual(l, e)
        ensures LogPaced(LaneStep(l, e))
      {
        PunctualKeeps(l, e);
      }
    } else {
      LateThenOnTheDot(l, m);
    }
  }

  lemma LateThenOnTheDot(l: Lane, m: Model)
    requires Inv(l) && l.chain != [] && l.releases != [] && !LastOnTime(l)
    ensures var e := OnTheDot(l, m); Releases(l, e) && Punctual(l, e) && !LogPaced(LaneStep(l, e))
  {
    var e, n := OnTheDot(l, m), |l.releases|;
    var t := LaneStep(l, e);
    assert t.releases == l.releases + [l.nextAt];
    assert t.releases[n - 1] + t.permits[n - 1].interval > t.releases[n];
  }

  ghost predicate AllPunctual(s: Limiter, events: seq<Event>, m: Model)
    requires Inv(LaneOf(s, m))
    decreases |events|
  {
    events != [] ==>
      && (events[0].model == m ==> Punctual(LaneOf(s, m), events[0]))
      && (LaneStepKeeps(LaneOf(s, m), events[0]); AllPunctual(Step(s, events[0]), events[1..], m))
  }

  lemma {:induction false} PunctualRunKeeps(s: Limiter, events: seq<Event>, m: Model)
    requires Inv(LaneOf(s, m)) && LogPaced(LaneOf(s, m)) && LastOnTime(LaneOf(s, m)) && AllPunctual(s, events, m)
    ensures LogPaced(LaneOf(RunOf(s, events), m)) && LastOnTime(LaneOf(RunOf(s, events), m))
    decreases |events|
  {
    if events != [] {
      if events[0].model == m {
        LaneStepKeeps(LaneOf(s, m), events[0]);
        PunctualKeeps(LaneOf(s, m), events[0]);
      }
      PunctualRunKeeps(Step(s, events[0]), events[1..], m);
    }
  }

  /** A run from the start whose releases are punctual logs entries that are paced like its permits. */
  lemma PunctualLogIsPaced(events: seq<Event>, m: Model)
    requires AllPunctual(map[], events, m)
    ensures LogPaced(LaneOf(RunOf(map[], events), m))
  {
    PunctualRunKeeps(map[], events, m);
  }

  /** One more caller, if nobody waits, and a release on the dot. */
  function OneMoreRelease(l: Lane, m: Model): seq<Event> {
    var join := Acquire(m, 0, Some(60.0));
    if l.chain != [] then [OnTheDot(l, m)] else [join, OnTheDot(LaneStep(l, join), m)]
  }

  lemma OnTheDotAsRun(s: Limiter, m: Model)
    requires Inv(LaneOf(s, m)) && LaneOf(s, m).chain != [] && LaneOf(s, m).releases != []
    requires !LastOnTime(LaneOf(s, m))
    ensures var more := [OnTheDot(LaneOf(s, m), m)];
      AllPunctual(s, more, m) && !LogPaced(LaneOf(RunOf(s, more), m))
  {
    var l, none: seq<Event> := LaneOf(s, m), [];
    var e := OnTheDot(l, m);
    LateThenOnTheDot(l, m);
    assert [e][1..] == none;
    assert e.model == m && RunOf(Step(s, e), none) == Step(s, e) && RunOf(s, [e]) == Step(s, e);
  }

  lemma LateThenUnpaced(s: Limiter, m: Model)
    requires var l := LaneOf(s, m); Inv(l) && l.releases != [] && !LastOnTime(l)
    ensures var more := OneMoreRelease(LaneOf(s, m), m);
      AllPunctual(s, more, m) && !LogPaced(LaneOf(RunOf(s, more), m))
  {
    var l := LaneOf(s, m);
    if l.chain != [] {
      OnTheDotAsRun(s, m);
    } else {
      var join, more := Acquire(m, 0, Some(60.0)), OneMoreRelease(l, m);
      LaneStepKeeps(l, join);
      OnTheDotAsRun(Step(s, join), m);
      assert more[1..] == [OnTheDot(LaneStep(l, join), m)];
      assert Punctual(l, join) && RunOf(s, more) == RunOf(Step(s, join), more[1..]);
    }
  }

  /** Whatever happens next to a model: as long as its releases are punctual the log stays paced, exactly
      if it is paced so far and its last entry is not later than its permit. */
  lemma StaysPacedIff(s: Limiter, m: Model)
    requires Inv(LaneOf(s, m))
    ensures (forall more :: AllPunctual(s, more, m) ==> LogPaced(LaneOf(RunOf(s, more), m)))
            <==> LogPaced(LaneOf(s, m)) && LastOnTime(LaneOf(s, m))
  {
    var l := LaneOf(s, m);
    if LogPaced(l) && LastOnTime(l) {
      forall more | AllPunctual(s, more, m)
        ensures LogPaced(LaneOf(RunOf(s, more), m))
      {
        PunctualRunKeeps(s, more, m);
      }
    } else if !LogPaced(l) {
      var none: seq<Event> := [];
      assert RunOf(s, none) == s;
      assert AllPunctual(s, none, m) && !LogPaced(LaneOf(RunOf(s, none), m));
    } else {
      LateThenUnpaced(s, m);
      var more := OneMoreRelease(l, m);
      assert AllPunctual(s, more, m) && !LogPaced(LaneOf(RunOf(s, more), m));
    }
  }

  /** A limiter at 60 requests per minute whose clock moves on by half a second between its two looks in
      the first release: the entries of the log are half a second apart instead of a second. */
  lemma LateEntryBreaksTheLog(m: Model)
    ensures var l := LaneOf(RunOf(map[], LateRun(m)), m);
      && l.releases == [500.0, 1000.0] && l.permits == [Permit(0, 0.0, 1000.0), Permit(1, 1000.0, 1000.0)]
  {
    var e := LateRun(m);
    var w0, w1 := Waiting(0, 1000.0), Waiting(1, 1000.0);
    var l1 := FRESH.(chain := [w0], joined := [0]);
    var l2 := FRESH.(chain := [w0, w1], joined := [0, 1]);
    var l3 := Lane(1000.0, [w1], None, [500.0], [Permit(0, 0.0, 1000.0)], [0, 1], [0]);
    var l4 := l3.(sleeping := Some(1000.0));
    assert 60000.0 / 60.0 == 1000.0;
    assert LaneStep(FRESH, e[0]) == l1;
    assert LaneStep(l1, e[1]) == l2;
    assert LaneStep(l2, e[2]) == l3;
    assert LaneStep(l3, e[3]) == l4;
    var l5 := LaneStep(l4, e[4]);
    assert l5.releases == [500.0, 1000.0];
    assert l5.permits == [Permit(0, 0.0, 1000.0), Permit(1, 1000.0, 1000.0)];
    LaneRunOfFive(e);
    LaneOfRun(map[], e, m);
  }

  lemma LaneRunOfFive(e: seq<Event>)
    requires |e| == 5
    ensures LaneRun(FRESH, e) == LaneStep(LaneStep(LaneStep(LaneStep(LaneStep(FRESH, e[0]), e[1]), e[2]), e[3]), e[4])
  {
    var e1, e2, e3, e4 := e[1..], e[2..], e[3..], e[4..];
    assert e1[1..] == e2 && e2[1..] == e3 && e3[1..] == e4 && e4[1..] == [];
    var l1 := LaneStep(FRESH, e[0]);
    var l2 := LaneStep(l1, e[1]);
    var l3 := LaneStep(l2, e[2]);
    var l4 := LaneStep(l3, e[3]);
    assert LaneRun(l4, e4) == LaneStep(l4, e[4]);
    assert LaneRun(l3, e3) == LaneRun(l4, e4);
    assert LaneRun(l2, e2) == LaneRun(l3, e3);
    assert LaneRun(l1, e1) == LaneRun(l2, e2);
  }

  function LateRun(m: Model): seq<Event> {
    [Acquire(m, 0, Some(60.0)), Acquire(m, 1, Some(60.0)), Started(m, 0.0, 0.0, 500.0),
     Started(m, 500.0, 500.0, 500.0), Woken(m, 1000.0, 1000.0)]
  }

  function LaneRun(l: Lane, events: seq<Event>): Lane
    decreases |events|
  {
    if events == [] then l else LaneRun(LaneStep(l, events[0]), events[1..])
  }

  lemma {:induction false} LaneOfRun(s: Limiter, events: seq<Event>, m: Model)
    requires forall i :: 0 <= i < |events| ==> events[i].model == m
    ensures LaneOf(RunOf(s, events), m) == LaneRun(LaneOf(s, m), events)
    decreases |events|
  {
    if events != [] {
      LaneOfRun(Step(s, events[0]), events[1..], m);
    }
  }

  // ----- The object -----

  class RateLimiter {
    /** The callers of each model that have not settled, and the sleep of the first. */
    var chains: map<Model, seq<Waiting>>
    var sleeps: map<Model, real>
    var nextAt: map<Model, real>
    /** What the clock read at each release. */
    var releases: map<Model, seq<real>>
    ghost var permits: map<Model, seq<Permit>>
    ghost var joined: map<Model, seq<nat>>
    ghost var settled: map<Model, seq<nat>>

    ghost function State(m: Model): Lane
      reads this
    {
      Lane(Get(nextAt, m, 0.0), Get(chains, m, []), if m in sleeps then Some(sleeps[m]) else None,
           Get(releases, m, []), Get(permits, m, []), Get(joined, m, []), Get(settled, m, []))
    }

    constructor ()
      ensures forall m :: State(m) == FRESH && Inv(State(m))
    {
      chains, sleeps, nextAt, releases, permits, joined, settled := map[], map[], map[], map[], map[], map[], map[];
    }

    /** A call up to its first await; an unlimited model resolves it at once. */
    method Acquire(model: Model, key: nat, rpm: Option<real>) returns (atOnce: bool)
      modifies this
      ensures atOnce == Unlimited(rpm)
      ensures State(model) == LaneStep(old(State(model)), Event.Acquire(model, key, rpm))
      ensures forall m :: m != model ==> State(m) == old(State(m))
    {
      if rpm.None? || rpm.value <= 0.0 {
        return true;
      }
      var interval := 60000.0 / rpm.value;
      chains := chains[model := Get(chains, model, []) + [Waiting(key, interval)]];
      joined := joined[model := Get(joined, model, []) + [key]];
      return false;
    }

    /** The head leaves its chain, and the chain's entry goes with its last caller. */
    method Leave(model: Model) returns (head: Waiting)
      requires model in chains && chains[model] != []
      modifies this`chains, this`sleeps
      ensures head == old(chains[model][0]) && Get(chains, model, []) == old(chains[model][1..])
      ensures sleeps == old(sleeps) - {model}
      ensures forall m :: m != model ==> Get(chains, m, []) == Get(old(chains), m, [])
    {
      head := chains[model][0];
      var rest := chains[model][1..];
      chains := if rest == [] then chains - {model} else chains[model := rest];
      sleeps := sleeps - {model};
    }

    /** The window opens for the head, and closes behind it. */
    method Open(model: Model, at: real, now: real, logged: real)
      requires model in chains && chains[model] != []
      modifies this
      ensures State(model) == Finish(old(State(model)), at, now, logged)
      ensures forall m :: m != model ==> State(m) == old(State(m))
    {
      var head := Leave(model);
      var time := if now < at then at else now;
      nextAt := nextAt[model := time + head.interval];
      releases := releases[model := Get(releases, model, []) + [logged]];
      permits := permits[model := Get(permits, model, []) + [Permit(head.key, time, head.interval)]];
      settled := settled[model := Get(settled, model, []) + [head.key]];
      forall m | m != model
        ensures State(m) == old(State(m))
      {
        assert m in sleeps <==> m in old(sleeps);
      }
    }

    /** The head of the chain starts: `now` for the wait, `again` for the window, `logged` for the log. */
    method StartPace(model: Model, now: real, again: real, logged: real)
      modifies this
      ensures State(model) == LaneStep(old(State(model)), Started(model, now, again, logged))
      ensures forall m :: m != model ==> State(m) == old(State(m))
    {
      if model !in chains || chains[model] == [] || model in sleeps {
        return;
      }
      var at := Get(nextAt, model, 0.0);
      if at - now > 0.0 {
        sleeps := sleeps[model := at];
        return;
      }
      Open(model, at, again, logged);
    }

    method WakePace(model: Model, now: real, logged: real)
      modifies this
      ensures State(model) == LaneStep(old(State(model)), Woken(model, now, logged))
      ensures forall m :: m != model ==> State(m) == old(State(m))
    {
      if model !in chains || chains[model] == [] || model !in sleeps {
        return;
      }
      Open(model, sleeps[model], now, logged);
    }

    /** A rejected sleep rejects its caller and everyone chained behind it. */
    method FailPace(model: Model)
      modifies this
      ensures State(model) == LaneStep(old(State(model)), SleepFailed(model))
      ensures forall m :: m != model ==> State(m) == old(State(m))
    {
      if model !in sleeps {
        return;
      }
      settled := settled[model := Get(settled, model, []) + Keys(Get(chains, model, []))];
      chains, sleeps := chains - {model}, sleeps - {model};
    }
  }

  function Get<K, V>(m: map<K, V>, k: K, default: V): V {
    if k in m then m[k] else default
  }
}
