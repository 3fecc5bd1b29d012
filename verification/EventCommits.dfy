/** What becomes of an emit: which are accepted, which are committed under which number, which fail. */
module EventCommits {
  import opened Prelude
  import opened EventMachine
  import opened EventSafety

  // ----- One flush -----

  /** Every emit of the batch is told its number: the i-th the i-th one behind the counter. */
  function Told(base: nat, batch: seq<nat>): seq<Settlement> {
    seq(|batch|, i requires 0 <= i < |batch| => Settlement(batch[i], Committed(base + i + 1)))
  }

  function TheirRows(base: nat, batch: seq<nat>): seq<EventRow> {
    seq(|batch|, i requires 0 <= i < |batch| => EventRow(base + i + 1, Emitted(batch[i])))
  }

  function AllFailed(batch: seq<nat>): seq<Settlement> {
    seq(|batch|, i requires 0 <= i < |batch| => Settlement(batch[i], Failed))
  }

  lemma BatchInOneGo(base: nat, batch: seq<nat>)
    ensures BatchSettled(base, batch) == Told(base, batch) && BatchRows(base, batch) == TheirRows(base, batch)
    ensures BatchFailed(batch) == AllFailed(batch)
  {
    BatchRowsNumbered(base, batch);
    BatchSettledNumbered(base, batch);
    BatchFailedAll(batch);
  }

  /** A transaction that commits writes the whole batch, each emit under its own number; one that fails
      writes nothing and fails the whole batch. */
  lemma FlushDecides(s: Store, o: Options, ok: bool)
    requires s.inFlight.Some?
    ensures var t, batch := Step(s, o, Flushed(ok)), s.inFlight.value;
      var base := if s.db.counter.Some? then s.db.counter.value else 0;
      && t.inFlight.None?
      && t.settled == s.settled + (if ok then Told(base, batch) else AllFailed(batch))
      && t.db == if ok then Db(Some(base + |batch|), s.db.rows + TheirRows(base, batch)) else s.db
  {
    BatchInOneGo(Next(s.db), s.inFlight.value);
  }

  // ----- Producers and batches -----

  /** The next producer that looks for room finds it exactly if fewer than `maxPending` emits are pending;
      then its emit is the last to be flushed, and else it waits behind the others. An emit that cannot be
      serialized is refused at once. */
  lemma EmitDecides(s: Store, o: Options, serializable: bool)
    ensures var t := Step(s, o, Emit(serializable));
      && t.issued == s.issued + 1
      && (t.refused == s.refused + [s.issued] <==> !serializable)
      && (t.accepted == s.accepted + [s.issued] && t.pending == s.pending + [s.issued] <==>
          serializable && |s.pending| < o.maxPending)
      && (t.blocked == s.blocked + [s.issued] <==> serializable && |s.pending| >= o.maxPending)
  {
  }

  lemma LookDecides(s: Store, o: Options)
    requires s.woken != []
    ensures var t := Step(s, o, Look);
      && t.woken == s.woken[1..] && t.issued == s.issued
      && (t.accepted == s.accepted + [s.woken[0]] && t.pending == s.pending + [s.woken[0]] <==>
          |s.pending| < o.maxPending)
      && (t.blocked == s.blocked + [s.woken[0]] <==> |s.pending| >= o.maxPending)
  {
  }

  /** A batch is never longer than `batchSize`, and an accepted emit never waits for the window in a full
      one. */
  ghost predicate Batched(s: Store, o: Options) {
    && (s.inFlight.Some? ==> |s.inFlight.value| <= o.batchSize)
    && (s.timer ==> |s.pending| < o.batchSize)
  }

  lemma {:induction false} RunIsBatched(s: Store, o: Options, events: seq<Event>)
    requires Batched(s, o)
    ensures Batched(RunOf(s, o, events), o)
    decreases |events|
  {
    if events != [] {
      RunIsBatched(Step(s, o, events[0]), o, events[1..]);
    }
  }

  /** An accepted emit that fills a batch has it flushed at once, without the window; one that does not leaves
      the window running. */
  lemma WindowDecides(s: Store, o: Options)
    requires |s.pending| < o.maxPending
    ensures var t := Step(s, o, Emit(true));
      if |s.pending| + 1 >= o.batchSize then t.scheduled == s.scheduled + 1 && !t.timer
      else t.scheduled == s.scheduled && t.timer
  {
  }

  /** The end of the window flushes what is pending, if there is anything; a window that does not run has no
      end. */
  lemma TimerDecides(s: Store, o: Options)
    ensures Step(s, o, Timer) ==
      if s.timer && s.pending != [] then s.(timer := false, scheduled := s.scheduled + 1) else s.(timer := false)
  {
  }

  /** Flushes do not overlap. One that finds nothing pending writes nothing; another takes as many emits as fit
      into a batch, from the front, and then all producers that wait look again, if there is room. */
  lemma DrainDecides(s: Store, o: Options)
    ensures var t := Step(s, o, Drain);
      if s.scheduled == 0 || s.inFlight.Some? then t == s
      else if s.pending == [] then t == s.(scheduled := s.scheduled - 1)
      else
        && t.scheduled == s.scheduled - 1 && t.inFlight.Some? && t.inFlight.value + t.pending == s.pending
        && |t.inFlight.value| == Min(|s.pending|, o.batchSize)
        && t.blocked == (if |t.pending| < o.maxPending then [] else s.blocked)
        && t.woken + t.blocked == s.woken + s.blocked
  {
  }

  /** The second writer adds one row, behind all others, exactly if the status changed and its transaction
      commits. */
  lemma FinalizeDecides(s: Store, o: Options, changed: bool, ok: bool)
    requires GapFree(s.db)
    ensures var t := Step(s, o, Finalize(changed, ok));
      && t.settled == s.settled
      && (t.db.rows == s.db.rows + [EventRow(|s.db.rows| + 1, Finalized)] <==> changed && ok)
      && (t.db == s.db <==> !(changed && ok))
  {
  }

  // ----- Every settlement comes from the flush of its batch -----

  function Before(s: Store, o: Options, events: seq<Event>, k: nat): Store
    requires k <= |events|
    decreases k
  {
    if k == 0 then s else Before(Step(s, o, events[0]), o, events[1..], k - 1)
  }

  /** In s a batch is in flight, and t is the state after its flush: the j-th settlement is that of its i-th
      emit. It has failed exactly if the transaction has, and else it has the i-th number behind the counter. */
  ghost predicate FlushSettles(s: Store, ok: bool, i: nat, j: nat, settlement: Settlement) {
    && s.inFlight.Some? && i < |s.inFlight.value| && j == |s.settled| + i
    && settlement == Settlement(s.inFlight.value[i], if ok then Committed(Next(s.db) + i + 1) else Failed)
  }

  ghost predicate SettledBy(s: Store, o: Options, events: seq<Event>, k: nat, j: nat, settlement: Settlement) {
    && k < |events| && events[k].Flushed?
    && var before := Before(s, o, events, k);
       j >= |before.settled| && FlushSettles(before, events[k].ok, j - |before.settled|, j, settlement)
  }

  lemma StepSettles(s: Store, o: Options, e: Event, j: nat)
    requires |s.settled| <= j < |Step(s, o, e).settled|
    ensures e.Flushed? && FlushSettles(s, e.ok, j - |s.settled|, j, Step(s, o, e).settled[j])
  {
    if e.Flushed? && s.inFlight.Some? {
      FlushDecides(s, o, e.ok);
    }
  }

  /** Behind every settlement of a run stands the end of one transaction, that of its own batch: the emit has
      failed exactly if that transaction failed. */
  lemma {:induction false} EverySettlementHasAFlush(s: Store, o: Options, events: seq<Event>, j: nat)
    requires |s.settled| <= j < |RunOf(s, o, events).settled|
    ensures exists k: nat :: SettledBy(s, o, events, k, j, RunOf(s, o, events).settled[j])
    decreases |events|
  {
    var t, rest := Step(s, o, events[0]), events[1..];
    if j < |t.settled| {
      StepSettles(s, o, events[0], j);
      RunExtends(t, o, rest);
      assert RunOf(s, o, events).settled[j] == t.settled[j];
      assert SettledBy(s, o, events, 0, j, t.settled[j]);
    } else {
      EverySettlementHasAFlush(t, o, rest, j);
      var k: nat :| SettledBy(t, o, rest, k, j, RunOf(t, o, rest).settled[j]);
      assert Before(s, o, events, k + 1) == Before(t, o, rest, k);
      assert SettledBy(s, o, events, k + 1, j, RunOf(s, o, events).settled[j]);
    }
  }

  // ----- Without a failed transaction -----

  ghost predicate AllCommit(events: seq<Event>) {
    forall k :: 0 <= k < |events| ==> events[k] != Flushed(false)
  }

  ghost predicate NoneFailed(s: Store) {
    forall j :: 0 <= j < |s.settled| ==> s.settled[j].outcome.Committed?
  }

  lemma {:induction false} RunCommits(s: Store, o: Options, events: seq<Event>)
    requires NoneFailed(s) && AllCommit(events)
    ensures NoneFailed(RunOf(s, o, events))
    decreases |events|
  {
    if events != [] {
      var t := Step(s, o, events[0]);
      StepExtends(s, o, events[0]);
      forall j | 0 <= j < |t.settled|
        ensures t.settled[j].outcome.Committed?
      {
        if j < |s.settled| {
          assert t.settled[j] == s.settled[j];
        } else {
          StepSettles(s, o, events[0], j);
        }
      }
      RunCommits(t, o, events[1..]);
    }
  }

  lemma {:induction false} AllCommitted(settled: seq<Settlement>)
    requires forall j :: 0 <= j < |settled| ==> settled[j].outcome.Committed?
    ensures CommittedKeys(settled) == Keys(settled)
    decreases |settled|
  {
    if settled != [] {
      var init := settled[..|settled| - 1];
      AllCommitted(init);
      assert Keys(settled) == Keys(init) + [settled[|settled| - 1].key];
    }
  }

  /** When no transaction fails, the rows of the emits are, in order, those accepted, but for the ones in
      flight and pending. */
  lemma AcceptedAreWritten(o: Options, events: seq<Event>)
    requires AllCommit(events)
    ensures var s := RunOf(Initial(), o, events);
      EmittedKeys(s.db.rows) + Flying(s) + s.pending == s.accepted
  {
    EveryRun(o, events);
    RunCommits(Initial(), o, events);
    AllCommitted(RunOf(Initial(), o, events).settled);
  }

  /** At rest they are all there: nothing that was accepted is missing from the database. */
  lemma RestWritesEverything(o: Options, events: seq<Event>)
    requires AllCommit(events) && o.batchSize >= 1 && o.maxPending >= 1
    ensures var s := RunOf(Initial(), o, events); AtRest(s) ==> EmittedKeys(s.db.rows) == s.accepted
  {
    var s := RunOf(Initial(), o, events);
    AcceptedAreWritten(o, events);
    if AtRest(s) {
      StrandsNobodyIff(o);
      assert s.pending == [];
    }
  }
}
