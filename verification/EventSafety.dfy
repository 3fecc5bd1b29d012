/** What every run of the event store keeps. */
module EventSafety {
  import opened Prelude
  import opened EventMachine

  // ----- Gap-free sequence numbers -----

  /** The rows carry exactly the numbers 1 .. counter, in order. */
  ghost predicate GapFree(db: Db) {
    |db.rows| == Next(db) && forall i :: 0 <= i < |db.rows| ==> db.rows[i].seqNo == i + 1
  }

  lemma {:induction false} BatchRowsNumbered(base: nat, batch: seq<nat>)
    ensures |BatchRows(base, batch)| == |batch|
    ensures forall i :: 0 <= i < |batch| ==> BatchRows(base, batch)[i] == EventRow(base + i + 1, Emitted(batch[i]))
    decreases |batch|
  {
    if batch != [] {
      BatchRowsNumbered(base, batch[..|batch| - 1]);
    }
  }

  lemma {:induction false} BatchSettledNumbered(base: nat, batch: seq<nat>)
    ensures |BatchSettled(base, batch)| == |batch|
    ensures forall i :: 0 <= i < |batch| ==>
      BatchSettled(base, batch)[i] == Settlement(batch[i], Committed(base + i + 1))
    decreases |batch|
  {
    if batch != [] {
      BatchSettledNumbered(base, batch[..|batch| - 1]);
    }
  }

  lemma {:induction false} BatchFailedAll(batch: seq<nat>)
    ensures |BatchFailed(batch)| == |batch|
    ensures forall i :: 0 <= i < |batch| ==> BatchFailed(batch)[i] == Settlement(batch[i], Failed)
    decreases |batch|
  {
    if batch != [] {
      BatchFailedAll(batch[..|batch| - 1]);
    }
  }

  // ----- Order -----

  function Keys(settled: seq<Settlement>): seq<nat> {
    seq(|settled|, i requires 0 <= i < |settled| => settled[i].key)
  }

  function Flying(s: Store): seq<nat> {
    if s.inFlight.Some? then s.inFlight.value else []
  }

  /** Accepted emits are settled, in flight and pending in the order in which they were accepted. */
  ghost predicate FirstInFirstOut(s: Store) {
    s.accepted == Keys(s.settled) + Flying(s) + s.pending
  }

  /** The keys of the rows that emits wrote, in row order. */
  function EmittedKeys(rows: seq<EventRow>): seq<nat> {
    if rows == [] then []
    else
      var last := rows[|rows| - 1].source;
      EmittedKeys(rows[..|rows| - 1]) + if last.Emitted? then [last.key] else []
  }

  /** The keys that were settled with a number, in settlement order. */
  function CommittedKeys(settled: seq<Settlement>): seq<nat> {
    if settled == [] then []
    else
      var last := settled[|settled| - 1];
      CommittedKeys(settled[..|settled| - 1]) + if last.outcome.Committed? then [last.key] else []
  }

  /** The rows of emits are the committed settlements, in the same order. */
  ghost predicate RowsInOrder(s: Store) {
    EmittedKeys(s.db.rows) == CommittedKeys(s.settled)
  }

  lemma EmittedLast(rows: seq<EventRow>, row: EventRow)
    ensures EmittedKeys(rows + [row]) == EmittedKeys(rows) + if row.source.Emitted? then [row.source.key] else []
  {
    assert (rows + [row])[..|rows|] == rows;
  }

  lemma {:induction false} EmittedAppendBatch(rows: seq<EventRow>, base: nat, batch: seq<nat>)
    ensures EmittedKeys(rows + BatchRows(base, batch)) == EmittedKeys(rows) + batch
    decreases |batch|
  {
    if batch == [] {
      assert rows + [] == rows;
    } else {
      var init, key := batch[..|batch| - 1], batch[|batch| - 1];
      var row := EventRow(base + |batch|, Emitted(key));
      EmittedAppendBatch(rows, base, init);
      Associative(rows, BatchRows(base, init), [row]);
      EmittedLast(rows + BatchRows(base, init), row);
      Associative(EmittedKeys(rows), init, [key]);
      assert batch == init + [key];
    }
  }

  lemma CommittedLast(settled: seq<Settlement>, x: Settlement)
    ensures CommittedKeys(settled + [x]) == CommittedKeys(settled) + if x.outcome.Committed? then [x.key] else []
  {
    assert (settled + [x])[..|settled|] == settled;
  }

  lemma {:induction false} CommittedAppendBatch(settled: seq<Settlement>, base: nat, batch: seq<nat>)
    ensures CommittedKeys(settled + BatchSettled(base, batch)) == CommittedKeys(settled) + batch
    decreases |batch|
  {
    if batch == [] {
      assert settled + [] == settled;
    } else {
      var init, key := batch[..|batch| - 1], batch[|batch| - 1];
      var x := Settlement(key, Committed(base + |batch|));
      CommittedAppendBatch(settled, base, init);
      Associative(settled, BatchSettled(base, init), [x]);
      CommittedLast(settled + BatchSettled(base, init), x);
      Associative(CommittedKeys(settled), init, [key]);
      assert batch == init + [key];
    }
  }

  lemma {:induction false} CommittedAppendFailed(settled: seq<Settlement>, batch: seq<nat>)
    ensures CommittedKeys(settled + BatchFailed(batch)) == CommittedKeys(settled)
    decreases |batch|
  {
    if batch == [] {
      assert settled + [] == settled;
    } else {
      var init, x := batch[..|batch| - 1], Settlement(batch[|batch| - 1], Failed);
      CommittedAppendFailed(settled, init);
      Associative(settled, BatchFailed(init), [x]);
      CommittedLast(settled + BatchFailed(init), x);
    }
  }

  /** An emit that was told a number owns the row with that number. */
  ghost predicate OwnRow(s: Store) {
    forall i :: 0 <= i < |s.settled| && s.settled[i].outcome.Committed? ==>
      var n := s.settled[i].outcome.seqNo;
      1 <= n <= |s.db.rows| && s.db.rows[n - 1] == EventRow(n, Emitted(s.settled[i].key))
  }

  // ----- Exactly once -----

  function Count(keys: seq<nat>, key: nat): nat {
    if keys == [] then 0 else (if keys[0] == key then 1 else 0) + Count(keys[1..], key)
  }

  lemma {:induction false} CountConcat(a: seq<nat>, b: seq<nat>, key: nat)
    ensures Count(a + b, key) == Count(a, key) + Count(b, key)
    decreases |a|
  {
    if a == [] {
      assert a + b == b;
    } else {
      assert (a + b)[1..] == a[1..] + b;
      CountConcat(a[1..], b, key);
    }
  }

  function Places(s: Store, key: nat): nat {
    Count(s.accepted, key) + Count(s.blocked, key) + Count(s.woken, key) + Count(s.refused, key)
  }

  /** Every emit is accepted, blocked, about to look again, or refused: one of them, once. */
  ghost predicate OnePlace(s: Store) {
    forall key: nat :: Places(s, key) == if key < s.issued then 1 else 0
  }

  // ----- Nobody is stranded -----

  /** The window timer runs only while no batch is full. */
  ghost predicate TimerFits(s: Store, o: Options) {
    s.timer ==> |s.pending| < o.batchSize
  }

  /** Producers block only while the queue is full. */
  ghost predicate Bounded(s: Store, o: Options) {
    && |s.pending| <= o.maxPending
    && (s.blocked != [] ==> |s.pending| == o.maxPending)
  }

  /** What every state keeps, whatever the options. */
  ghost predicate Inv(s: Store, o: Options) {
    && GapFree(s.db) && FirstInFirstOut(s) && RowsInOrder(s) && OwnRow(s) && OnePlace(s)
    && TimerFits(s, o) && Bounded(s, o)
  }

  /** The window timer or the scheduled flushes will take all that is pending. */
  ghost predicate Covered(s: Store, o: Options) {
    s.pending != [] ==> s.timer || s.scheduled * o.batchSize >= |s.pending|
  }

  // ----- Steps -----

  /** Every emit is in one place, but for the one about to be put somewhere. */
  ghost predicate OnePlaceBut(s: Store, key: nat) {
    forall k: nat :: Places(s, k) + (if k == key then 1 else 0) == if k < s.issued then 1 else 0
  }

  lemma OfferOnePlace(s: Store, o: Options, key: nat)
    requires OnePlaceBut(s, key)
    ensures OnePlace(Offer(s, o, key))
  {
    forall k: nat
      ensures Places(Offer(s, o, key), k) == if k < s.issued then 1 else 0
    {
      assert Places(s, k) + (if k == key then 1 else 0) == if k < s.issued then 1 else 0;
      CountConcat(s.blocked, [key], k);
      CountConcat(s.accepted, [key], k);
      assert [key][1..] == [];
    }
  }

  /** The invariant while the emit with that key is on its way. */
  ghost predicate InvBut(s: Store, o: Options, key: nat) {
    && GapFree(s.db) && FirstInFirstOut(s) && RowsInOrder(s) && OwnRow(s) && OnePlaceBut(s, key)
    && TimerFits(s, o) && Bounded(s, o)
  }

  lemma OfferBounded(s: Store, o: Options, key: nat)
    requires TimerFits(s, o) && Bounded(s, o)
    ensures TimerFits(Offer(s, o, key), o) && Bounded(Offer(s, o, key), o)
  {
  }

  lemma OfferKeeps(s: Store, o: Options, key: nat)
    requires InvBut(s, o, key)
    ensures Inv(Offer(s, o, key), o)
  {
    OfferOnePlace(s, o, key);
    OfferBounded(s, o, key);
    Associative(Keys(s.settled) + Flying(s), s.pending, [key]);
  }

  /** The new emit's key is in no place yet. */
  lemma FreshKey(s: Store, t: Store)
    requires OnePlace(s) && t == s.(issued := s.issued + 1)
    ensures OnePlaceBut(t, s.issued)
  {
    forall k: nat
      ensures Places(t, k) + (if k == s.issued then 1 else 0) == if k < t.issued then 1 else 0
    {
      assert Places(s, k) == if k < s.issued then 1 else 0;
    }
  }

  lemma FreshKeeps(s: Store, o: Options)
    requires Inv(s, o)
    ensures InvBut(s.(issued := s.issued + 1), o, s.issued)
  {
    FreshKey(s, s.(issued := s.issued + 1));
  }

  lemma RefusedOnePlace(s: Store, key: nat)
    requires OnePlaceBut(s, key)
    ensures OnePlace(s.(refused := s.refused + [key]))
  {
    var t := s.(refused := s.refused + [key]);
    forall k: nat
      ensures Places(t, k) == if k < t.issued then 1 else 0
    {
      assert Places(s, k) + (if k == key then 1 else 0) == if k < s.issued then 1 else 0;
      CountConcat(s.refused, [key], k);
      assert [key][1..] == [];
    }
  }

  lemma EmitKeeps(s: Store, o: Options, serializable: bool)
    requires Inv(s, o)
    ensures Inv(OnEmit(s, o, serializable), o)
  {
    var t := s.(issued := s.issued + 1);
    FreshKeeps(s, o);
    if serializable {
      OfferKeeps(t, o, s.issued);
    } else {
      RefusedKeeps(t, o, s.issued);
    }
  }

  lemma RefusedKeeps(s: Store, o: Options, key: nat)
    requires InvBut(s, o, key)
    ensures Inv(s.(refused := s.refused + [key]), o)
  {
    RefusedOnePlace(s, key);
  }

  lemma LookingKey(s: Store, t: Store)
    requires OnePlace(s) && s.woken != [] && t == s.(woken := s.woken[1..])
    ensures OnePlaceBut(t, s.woken[0])
  {
    forall k: nat
      ensures Places(t, k) + (if k == s.woken[0] then 1 else 0) == if k < t.issued then 1 else 0
    {
      assert Places(s, k) == if k < s.issued then 1 else 0;
    }
  }

  lemma LookKeeps(s: Store, o: Options)
    requires Inv(s, o)
    ensures Inv(OnLook(s, o), o)
  {
    if s.woken != [] {
      var t := s.(woken := s.woken[1..]);
      LookingKey(s, t);
      OfferKeeps(t, o, s.woken[0]);
    }
  }

  lemma TimerKeeps(s: Store, o: Options)
    requires Inv(s, o)
    ensures Inv(OnTimer(s), o)
  {
    var t := OnTimer(s);
    forall k: nat
      ensures Places(t, k) == Places(s, k)
    {
    }
  }

  lemma DrainBounded(s: Store, o: Options)
    requires TimerFits(s, o) && Bounded(s, o)
    ensures TimerFits(OnDrain(s, o), o) && Bounded(OnDrain(s, o), o)
  {
  }

  lemma WakingKeepsPlaces(s: Store, t: Store, key: nat)
    requires t.accepted == s.accepted && t.refused == s.refused
    requires t.woken == s.woken + s.blocked && t.blocked == []
    ensures Places(t, key) == Places(s, key)
  {
    CountConcat(s.woken, s.blocked, key);
  }

  lemma DrainKeepsPlaces(s: Store, o: Options, key: nat)
    ensures Places(OnDrain(s, o), key) == Places(s, key) && OnDrain(s, o).issued == s.issued
  {
    var t := OnDrain(s, o);
    if t.woken != s.woken || t.blocked != s.blocked {
      WakingKeepsPlaces(s, t, key);
    }
  }

  lemma DrainOnePlace(s: Store, o: Options)
    requires OnePlace(s)
    ensures OnePlace(OnDrain(s, o))
  {
    forall k: nat
      ensures Places(OnDrain(s, o), k) == if k < s.issued then 1 else 0
    {
      DrainKeepsPlaces(s, o, k);
    }
    DrainKeepsPlaces(s, o, 0);
  }

  lemma DrainOrder(s: Store, o: Options)
    requires FirstInFirstOut(s)
    ensures FirstInFirstOut(OnDrain(s, o))
  {
    var t := OnDrain(s, o);
    if t.pending != s.pending {
      var n, before := BatchLength(s, o), Keys(s.settled);
      assert s.pending == s.pending[..n] + s.pending[n..];
      assert before + [] + (s.pending[..n] + s.pending[n..]) == before + s.pending[..n] + s.pending[n..];
    }
  }

  lemma DrainKeeps(s: Store, o: Options)
    requires Inv(s, o)
    ensures Inv(OnDrain(s, o), o)
  {
    DrainBounded(s, o);
    DrainOnePlace(s, o);
    DrainOrder(s, o);
  }

  lemma FlushedInOrder(s: Store, ok: bool)
    requires FirstInFirstOut(s)
    ensures FirstInFirstOut(OnFlushed(s, ok))
  {
    if s.inFlight.Some? {
      var batch, base, t := s.inFlight.value, Next(s.db), OnFlushed(s, ok);
      BatchSettledNumbered(base, batch);
      BatchFailedAll(batch);
      assert Keys(t.settled) == Keys(s.settled) + batch;
    }
  }

  lemma FlushedRows(s: Store, ok: bool)
    requires RowsInOrder(s)
    ensures RowsInOrder(OnFlushed(s, ok))
  {
    if s.inFlight.Some? {
      var batch, base := s.inFlight.value, Next(s.db);
      EmittedAppendBatch(s.db.rows, base, batch);
      CommittedAppendBatch(s.settled, base, batch);
      CommittedAppendFailed(s.settled, batch);
    }
  }

  lemma FlushedOrder(s: Store, ok: bool)
    requires FirstInFirstOut(s) && RowsInOrder(s)
    ensures FirstInFirstOut(OnFlushed(s, ok)) && RowsInOrder(OnFlushed(s, ok))
  {
    FlushedInOrder(s, ok);
    FlushedRows(s, ok);
  }

  lemma FlushedOwnRow(s: Store, ok: bool)
    requires GapFree(s.db) && OwnRow(s)
    ensures GapFree(OnFlushed(s, ok).db) && OwnRow(OnFlushed(s, ok))
  {
    if s.inFlight.Some? {
      BatchRowsNumbered(Next(s.db), s.inFlight.value);
      BatchSettledNumbered(Next(s.db), s.inFlight.value);
      BatchFailedAll(s.inFlight.value);
    }
  }

  lemma FlushedKeeps(s: Store, o: Options, ok: bool)
    requires Inv(s, o)
    ensures Inv(OnFlushed(s, ok), o)
  {
    FlushedOrder(s, ok);
    FlushedOwnRow(s, ok);
    assert forall k: nat :: Places(OnFlushed(s, ok), k) == Places(s, k);
  }

  lemma FinalizeKeeps(s: Store, o: Options, changed: bool, ok: bool)
    requires Inv(s, o)
    ensures Inv(OnFinalize(s, changed, ok), o)
  {
    var t := OnFinalize(s, changed, ok);
    if ok && changed {
      assert t.db.rows[..|t.db.rows| - 1] == s.db.rows;
    }
    assert forall k: nat :: Places(t, k) == Places(s, k);
  }

  lemma StepKeepsInv(s: Store, o: Options, e: Event)
    requires Inv(s, o)
    ensures Inv(Step(s, o, e), o)
  {
    match e
    case Emit(serializable) => EmitKeeps(s, o, serializable);
    case Look => LookKeeps(s, o);
    case Timer => TimerKeeps(s, o);
    case Drain => DrainKeeps(s, o);
    case Flushed(ok) => FlushedKeeps(s, o, ok);
    case Finalize(changed, ok) => FinalizeKeeps(s, o, changed, ok);
  }

  lemma {:induction false} RunKeepsInv(s: Store, o: Options, events: seq<Event>)
    requires Inv(s, o)
    ensures Inv(RunOf(s, o, events), o)
    decreases |events|
  {
    if events != [] {
      StepKeepsInv(s, o, events[0]);
      RunKeepsInv(Step(s, o, events[0]), o, events[1..]);
    }
  }

  lemma OneMoreFlush(n: nat, b: nat)
    ensures (n + 1) * b == n * b + b && n * b >= 0
  {
  }

  lemma OfferCovered(s: Store, o: Options, key: nat)
    requires TimerFits(s, o) && Covered(s, o) && o.batchSize >= 1
    ensures Covered(Offer(s, o, key), o)
  {
    OneMoreFlush(s.scheduled, o.batchSize);
  }

  lemma TimerCovered(s: Store, o: Options)
    requires TimerFits(s, o) && Covered(s, o)
    ensures Covered(OnTimer(s), o)
  {
    OneMoreFlush(s.scheduled, o.batchSize);
  }

  lemma DrainCovered(s: Store, o: Options)
    requires TimerFits(s, o) && Covered(s, o)
    ensures Covered(OnDrain(s, o), o)
  {
    if s.scheduled > 0 {
      OneMoreFlush(s.scheduled - 1, o.batchSize);
    }
  }

  lemma StepKeepsCovered(s: Store, o: Options, e: Event)
    requires TimerFits(s, o) && Covered(s, o) && o.batchSize >= 1
    ensures Covered(Step(s, o, e), o)
  {
    match e
    case Emit(serializable) => if serializable { OfferCovered(s.(issued := s.issued + 1), o, s.issued); }
    case Look => if s.woken != [] { OfferCovered(s.(woken := s.woken[1..]), o, s.woken[0]); }
    case Timer => TimerCovered(s, o);
    case Drain => DrainCovered(s, o);
    case Flushed(_) =>
    case Finalize(_, _) =>
  }

  lemma {:induction false} RunKeepsCovered(s: Store, o: Options, events: seq<Event>)
    requires Inv(s, o) && Covered(s, o) && o.batchSize >= 1
    ensures Covered(RunOf(s, o, events), o)
    decreases |events|
  {
    if events != [] {
      StepKeepsInv(s, o, events[0]);
      StepKeepsCovered(s, o, events[0]);
      RunKeepsCovered(Step(s, o, events[0]), o, events[1..]);
    }
  }

  lemma InitialInv(o: Options)
    ensures Inv(Initial(), o)
  {
  }

  // ----- Theorems -----

  /** Nothing is scheduled, running, or about to run. */
  predicate AtRest(s: Store) {
    !s.timer && s.scheduled == 0 && s.inFlight.None? && s.woken == []
  }

  /** Every accepted emit of a covered store at rest is settled, exactly once, and nobody waits for room. */
  lemma RestSettlesEverything(s: Store, o: Options)
    requires Inv(s, o) && Covered(s, o) && o.maxPending >= 1 && AtRest(s)
    ensures s.pending == [] && s.blocked == []
    ensures forall key: nat :: key < s.issued ==> Count(Keys(s.settled), key) + Count(s.refused, key) == 1
    ensures forall key: nat :: s.issued <= key ==> Count(Keys(s.settled), key) == 0
  {
    assert s.accepted == Keys(s.settled);
    forall key: nat
      ensures Count(Keys(s.settled), key) + Count(s.refused, key) == if key < s.issued then 1 else 0
    {
      assert Places(s, key) == if key < s.issued then 1 else 0;
    }
  }

  /** Rows and settlements are never taken back. */
  ghost predicate Extends(s: Store, t: Store) {
    s.db.rows <= t.db.rows && s.settled <= t.settled
  }

  lemma StepExtends(s: Store, o: Options, e: Event)
    ensures Extends(s, Step(s, o, e))
  {
  }

  lemma {:induction false} RunExtends(s: Store, o: Options, events: seq<Event>)
    ensures Extends(s, RunOf(s, o, events))
    decreases |events|
  {
    if events != [] {
      StepExtends(s, o, events[0]);
      RunExtends(Step(s, o, events[0]), o, events[1..]);
    }
  }

  /** Over every run, whatever the options: rows are numbered without a gap, emits leave in the order
      in which they were accepted and are told their own rows, each is in one place, and the queue is
      bounded. */
  lemma EveryRun(o: Options, events: seq<Event>)
    ensures Inv(RunOf(Initial(), o, events), o)
  {
    InitialInv(o);
    RunKeepsInv(Initial(), o, events);
  }

  /** In no run is a pending emit left without a timer or enough scheduled flushes. */
  ghost predicate AlwaysCovered(o: Options) {
    forall events :: Covered(RunOf(Initial(), o, events), o)
  }

  /** That is so exactly if batches are not empty, or nothing is ever queued. */
  lemma AlwaysCoveredIff(o: Options)
    ensures AlwaysCovered(o) <==> o.batchSize >= 1 || o.maxPending == 0
  {
    if o.batchSize >= 1 || o.maxPending == 0 {
      forall events
        ensures Covered(RunOf(Initial(), o, events), o)
      {
        EveryRun(o, events);
        if o.batchSize >= 1 {
          RunKeepsCovered(Initial(), o, events);
        }
      }
    } else {
      var s := Step(Initial(), o, Emit(true));
      var none: seq<Event> := [];
      assert [Emit(true)][1..] == none && RunOf(s, o, none) == s;
      assert RunOf(Initial(), o, [Emit(true)]) == s;
      assert s.pending == [0] && !Covered(s, o);
    }
  }

  // ----- The store always comes to rest -----

  /** The step does something. Emits and finalize transactions come from outside. */
  predicate Enabled(s: Store, e: Event) {
    match e
    case Look => s.woken != []
    case Timer => s.timer
    case Drain => s.scheduled > 0 && s.inFlight.None?
    case Flushed(_) => s.inFlight.Some?
    case Emit(_) => false
    case Finalize(_, _) => false
  }

  function Waiting(s: Store): nat {
    |s.pending| + |s.blocked| + |s.woken|
  }

  function Flushes(s: Store): nat {
    (if s.timer then 3 else 0) + 2 * s.scheduled + if s.inFlight.Some? then 1 else 0
  }

  /** Fewer emits wait; or as many wait and fewer look again; or only flush work is left, and less of it. */
  ghost predicate Closer(t: Store, s: Store) {
    || Waiting(t) < Waiting(s)
    || (Waiting(t) == Waiting(s) && |t.woken| < |s.woken|)
    || (Waiting(t) == Waiting(s) && |t.woken| == |s.woken| && Flushes(t) < Flushes(s))
  }

  /** Whatever step of its own the store takes, and in whatever order, it gets closer to rest. */
  lemma EnabledStepsAreCloser(s: Store, o: Options, e: Event)
    requires Bounded(s, o) && Enabled(s, e)
    ensures Closer(Step(s, o, e), s)
  {
  }

  lemma StuckIffAtRest(s: Store)
    ensures AtRest(s) <==> forall e: Event :: !Enabled(s, e)
  {
    if !AtRest(s) {
      assert Enabled(s, Look) || Enabled(s, Timer) || Enabled(s, Drain) || Enabled(s, Flushed(true));
    }
  }

  /** The store takes these steps on its own. */
  ghost predicate AllEnabled(s: Store, o: Options, events: seq<Event>)
    decreases |events|
  {
    events != [] ==> Enabled(s, events[0]) && AllEnabled(Step(s, o, events[0]), o, events[1..])
  }

  /** The first n of endless steps. */
  function First(n: nat, steps: nat -> Event): seq<Event> {
    seq(n, i requires 0 <= i < n => steps(i))
  }

  function Behind(steps: nat -> Event): nat -> Event {
    (i: nat) => steps(i + 1)
  }

  lemma FirstAndBehind(n: nat, steps: nat -> Event)
    ensures First(n + 1, steps)[0] == steps(0) && First(n + 1, steps)[1..] == First(n, Behind(steps))
  {
  }

  /** Whatever steps of its own the store takes, it cannot take them forever. */
  lemma {:induction false} NoEndlessRun(s: Store, o: Options, steps: nat -> Event) returns (n: nat)
    requires Inv(s, o)
    ensures !AllEnabled(s, o, First(n, steps))
    decreases Waiting(s), |s.woken|, Flushes(s)
  {
    n := 1;
    if Enabled(s, steps(0)) {
      EnabledStepsAreCloser(s, o, steps(0));
      StepKeepsInv(s, o, steps(0));
      var m := NoEndlessRun(Step(s, o, steps(0)), o, Behind(steps));
      n := m + 1;
      FirstAndBehind(m, steps);
    }
  }

  /** And it stops exactly at rest. */
  lemma {:induction false} RestsIffStuck(s: Store, o: Options, events: seq<Event>)
    requires AllEnabled(s, o, events)
    ensures AtRest(RunOf(s, o, events)) <==> forall e: Event :: !AllEnabled(s, o, events + [e])
    decreases |events|
  {
    if events == [] {
      StuckIffAtRest(s);
      forall e: Event
        ensures AllEnabled(s, o, events + [e]) <==> Enabled(s, e)
      {
        assert events + [e] == [e] && [e][1..] == events;
      }
    } else {
      forall e: Event
        ensures AllEnabled(s, o, events + [e]) <==> AllEnabled(Step(s, o, events[0]), o, events[1..] + [e])
      {
        assert (events + [e])[1..] == events[1..] + [e];
      }
      RestsIffStuck(Step(s, o, events[0]), o, events[1..]);
    }
  }

  /** There is such a way to rest from every state. */
  lemma {:induction false} ComesToRest(s: Store, o: Options) returns (events: seq<Event>)
    requires Inv(s, o)
    ensures AllEnabled(s, o, events) && AtRest(RunOf(s, o, events))
    decreases Waiting(s), |s.woken|, Flushes(s)
  {
    StuckIffAtRest(s);
    if AtRest(s) {
      return [];
    }
    var e: Event :| Enabled(s, e);
    EnabledStepsAreCloser(s, o, e);
    StepKeepsInv(s, o, e);
    var rest := ComesToRest(Step(s, o, e), o);
    events := [e] + rest;
    assert events[1..] == rest;
  }

  // ----- Options under which emits are stranded -----

  /** Whenever the store comes to rest, no emit waits for anything. */
  ghost predicate StrandsNobody(o: Options) {
    forall events: seq<Event> :: AtRest(RunOf(Initial(), o, events)) ==>
      RunOf(Initial(), o, events).pending == [] && RunOf(Initial(), o, events).blocked == []
  }

  /** One emit, one flush. With an empty batch the emit stays pending; without room it blocks. */
  lemma ZeroStrands(o: Options)
    requires o.batchSize == 0 || o.maxPending == 0
    ensures !StrandsNobody(o)
  {
    var events := [Emit(true), Drain, Flushed(true)];
    var s1 := Step(Initial(), o, Emit(true));
    var s2 := Step(s1, o, Drain);
    var s3 := Step(s2, o, Flushed(true));
    assert events[1..] == [Drain, Flushed(true)] && events[1..][1..] == [Flushed(true)];
    assert RunOf(s3, o, []) == s3;
    assert RunOf(s2, o, [Flushed(true)]) == s3;
    assert RunOf(s1, o, [Drain, Flushed(true)]) == s3;
    assert RunOf(Initial(), o, events) == s3;
    assert AtRest(s3) && (s3.pending != [] || s3.blocked != []);
  }

  lemma StrandsNobodyIff(o: Options)
    ensures StrandsNobody(o) <==> o.batchSize >= 1 && o.maxPending >= 1
  {
    if o.batchSize == 0 || o.maxPending == 0 {
      ZeroStrands(o);
    } else {
      forall events: seq<Event> | AtRest(RunOf(Initial(), o, events))
        ensures RunOf(Initial(), o, events).pending == [] && RunOf(Initial(), o, events).blocked == []
      {
        EveryRun(o, events);
        AlwaysCoveredIff(o);
        RestSettlesEverything(RunOf(Initial(), o, events), o);
      }
    }
  }
}
