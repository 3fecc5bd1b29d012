/** The event store as a state machine: micro-batching, backpressure, and one flush transaction at a
    time. The daemon's finalize transaction is a second writer on the same counter. */
module EventMachine {
  import opened Prelude

  /** Who wrote a row: the emit with that key, or a finalize transaction. */
  datatype Source = Emitted(key: nat) | Finalized

  datatype EventRow = EventRow(seqNo: nat, source: Source)

  /** The counter row is absent until the first transaction seeds it. */
  datatype Db = Db(counter: Option<nat>, rows: seq<EventRow>)

  datatype Outcome = Committed(seqNo: nat) | Failed

  datatype Settlement = Settlement(key: nat, outcome: Outcome)

  /** `pending`: accepted, not yet drained. `inFlight`: the batch whose transaction is running.
      `blocked`: producers waiting for room. `woken`: producers about to look again. `scheduled`:
      flushes queued behind the running one. `accepted`: every key ever put into `pending`, in
      order. `refused`: emits whose payload could not be serialized. */
  datatype Store = Store(
    db: Db, pending: seq<nat>, inFlight: Option<seq<nat>>, blocked: seq<nat>, woken: seq<nat>,
    timer: bool, scheduled: nat, issued: nat, accepted: seq<nat>, settled: seq<Settlement>, refused: seq<nat>)

  datatype Options = Options(batchSize: nat, maxPending: nat)

  // ----- Producers -----

  /** Flush at once when a batch is full, else make sure that the window timer runs. */
  function ScheduleFlush(s: Store, o: Options): Store {
    if |s.pending| >= o.batchSize then s.(timer := false, scheduled := s.scheduled + 1) else s.(timer := true)
  }

  /** A producer looks for room. */
  function Offer(s: Store, o: Options, key: nat): Store {
    if |s.pending| >= o.maxPending then s.(blocked := s.blocked + [key])
    else ScheduleFlush(s.(pending := s.pending + [key], accepted := s.accepted + [key]), o)
  }

  function OnEmit(s: Store, o: Options, serializable: bool): Store {
    var t := s.(issued := s.issued + 1);
    if serializable then Offer(t, o, s.issued) else t.(refused := s.refused + [s.issued])
  }

  /** A woken producer looks again. */
  function OnLook(s: Store, o: Options): Store {
    if s.woken == [] then s else Offer(s.(woken := s.woken[1..]), o, s.woken[0])
  }

  function OnTimer(s: Store): Store {
    if !s.timer then s
    else s.(timer := false, scheduled := if s.pending != [] then s.scheduled + 1 else s.scheduled)
  }

  // ----- Flushes -----

  function BatchLength(s: Store, o: Options): nat {
    if |s.pending| < o.batchSize then |s.pending| else o.batchSize
  }

  /** The next queued flush starts: it takes a batch and, when there is room, wakes the producers. */
  function OnDrain(s: Store, o: Options): Store {
    if s.scheduled == 0 || s.inFlight.Some? then s
    else if s.pending == [] then s.(scheduled := s.scheduled - 1)
    else
      var k := BatchLength(s, o);
      var t := s.(scheduled := s.scheduled - 1, pending := s.pending[k..], inFlight := Some(s.pending[..k]));
      if |t.pending| < o.maxPending then t.(woken := s.woken + s.blocked, blocked := []) else t
  }

  function Next(db: Db): nat {
    if db.counter.Some? then db.counter.value else 0
  }

  /** The rows of a batch, numbered upwards from base + 1. */
  function BatchRows(base: nat, batch: seq<nat>): seq<EventRow> {
    if batch == [] then []
    else BatchRows(base, batch[..|batch| - 1]) + [EventRow(base + |batch|, Emitted(batch[|batch| - 1]))]
  }

  function BatchSettled(base: nat, batch: seq<nat>): seq<Settlement> {
    if batch == [] then []
    else BatchSettled(base, batch[..|batch| - 1]) + [Settlement(batch[|batch| - 1], Committed(base + |batch|))]
  }

  function BatchFailed(batch: seq<nat>): seq<Settlement> {
    if batch == [] then []
    else BatchFailed(batch[..|batch| - 1]) + [Settlement(batch[|batch| - 1], Failed)]
  }

  /** The flush transaction ends: all rows and the counter, or nothing. */
  function OnFlushed(s: Store, ok: bool): Store {
    if s.inFlight.None? then s
    else
      var batch, base := s.inFlight.value, Next(s.db);
      if ok then
        s.(inFlight := None, settled := s.settled + BatchSettled(base, batch),
           db := Db(Some(base + |batch|), s.db.rows + BatchRows(base, batch)))
      else s.(inFlight := None, settled := s.settled + BatchFailed(batch))
  }

  /** A finalize transaction of the daemon: a row only when the status changed, and only if the
      transaction commits. */
  function OnFinalize(s: Store, changed: bool, ok: bool): Store {
    if !ok || !changed then s
    else s.(db := Db(Some(Next(s.db) + 1), s.db.rows + [EventRow(Next(s.db) + 1, Finalized)]))
  }

  datatype Event =
    | Emit(serializable: bool)
    | Look
    | Timer
    | Drain
    | Flushed(ok: bool)
    | Finalize(changed: bool, ok: bool)

  function Step(s: Store, o: Options, e: Event): Store {
    match e
    case Emit(serializable) => OnEmit(s, o, serializable)
    case Look => OnLook(s, o)
    case Timer => OnTimer(s)
    case Drain => OnDrain(s, o)
    case Flushed(ok) => OnFlushed(s, ok)
    case Finalize(changed, ok) => OnFinalize(s, changed, ok)
  }

  function RunOf(s: Store, o: Options, events: seq<Event>): Store
    decreases |events|
  {
    if events == [] then s else RunOf(Step(s, o, events[0]), o, events[1..])
  }

  function Initial(): Store {
    Store(Db(None, []), [], None, [], [], false, 0, 0, [], [], [])
  }
}
