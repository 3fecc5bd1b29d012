/** The event store and the daemon's finalize transaction as code over one database. The methods are
    the code between two awaits, and refine one step of the event machine each. */
module EventStore {
  import opened Prelude
  import opened EventMachine
  import opened EventSafety
  import opened WorkflowStatus

  /** The counter and the event log, the workflow statuses, and the work items. */
  class Database {
    var counter: Option<nat>
    var rows: seq<EventRow>
    var statuses: Statuses
    var items: map<string, WorkItem>

    ghost function Contents(): Db
      reads this
    {
      Db(counter, rows)
    }

    ghost function AllTables(): Tables
      reads this
    {
      Tables(statuses, items, Contents())
    }

    constructor ()
      ensures AllTables() == Tables(map[], map[], Db(None, []))
    {
      counter, rows, statuses, items := None, [], map[], map[];
    }

    /** Seed the counter unless it is there, and add to it. */
    method Advance(count: nat) returns (next: nat)
      modifies this`counter
      ensures next == Next(old(Contents())) + count && counter == Some(next)
    {
      if counter.None? {
        counter := Some(0);
      }
      next := counter.value + count;
      counter := Some(next);
    }

    method Insert(row: EventRow)
      modifies this`rows
      ensures rows == old(rows) + [row]
    {
      rows := rows + [row];
    }

    method Restore(counter: Option<nat>, rows: seq<EventRow>)
      modifies this`counter, this`rows
      ensures Contents() == Db(counter, rows)
    {
      this.counter, this.rows := counter, rows;
    }

    /** The transaction body of a flush. It fails at the given insert, or at the commit when that is
        the length of the batch; the base is what the settlements are numbered from. */
    method InsertBatch(batch: seq<nat>, failAt: Option<nat>) returns (base: nat, ok: bool)
      modifies this`counter, this`rows
      ensures ok == (failAt.None? || failAt.value > |batch|)
      ensures base == Next(old(Contents()))
      ensures ok ==> Contents() == Db(Some(base + |batch|), old(rows) + BatchRows(base, batch))
    {
      var next := Advance(|batch|);
      base := next - |batch|;
      var i := 0;
      assert batch[..0] == [];
      while i < |batch|
        invariant 0 <= i <= |batch| && counter == Some(next)
        invariant failAt.Some? ==> i <= failAt.value
        invariant rows == old(rows) + BatchRows(base, batch[..i])
      {
        if failAt == Some(i) {
          return base, false;
        }
        Insert(EventRow(base + i + 1, Emitted(batch[i])));
        assert batch[..i + 1][..i] == batch[..i];
        i := i + 1;
      }
      assert batch[..i] == batch;
      ok := failAt != Some(|batch|);
    }
  }

  /** Probe the rows that apply to a key, the most specific first. */
  method ResolveStatus(db: Database, key: Key) returns (status: Option<string>)
    ensures status == Resolve(db.statuses, key)
  {
    var probes := [key, key.(unit := ""), key.(target := "")];
    for i := 0 to |probes|
      invariant forall j :: 0 <= j < i ==> probes[j] !in db.statuses
    {
      if probes[i] in db.statuses {
        assert (i > 0 ==> probes[0] !in db.statuses) && (i > 1 ==> probes[1] !in db.statuses);
        return Some(db.statuses[probes[i]]);
      }
    }
    assert probes[0] !in db.statuses && probes[1] !in db.statuses && probes[2] !in db.statuses;
    status := None;
  }

  /** The work item as the action says, if it exists; without a promotion or a status, not at all. */
  method WriteItem(db: Database, target: string, action: Action)
    modifies db`items
    ensures db.items == Promoted(old(db.items), target, action)
  {
    if target in db.items {
      var item := db.items[target];
      if action.promote {
        var status := if action.status.Some? then action.status.value else item.status;
        db.items := db.items[target := WorkItem(true, status)];
      } else if action.status.Some? {
        db.items := db.items[target := item.(status := action.status.value)];
      }
    }
  }

  /** A finalize transaction of the daemon: all of it, or when it is rolled back nothing. On the event
      log it is the second writer of the event machine. */
  method FinalizeWorkflowItem(db: Database, key: Key, action: Action, completion: Option<string>, ok: bool)
    modifies db
    ensures var before := old(db.AllTables());
      db.AllTables() == if ok then AfterFinalize(before, key, action, completion) else before
    ensures forall s: Store :: s.db == old(db.Contents()) ==>
      OnFinalize(s, old(Resolve(db.statuses, key)) != Some(StatusOf(action, completion)), ok) == s.(db := db.Contents())
  {
    var counter, rows, statuses, items := db.counter, db.rows, db.statuses, db.items;
    var status := StatusOf(action, completion);
    var previous := ResolveStatus(db, key);
    db.statuses := db.statuses[key := status];
    WriteItem(db, key.target, action);
    if previous != Some(status) {
      var next := db.Advance(1);
      db.Insert(EventRow(next, Finalized));
    }
    if !ok {
      db.Restore(counter, rows);
      db.statuses, db.items := statuses, items;
    }
  }

  class EventStore {
    const db: Database
    const options: Options
    var pending: seq<nat>
    /** Set while the flush window is open. */
    var flushTimer: bool
    /** The flushes chained behind the running one, and the batch of that one. */
    var flushTail: nat
    var inFlight: Option<seq<nat>>
    var roomWaiters: seq<nat>
    var woken: seq<nat>
    var issued: nat
    var settled: seq<Settlement>
    var refused: seq<nat>
    ghost var accepted: seq<nat>

    ghost function State(): Store
      reads this, db
    {
      Store(db.Contents(), pending, inFlight, roomWaiters, woken, flushTimer, flushTail, issued, accepted,
            settled, refused)
    }

    constructor (options: Options)
      ensures this.options == options && fresh(db)
      ensures State() == Initial() && Inv(State(), options)
    {
      this.options := options;
      db := new Database();
      pending, flushTimer, flushTail, inFlight := [], false, 0, None;
      roomWaiters, woken, issued, settled, refused, accepted := [], [], 0, [], [], [];
      new;
      InitialInv(options);
    }

    method ScheduleFlush()
      modifies this
      ensures State() == EventMachine.ScheduleFlush(old(State()), options)
    {
      if |pending| >= options.batchSize {
        flushTimer := false;
        flushTail := flushTail + 1;
        return;
      }
      if flushTimer {
        return;
      }
      flushTimer := true;
    }

    /** One round of the backpressure loop. */
    method Offer(key: nat)
      modifies this
      ensures State() == EventMachine.Offer(old(State()), options, key)
    {
      if |pending| >= options.maxPending {
        roomWaiters := roomWaiters + [key];
        return;
      }
      pending, accepted := pending + [key], accepted + [key];
      ScheduleFlush();
    }

    /** An emit up to its first await. A payload that cannot be serialized rejects the emit alone. */
    method Emit(serializable: bool)
      modifies this
      ensures State() == Step(old(State()), options, EventMachine.Emit(serializable))
    {
      var key := issued;
      issued := issued + 1;
      if !serializable {
        refused := refused + [key];
        return;
      }
      Offer(key);
    }

    /** The oldest woken producer looks again. */
    method Look()
      modifies this
      ensures State() == Step(old(State()), options, EventMachine.Look)
    {
      if woken != [] {
        var key := woken[0];
        woken := woken[1..];
        Offer(key);
      }
    }

    method FireTimer()
      modifies this
      ensures State() == Step(old(State()), options, Timer)
    {
      if flushTimer {
        flushTimer := false;
        if |pending| > 0 {
          flushTail := flushTail + 1;
        }
      }
    }

    /** The next chained flush up to its transaction. */
    method StartDrain()
      modifies this
      ensures State() == Step(old(State()), options, Drain)
    {
      if flushTail == 0 || inFlight.Some? {
        return;
      }
      flushTail := flushTail - 1;
      if |pending| == 0 {
        return;
      }
      var k := if |pending| < options.batchSize then |pending| else options.batchSize;
      var batch := pending[..k];
      pending := pending[k..];
      if |pending| < options.maxPending {
        woken, roomWaiters := woken + roomWaiters, [];
      }
      inFlight := Some(batch);
    }

    /** The transaction of the running flush, and the settlement of its emits. */
    method Flush(failAt: Option<nat>) returns (ok: bool)
      requires inFlight.Some?
      modifies this, db
      ensures ok == (failAt.None? || failAt.value > |old(inFlight).value|)
      ensures State() == Step(old(State()), options, Flushed(ok))
    {
      var batch := inFlight.value;
      var counter, rows := db.counter, db.rows;
      var base;
      base, ok := db.InsertBatch(batch, failAt);
      if !ok {
        db.Restore(counter, rows);
      }
      SettleBatch(batch, base, ok);
      inFlight := None;
    }

    /** Resolve each emit of the batch with its own number, or reject them all. */
    method SettleBatch(batch: seq<nat>, base: nat, ok: bool)
      modifies this`settled
      ensures settled == old(settled) + if ok then BatchSettled(base, batch) else BatchFailed(batch)
    {
      var i := 0;
      assert batch[..0] == [];
      while i < |batch|
        invariant 0 <= i <= |batch|
        invariant settled == old(settled) + if ok then BatchSettled(base, batch[..i]) else BatchFailed(batch[..i])
      {
        settled := settled + [Settlement(batch[i], if ok then Committed(base + i + 1) else Failed)];
        assert batch[..i + 1][..i] == batch[..i];
        i := i + 1;
      }
      assert batch[..i] == batch;
    }
  }
}
