/** The adapter as code: BEGIN, savepoints named by the depth, and the queue of outermost transactions. */
module SqliteAdapter {
  import opened Prelude
  import opened Transactions

  /** One SQLite connection. Each statement says whether it succeeded. */
  class DatabaseSync<D> {
    var data: D
    var begun: Option<D>
    var savepoints: seq<Savepoint<D>>

    ghost function State(): Connection<D>
      reads this
    {
      Connection(data, begun, savepoints)
    }

    constructor (data: D)
      ensures State() == Connection(data, None, [])
    {
      this.data, begun, savepoints := data, None, [];
    }

    method Begin() returns (ok: bool)
      modifies this
      ensures ok == Transactions.Begin(old(State())).Some?
      ensures State() == if ok then Transactions.Begin(old(State())).value else old(State())
    {
      if begun.Some? {
        return false;
      }
      begun, savepoints := Some(data), [];
      return true;
    }

    method Commit(commits: D -> bool) returns (ok: bool)
      modifies this
      ensures ok == Transactions.Commit(old(State()), commits).Some?
      ensures State() == if ok then Transactions.Commit(old(State()), commits).value else old(State())
    {
      if begun.None? || !commits(data) {
        return false;
      }
      begun, savepoints := None, [];
      return true;
    }

    method Rollback() returns (ok: bool)
      modifies this
      ensures ok == Transactions.Rollback(old(State())).Some?
      ensures State() == if ok then Transactions.Rollback(old(State())).value else old(State())
    {
      if begun.None? {
        return false;
      }
      data, begun, savepoints := begun.value, None, [];
      return true;
    }

    method Savepoint(name: nat)
      requires begun.Some?
      modifies this
      ensures State() == Mark(old(State()), name)
    {
      savepoints := savepoints + [Transactions.Savepoint(name, data)];
    }

    method Find(name: nat) returns (found: Option<nat>)
      ensures found == Latest(savepoints, name)
    {
      var i := |savepoints|;
      assert savepoints[..i] == savepoints;
      while i > 0
        invariant 0 <= i <= |savepoints|
        invariant Latest(savepoints, name) == Latest(savepoints[..i], name)
      {
        if savepoints[i - 1].name == name {
          return Some(i - 1);
        }
        assert savepoints[..i][..i - 1] == savepoints[..i - 1];
        i := i - 1;
      }
      found := None;
    }

    method Release(name: nat) returns (ok: bool)
      modifies this
      ensures ok == Transactions.Release(old(State()), name).Some?
      ensures State() == if ok then Transactions.Release(old(State()), name).value else old(State())
    {
      var i := Find(name);
      if i.None? {
        return false;
      }
      savepoints := savepoints[..i.value];
      return true;
    }

    method RollbackTo(name: nat) returns (ok: bool)
      modifies this
      ensures ok == Transactions.RollbackTo(old(State()), name).Some?
      ensures State() == if ok then Transactions.RollbackTo(old(State()), name).value else old(State())
    {
      var i := Find(name);
      if i.None? {
        return false;
      }
      data, savepoints := savepoints[i.value].data, savepoints[..i.value + 1];
      return true;
    }
  }

  class SqliteAdapter<D> {
    const db: DatabaseSync<D>
    var txDepth: nat
    /** The outermost transactions that wait for their turn. */
    var txTail: seq<Call<D>>

    /** A transaction is open exactly while the depth is positive, and each nested one has a savepoint. */
    ghost predicate Valid()
      reads this, db
    {
      && (db.begun.Some? <==> txDepth > 0)
      && |db.savepoints| == if txDepth > 0 then txDepth - 1 else 0
    }

    constructor (data: D)
      ensures Valid() && fresh(db) && txDepth == 0 && txTail == [] && db.data == data
    {
      db := new DatabaseSync(data);
      txDepth, txTail := 0, [];
    }

    /** Queue an outermost transaction behind those already called. */
    method Transaction(fn: Program<D>, commits: D -> bool)
      modifies this`txTail
      ensures txTail == old(txTail) + [Call(fn, commits)]
    {
      txTail := txTail + [Call(fn, commits)];
    }

    /** Run what is queued, each transaction only after the previous one has ended. */
    method RunQueue() returns (outcomes: seq<bool>)
      requires Valid() && txDepth == 0
      modifies this, db
      ensures Valid() && txDepth == 0 && txTail == []
      ensures db.data == Serial(old(db.data), old(txTail))
      ensures outcomes == Outcomes(old(db.data), old(txTail))
    {
      ghost var calls := txTail;
      ghost var i := 0;
      outcomes := [];
      assert calls[..0] == [];
      while txTail != []
        invariant 0 <= i <= |calls| && txTail == calls[i..]
        invariant Valid() && txDepth == 0
        invariant db.data == Serial(old(db.data), calls[..i]) && outcomes == Outcomes(old(db.data), calls[..i])
        decreases |txTail|
      {
        var call := txTail[0];
        txTail := txTail[1..];
        var ok := RunOuterTransaction(call.fn, call.commits);
        outcomes := outcomes + [ok];
        assert calls[..i + 1][..i] == calls[..i];
        i := i + 1;
      }
      assert calls[..i] == calls;
    }

    method RunOuterTransaction(fn: Program<D>, commits: D -> bool) returns (ok: bool)
      requires Valid() && txDepth == 0
      modifies this`txDepth, this`txTail, db
      ensures Valid() && txDepth == 0 && txTail == old(txTail)
      ensures Result(db.data, ok) == Outermost(Call(fn, commits), old(db.data))
      decreases fn, 1
    {
      var begun := db.Begin();
      txDepth := 1;
      ok := RunCallback(fn, commits);
      if ok {
        ok := db.Commit(commits);
      }
      if !ok {
        var rolledBack := db.Rollback();
      }
      txDepth := 0;
    }

    /** A nested transaction; outside a transaction it is queued as an outermost one, and its result is
        pending. */
    method NestedTransaction(fn: Program<D>, commits: D -> bool) returns (ok: Option<bool>)
      requires Valid()
      modifies this`txDepth, this`txTail, db
      ensures Valid() && txDepth == old(txDepth)
      ensures old(txDepth) == 0 ==>
        ok == None && txTail == old(txTail) + [Call(fn, commits)] && db.State() == old(db.State())
      ensures old(txDepth) > 0 ==>
        && ok == Some(Meaning(fn, old(db.data)).ok) && txTail == old(txTail)
        && db.State() == old(db.State()).(data := if ok.value then Meaning(fn, old(db.data)).data else old(db.data))
      decreases fn, 2
    {
      if txDepth == 0 {
        Transaction(fn, commits);
        return None;
      }
      var name := txDepth;
      ghost var before := db.State();
      db.Savepoint(name);
      txDepth := txDepth + 1;
      var returned := RunCallback(fn, commits);
      ClosingTheLast(db.State(), before.savepoints, Transactions.Savepoint(name, before.data));
      if returned {
        returned := db.Release(name);
      }
      if !returned {
        var undone := db.RollbackTo(name);
        if undone {
          var released := db.Release(name);
        }
      }
      txDepth := txDepth - 1;
      ok := Some(returned);
    }

    /** A callback inside a transaction. */
    method RunCallback(p: Program<D>, commits: D -> bool) returns (ok: bool)
      requires Valid() && txDepth > 0
      modifies this`txDepth, this`txTail, db
      ensures Valid() && txDepth == old(txDepth) && txTail == old(txTail)
      ensures ok == Meaning(p, old(db.data)).ok
      ensures db.State() == old(db.State()).(data := Meaning(p, old(db.data)).data)
      decreases p, 0
    {
      match p
      case Done => ok := true;
      case Throw => ok := false;
      case Query(test, yes, no) =>
        if test(db.data) {
          ok := RunCallback(yes, commits);
        } else {
          ok := RunCallback(no, commits);
        }
      case Execute(statement, next, handler) =>
        var written := statement(db.data);
        if written.Some? {
          db.data := written.value;
          ok := RunCallback(next, commits);
        } else {
          ok := RunCallback(handler, commits);
        }
      case Nested(body, next, handler) =>
        var nested := NestedTransaction(body, commits);
        if nested.value {
          ok := RunCallback(next, commits);
        } else {
          ok := RunCallback(handler, commits);
        }
    }
  }
}
