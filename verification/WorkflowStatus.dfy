/** Workflow statuses and the daemon's finalize transaction: the status row, the work item, and an event
    only when the resolved status changes. */
module WorkflowStatus {
  import opened Prelude
  import opened EventMachine

  /** Workflow, unit and target; an empty unit or target makes the row scoped. */
  datatype Key = Key(workflow: string, unit: string, target: string)

  type Statuses = map<Key, string>

  /** The first of the precise, the target-scoped and the unit-scoped row that exists. */
  function Resolve(statuses: Statuses, key: Key): Option<string> {
    if key in statuses then Some(statuses[key])
    else if key.(unit := "") in statuses then Some(statuses[key.(unit := "")])
    else if key.(target := "") in statuses then Some(statuses[key.(target := "")])
    else None
  }

  /** What a workflow's decider says: promote or not, with a status of its own or without. */
  datatype Action = Action(promote: bool, status: Option<string>)

  datatype WorkItem = WorkItem(accepted: bool, status: string)

  datatype Tables = Tables(statuses: Statuses, items: map<string, WorkItem>, events: Db)

  function StatusOf(action: Action, completion: Option<string>): string {
    if action.status.Some? then action.status.value
    else if completion.Some? then completion.value
    else "DONE"
  }

  function Promoted(items: map<string, WorkItem>, target: string, action: Action): map<string, WorkItem> {
    if target !in items || (!action.promote && action.status.None?) then items
    else
      var item := items[target];
      var status := if action.status.Some? then action.status.value else item.status;
      items[target := WorkItem(item.accepted || action.promote, status)]
  }

  /** A finalize transaction that commits. */
  function AfterFinalize(t: Tables, key: Key, action: Action, completion: Option<string>): Tables {
    var status := StatusOf(action, completion);
    Tables(t.statuses[key := status], Promoted(t.items, key.target, action),
           if Resolve(t.statuses, key) == Some(status) then t.events
           else Db(Some(Next(t.events) + 1), t.events.rows + [EventRow(Next(t.events) + 1, Finalized)]))
  }

  /** A finalize transaction that promotes accepts the work item of its target, for good; a status of the
      action becomes the item's, and without a promotion and a status it stays as it is. No other item is
      touched. */
  lemma PromotionDecides(t: Tables, key: Key, action: Action, completion: Option<string>)
    ensures var u := AfterFinalize(t, key, action, completion);
      && u.items.Keys == t.items.Keys
      && (forall other :: other in t.items && other != key.target ==> u.items[other] == t.items[other])
      && (key.target in t.items ==>
          var before, after := t.items[key.target], u.items[key.target];
          && (after.accepted <==> before.accepted || action.promote)
          && after.status == if action.status.Some? then action.status.value else before.status)
  {
  }

  /** The status that is stored is the action's own, else the workflow's, else "DONE", and it is read back
      whatever scoped rows there are. */
  lemma StoredStatus(t: Tables, key: Key, own: string, completion: string, promote: bool)
    ensures Resolve(AfterFinalize(t, key, Action(promote, Some(own)), Some(completion)).statuses, key) == Some(own)
    ensures Resolve(AfterFinalize(t, key, Action(promote, None), Some(completion)).statuses, key) == Some(completion)
    ensures Resolve(AfterFinalize(t, key, Action(promote, None), None).statuses, key) == Some("DONE")
  {
  }

  // ----- The event log of one target -----

  datatype Call = Call(key: Key, action: Action, completion: Option<string>)

  function Run(t: Tables, calls: seq<Call>): Tables {
    if calls == [] then t
    else
      var last := calls[|calls| - 1];
      AfterFinalize(Run(t, calls[..|calls| - 1]), last.key, last.action, last.completion)
  }

  /** Whether the resolved status of a call's target changes. */
  predicate Changes(t: Tables, call: Call) {
    Resolve(t.statuses, call.key) != Some(StatusOf(call.action, call.completion))
  }

  function ChangeCount(t: Tables, calls: seq<Call>): nat {
    if calls == [] then 0
    else
      var init := calls[..|calls| - 1];
      ChangeCount(t, init) + if Changes(Run(t, init), calls[|calls| - 1]) then 1 else 0
  }

  /** A run of finalize transactions logs one event per change of a resolved status. */
  lemma {:induction false} OneEventPerChange(t: Tables, calls: seq<Call>)
    ensures t.events.rows <= Run(t, calls).events.rows
    ensures |Run(t, calls).events.rows| == |t.events.rows| + ChangeCount(t, calls)
    ensures Next(Run(t, calls).events) == Next(t.events) + ChangeCount(t, calls)
    decreases |calls|
  {
    if calls != [] {
      OneEventPerChange(t, calls[..|calls| - 1]);
    }
  }

  /** On the event log a finalize transaction is the second writer that the event store reckons with: it logs
      exactly a change of the resolved status. */
  lemma CallIsSecondWriter(t: Tables, call: Call, s: Store, o: Options)
    requires s.db == t.events
    ensures AfterFinalize(t, call.key, call.action, call.completion).events
         == Step(s, o, Finalize(Resolve(t.statuses, call.key) != Some(StatusOf(call.action, call.completion)), true)).db
  {
  }

  /** The last call for a precise key, if there is one. */
  function LastFor(calls: seq<Call>, key: Key): Option<string> {
    if calls == [] then None
    else
      var last := calls[|calls| - 1];
      if last.key == key then Some(StatusOf(last.action, last.completion)) else LastFor(calls[..|calls| - 1], key)
  }

  /** Once a target has been finalized, its resolved status is that of its own last call: calls for other
      targets, and for scoped rows, never hide or change it. */
  lemma {:induction false} OwnCallsDecide(t: Tables, calls: seq<Call>, key: Key)
    ensures LastFor(calls, key).Some? ==>
      key in Run(t, calls).statuses && Resolve(Run(t, calls).statuses, key) == LastFor(calls, key)
    ensures LastFor(calls, key).None? ==>
      (key in Run(t, calls).statuses <==> key in t.statuses)
      && (key in t.statuses ==> Resolve(Run(t, calls).statuses, key) == Resolve(t.statuses, key))
    decreases |calls|
  {
    if calls != [] {
      OwnCallsDecide(t, calls[..|calls| - 1], key);
    }
  }

  lemma OneMoreCall(t: Tables, calls: seq<Call>, call: Call)
    ensures Run(t, calls + [call]) == AfterFinalize(Run(t, calls), call.key, call.action, call.completion)
  {
    assert (calls + [call])[..|calls|] == calls;
  }

  /** A call for a target that was finalized before is logged exactly if it gives another status than that
      target's own last call, whatever other calls came in between; if not, it leaves the statuses alone. */
  lemma RepeatIsSilentIff(t: Tables, calls: seq<Call>, call: Call)
    requires LastFor(calls, call.key).Some?
    ensures var before, after := Run(t, calls), Run(t, calls + [call]);
      && (after.events == before.events <==>
          LastFor(calls, call.key) == Some(StatusOf(call.action, call.completion)))
      && (after.events == before.events ==> after.statuses == before.statuses)
  {
    OwnCallsDecide(t, calls, call.key);
    OneMoreCall(t, calls, call);
  }

  /** The row is the first of the scoped rows that decide a key without a row of its own. */
  predicate Decides(statuses: Statuses, key: Key, row: Key) {
    row == key.(unit := "") || (row == key.(target := "") && key.(unit := "") !in statuses)
  }

  /** Before that, a call for another key changes it exactly if it writes a different status to such a
      row: that of a target without a unit, or of a unit without a target. */
  lemma ScopedCallChangesIff(t: Tables, key: Key, call: Call)
    requires key !in t.statuses && call.key != key
    ensures Resolve(Run(t, [call]).statuses, key) != Resolve(t.statuses, key) <==>
            Decides(t.statuses, key, call.key)
            && Resolve(t.statuses, key) != Some(StatusOf(call.action, call.completion))
  {
    var none: seq<Call> := [];
    assert [call][..0] == none && Run(t, none) == t;
  }
}
