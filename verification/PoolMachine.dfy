/** The worker pool as a state machine: one atomic step per handler. The environment (is a process
    still alive at dispatch, does a spawn succeed, does the write to it succeed) is an oracle,
    indexed by the number of dispatches tried so far. */
module PoolMachine {
  import opened Prelude

  const MAX_ATTEMPTS := 2

  /** A request in the pool: `key` is its identity, `rid` its wire id on the latest attempt. */
  datatype Request = PendingRequest(key: nat, rid: nat, attempts: nat)

  /** `buffer` is the output of the current process that does not make a line yet. What a process that
      is gone has left in it is never read, and is not kept here. */
  datatype Slot = Slot(proc: Option<nat>, buffer: string, busy: bool, current: Option<Request>)

  const VACANT := Slot(None, "", false, None)

  datatype Reason = Closed | SpawnFailed | Crashed | Protocol | Rpc | TimedOut

  /** How a request settled; a result carries the wire id and the process of the line it came in. */
  datatype Outcome = Resolved(rid: nat, proc: nat) | Rejected(reason: Reason)

  datatype Dispatch = Dispatch(key: nat, rid: nat, slot: nat, proc: nat)

  datatype Settlement = Settlement(key: nat, outcome: Outcome)

  datatype Answer = Answer(alive: bool, spawns: bool, writes: bool)

  /** `issued` numbers the accepted requests, `log` records the dispatches, `settled` the
      settlements, each in order. */
  datatype Pool = Pool(queue: seq<Request>, slots: seq<Slot>, nextId: nat, nextProc: nat, closed: bool,
                       tries: nat, issued: nat, log: seq<Dispatch>, settled: seq<Settlement>)

  /** One line of a worker's output, parsed. */
  datatype Line = Unparseable | NonObject | Reply(id: Option<nat>, isError: bool, hasResult: bool)

  datatype Environment = Environment(answer: nat -> Answer, parse: string -> Line)

  // ----- Dispatching -----

  function FreeSlot(slots: seq<Slot>): (r: Option<nat>)
    ensures r.Some? ==> r.value < |slots| && !slots[r.value].busy
    ensures r.Some? ==> forall i :: 0 <= i < r.value ==> slots[i].busy
    ensures r.None? ==> forall i :: 0 <= i < |slots| ==> slots[i].busy
  {
    if slots == [] then None
    else if !slots[0].busy then Some(0)
    else
      var rest := FreeSlot(slots[1..]);
      if rest.Some? then Some(rest.value + 1) else None
  }

  /** Nothing can be dispatched: the queue is empty or every slot is busy. */
  predicate Idle(s: Pool) {
    s.queue == [] || FreeSlot(s.slots).None?
  }

  /** The process that the i-th slot uses for its next request, if it has or can get one. */
  function Prepared(s: Pool, i: nat, answer: Answer): Option<nat>
    requires i < |s.slots|
  {
    if s.slots[i].proc.Some? && answer.alive then s.slots[i].proc
    else if answer.spawns then Some(s.nextProc)
    else None
  }

  /** Take the head of the queue to the i-th slot. */
  function DispatchTo(s: Pool, env: Environment, i: nat): Pool
    requires s.queue != [] && i < |s.slots|
  {
    var answer := env.answer(s.tries);
    var req := s.queue[0];
    var proc := Prepared(s, i, answer);
    var taken := s.(queue := s.queue[1..], tries := s.tries + 1);
    if proc.None? then
      taken.(slots := s.slots[i := VACANT], settled := s.settled + [Settlement(req.key, Rejected(SpawnFailed))])
    else
      var sent := PendingRequest(req.key, s.nextId, req.attempts + 1);
      var kept := proc == s.slots[i].proc && answer.alive;
      var entered := taken.(
        nextId := s.nextId + 1, nextProc := if kept then s.nextProc else s.nextProc + 1,
        log := s.log + [Dispatch(req.key, s.nextId, i, proc.value)]);
      if answer.writes then
        entered.(slots := s.slots[i := Slot(proc, if kept then s.slots[i].buffer else "", true, Some(sent))])
      else
        entered.(slots := s.slots[i := VACANT], settled := s.settled + [Settlement(req.key, Rejected(Crashed))])
  }

  /** Dispatch in queue order until the queue is empty or every slot is busy. */
  function Pump(s: Pool, env: Environment): Pool
    decreases |s.queue|
  {
    if Idle(s) then s else Pump(DispatchTo(s, env, FreeSlot(s.slots).value), env)
  }

  // ----- Handlers -----

  /** Free the i-th slot, settling the request in it, if any. */
  function Vacate(s: Pool, i: nat, proc: Option<nat>, outcome: Outcome): Pool
    requires i < |s.slots|
  {
    s.(slots := s.slots[i := Slot(proc, if proc.Some? then s.slots[i].buffer else "", false, None)],
       settled := if s.slots[i].current.None? then s.settled
                  else s.settled + [Settlement(s.slots[i].current.value.key, outcome)])
  }

  /** A request is accepted while the pool is open, and rejected at once when it is closed. */
  function OnRequest(s: Pool, env: Environment): Pool {
    if s.closed then s
    else Pump(s.(queue := s.queue + [PendingRequest(s.issued, 0, 0)], issued := s.issued + 1), env)
  }

  datatype Effect = Ignored | Vacates(proc: Option<nat>, outcome: Outcome)

  /** What a line of the process does to the request that it serves: only its latest wire id settles it,
      and garbage drops the process. */
  function EffectOf(current: Request, proc: nat, line: Line): Effect {
    match line
    case Unparseable => Vacates(None, Rejected(Protocol))
    case NonObject => Vacates(None, Rejected(Protocol))
    case Reply(id, isError, hasResult) =>
      if id != Some(current.rid) then Ignored
      else if isError then Vacates(Some(proc), Rejected(Rpc))
      else if !hasResult then Vacates(None, Rejected(Protocol))
      else Vacates(Some(proc), Resolved(current.rid, proc))
  }

  function OnLine(s: Pool, env: Environment, i: nat, proc: nat, line: Line): Pool {
    if i >= |s.slots| || s.slots[i].proc != Some(proc) || s.slots[i].current.None? then s
    else
      var effect := EffectOf(s.slots[i].current.value, proc, line);
      if effect.Ignored? then s else Pump(Vacate(s, i, effect.proc, effect.outcome), env)
  }

  // ----- Cutting output into lines -----

  /** Where the first line of a text ends. */
  function FirstBreak(text: string): (n: Option<nat>)
    ensures n.Some? ==> n.value < |text| && text[n.value] == '\n' && '\n' !in text[..n.value]
    ensures n.None? ==> '\n' !in text
  {
    if text == [] then None
    else if text[0] == '\n' then Some(0)
    else
      var rest := FirstBreak(text[1..]);
      if rest.Some? then Some(rest.value + 1) else None
  }

  /** A carriage return at the end does not belong to the line. */
  function Stripped(line: string): string {
    if line != [] && line[|line| - 1] == '\r' then line[..|line| - 1] else line
  }

  predicate Space(c: char) {
    || '\U{0009}' <= c <= '\U{000D}' || c in " \U{00A0}\U{1680}\U{2028}\U{2029}\U{202F}\U{205F}\U{3000}\U{FEFF}"
    || '\U{2000}' <= c <= '\U{200A}'
  }

  predicate Blank(line: string) {
    forall i :: 0 <= i < |line| ==> Space(line[i])
  }

  function Buffered(s: Pool, i: nat, buffer: string): Pool
    requires i < |s.slots|
  {
    s.(slots := s.slots[i := s.slots[i].(buffer := buffer)])
  }

  /** A complete line; blank ones are tolerated. */
  function OnRawLine(s: Pool, env: Environment, i: nat, proc: nat, line: string): Pool {
    if Blank(line) then s else OnLine(s, env, i, proc, env.parse(line))
  }

  /** Handle the complete lines of a text, until one of them makes the slot drop the process, and keep
      what remains. */
  function OnText(s: Pool, env: Environment, i: nat, proc: nat, text: string): Pool
    decreases |text|
  {
    if i >= |s.slots| || s.slots[i].proc != Some(proc) then s
    else if FirstBreak(text).None? then Buffered(s, i, text)
    else
      var n := FirstBreak(text).value;
      var line, rest := Stripped(text[..n]), text[n + 1..];
      OnText(OnRawLine(Buffered(s, i, rest), env, i, proc, line), env, i, proc, rest)
  }

  /** A chunk of output arrives. */
  function OnData(s: Pool, env: Environment, i: nat, proc: nat, chunk: string): Pool {
    if i >= |s.slots| || s.slots[i].proc != Some(proc) then s else OnText(s, env, i, proc, s.slots[i].buffer + chunk)
  }

  /** The timer of request `key` in the i-th slot fires: retry once at the head of the queue. */
  function OnTimeout(s: Pool, env: Environment, i: nat, key: nat): Pool {
    if i >= |s.slots| || s.slots[i].current.None? || s.slots[i].current.value.key != key then s
    else
      var req := s.slots[i].current.value;
      if req.attempts < MAX_ATTEMPTS then
        Pump(s.(queue := [req] + s.queue, slots := s.slots[i := VACANT]), env)
      else Pump(Vacate(s, i, None, Rejected(TimedOut)), env)
  }

  /** The process of the i-th slot exits, or reports that it could not be spawned. */
  function OnGone(s: Pool, env: Environment, i: nat, proc: nat, reason: Reason): Pool {
    if i >= |s.slots| || s.slots[i].proc != Some(proc) then s
    else Pump(Vacate(s, i, None, Rejected(reason)), env)
  }

  function ClosedAll(queue: seq<Request>): seq<Settlement> {
    if queue == [] then [] else [Settlement(queue[0].key, Rejected(Closed))] + ClosedAll(queue[1..])
  }

  /** Detach every slot from the i-th on, rejecting what is in flight. */
  function DetachFrom(s: Pool, i: nat): Pool
    decreases |s.slots| - i
  {
    if i >= |s.slots| then s else DetachFrom(Vacate(s, i, None, Rejected(Closed)), i + 1)
  }

  function OnClose(s: Pool): Pool {
    DetachFrom(s.(closed := true, queue := [], settled := s.settled + ClosedAll(s.queue)), 0)
  }

  datatype Event =
    | Ask
    | Data(slot: nat, proc: nat, chunk: string)
    | Timeout(slot: nat, key: nat)
    | Exit(slot: nat, proc: nat)
    | SpawnError(slot: nat, proc: nat)
    | Close

  function Step(s: Pool, env: Environment, e: Event): Pool {
    match e
    case Ask => OnRequest(s, env)
    case Data(i, proc, chunk) => OnData(s, env, i, proc, chunk)
    case Timeout(i, key) => OnTimeout(s, env, i, key)
    case Exit(i, proc) => OnGone(s, env, i, proc, Crashed)
    case SpawnError(i, proc) => OnGone(s, env, i, proc, SpawnFailed)
    case Close => if s.closed then s else OnClose(s)
  }

  function RunOf(s: Pool, env: Environment, events: seq<Event>): Pool
    decreases |events|
  {
    if events == [] then s else RunOf(Step(s, env, events[0]), env, events[1..])
  }

  /** A new pool: the constructor spawns a process for every slot, and throws when one fails. */
  function Initial(poolSize: nat): Pool {
    var slots := seq(poolSize, i requires 0 <= i < poolSize => Slot(Some(i), "", false, None));
    Pool([], slots, 1, poolSize, false, 0, 0, [], [])
  }
}
