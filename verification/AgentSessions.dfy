/**
 * The agent-session protocol of server/src/agent_ws.rs as a state machine.
 *
 * Connections, panel operations and node-list readers are tasks that interleave
 * freely. Each lock acquisition, each critical section and each database write is
 * one step, so a state lies between any two of them. The shared state is the one
 * the hub keeps: the `agents` map, the lock of that map, the `agents_admin` lock,
 * and per session an `Agent` object with its state lock and retired flag. `log`
 * records, in order, the activations, the closures run under a retirement, and
 * every database write made by `dispatch`.
 */
module AgentSessions {
  import opened Options
  import Reports

  /** The label of a task. A connection's label is also its session number. */
  type Id = nat
  type Node = int
  type Token = int

  /** What a panel operation retires: one node (rotate, delete) or all (restore). */
  datatype Target = One(node: Node) | All

  predicate Covers(target: Target, n: Node) {
    target.All? || target.node == n
  }

  datatype Frame = Hello | Report | PingResult | Unknown

  /** The database writes `dispatch` makes. */
  datatype Write = Facts | PingRow | Totals | Row(minute: int) | Seen

  datatype Event =
    | Activated(session: Id, node: Node)
    | Closure(target: Target)
    | Wrote(session: Id, node: Node, what: Write)

  /** The steps of `activate`, from asking for the admin lock to leaving it. */
  datatype ActivateAt =
    | AskAdmin | CheckToken | AskRemove | Remove
    | MarkOld(prev: Id) | LockOld(prev: Id) | DropOld(prev: Id)
    | AskInsert | Insert | LeaveAdmin

  /** The steps of `dispatch`: the lookup, the retired check, the writes, and the return with
    * what it answers: `ok` unless a store failed or the report was malformed. */
  datatype DispatchAt =
    | AskMap | Lookup | AskState | Check
    | WriteOne | ReadClock | Accumulate(now: int) | InsertRow(now: int) | TouchSeen
    | Finish(ok: bool)

  /** The steps of `release`, after which the connection is over. */
  datatype ReleaseAt = AskRelease | Release | MarkReleased | Over

  /** Where a connection stands in `serve`. */
  datatype ConnAt =
    | Activating(act: ActivateAt)
    | Idle
    | Dispatching(frame: Frame, dis: DispatchAt)
    | Leaving(rel: ReleaseAt)

  /** The steps of `retire_node_then` and `retire_all_then`. */
  datatype RetireAt =
    | AskGate | AskDrain | Drain
    | Mark(left: seq<Id>, held: seq<Id>)
    | Lock(left: seq<Id>, held: seq<Id>)
    | Running(held: seq<Id>)
    | Drop(held: seq<Id>)
    | Retired

  /** The steps of a node-list read, which holds the map lock only to copy handles. */
  datatype ViewAt = AskView | Reading | Viewed

  datatype Task =
    | Conn(node: Node, token: Token, at: ConnAt)
    | Retire(target: Target, ret: RetireAt)
    | View(view: ViewAt)

  /** One connected agent; `born` is the log position of its activation. */
  datatype Agent = Agent(node: Node, retired: bool, lock: Option<Id>, lastMinute: int, born: nat)

  datatype State = State(
    tasks: map<Id, Task>,
    agents: map<Node, Id>,
    objs: map<Id, Agent>,
    admin: Option<Id>,
    writer: Option<Id>,
    readers: set<Id>,
    tokens: map<Token, Node>,
    clock: int,
    log: seq<Event>)

  // ---- steps ----

  function Go(st: State, a: Id, at: ConnAt): State
    requires a in st.tasks && st.tasks[a].Conn?
  {
    st.(tasks := st.tasks[a := st.tasks[a].(at := at)])
  }

  function GoRetire(st: State, a: Id, ret: RetireAt): State
    requires a in st.tasks && st.tasks[a].Retire?
  {
    st.(tasks := st.tasks[a := st.tasks[a].(ret := ret)])
  }

  function SetRetired(st: State, s: Id): State
    requires s in st.objs
  {
    st.(objs := st.objs[s := st.objs[s].(retired := true)])
  }

  function SetLock(st: State, s: Id, lock: Option<Id>): State
    requires s in st.objs
  {
    st.(objs := st.objs[s := st.objs[s].(lock := lock)])
  }

  function Append(st: State, e: Event): State {
    st.(log := st.log + [e])
  }

  predicate MapFree(st: State) {
    st.writer.None? && st.readers == {}
  }

  predicate Live(st: State, node: Node, token: Token) {
    token in st.tokens && st.tokens[token] == node
  }

  predicate ActivateStep(st: State, st': State, a: Id, at: ActivateAt)
    requires a in st.tasks && st.tasks[a].Conn?
  {
    var node, token := st.tasks[a].node, st.tasks[a].token;
    match at
    case AskAdmin => st.admin.None? && st' == Go(st, a, Activating(CheckToken)).(admin := Some(a))
    case CheckToken =>
      // A refused token, or a failed query, returns and drops the admin lock.
      || (Live(st, node, token) && st' == Go(st, a, Activating(AskRemove)))
      || st' == Go(st, a, Leaving(Over)).(admin := None)
    case AskRemove => MapFree(st) && st' == Go(st, a, Activating(Remove)).(writer := Some(a))
    case Remove =>
      if node in st.agents
      then st' == Go(st, a, Activating(MarkOld(st.agents[node]))).(agents := st.agents - {node}, writer := None)
      else st' == Go(st, a, Activating(AskInsert)).(writer := None)
    case MarkOld(prev) => prev in st.objs && st' == SetRetired(Go(st, a, Activating(LockOld(prev))), prev)
    case LockOld(prev) =>
      && prev in st.objs && st.objs[prev].lock.None?
      && st' == SetLock(Go(st, a, Activating(DropOld(prev))), prev, Some(a))
    case DropOld(prev) => prev in st.objs && st' == SetLock(Go(st, a, Activating(AskInsert)), prev, None)
    case AskInsert => MapFree(st) && st' == Go(st, a, Activating(Insert)).(writer := Some(a))
    case Insert =>
      // The new session opens on the minute in progress.
      var entry := Agent(node, false, None, Reports.MinuteOf(st.clock), |st.log|);
      st' == Append(Go(st, a, Activating(LeaveAdmin)), Activated(a, node)).(
               agents := st.agents[node := a], objs := st.objs[a := entry], writer := None)
    case LeaveAdmin => st' == Go(st, a, Idle).(admin := None)
  }

  /** The loop of `serve`: a frame, the end of the loop, or a failed send that skips `release`. */
  predicate IdleStep(st: State, st': State, a: Id)
    requires a in st.tasks && st.tasks[a].Conn?
  {
    && a in st'.tasks && st'.tasks[a].Conn?
    && (match st'.tasks[a].at
        case Dispatching(_, dis) => dis == AskMap
        case Leaving(rel) => rel == AskRelease || rel == Over
        case _ => false)
    && st' == Go(st, a, st'.tasks[a].at)
  }

  /** `dispatch` up to the retired check, and its return. */
  predicate LookupStep(st: State, st': State, a: Id, frame: Frame, at: DispatchAt)
    requires a in st.tasks && st.tasks[a].Conn?
  {
    var node := st.tasks[a].node;
    match at
    case AskMap =>
      st.writer.None? && st' == Go(st, a, Dispatching(frame, Lookup)).(readers := st.readers + {a})
    case Lookup =>
      if node in st.agents && st.agents[node] == a
      then st' == Go(st, a, Dispatching(frame, AskState)).(readers := st.readers - {a})
      else st' == Go(st, a, Idle).(readers := st.readers - {a})
    case AskState =>
      && a in st.objs && st.objs[a].lock.None?
      && st' == SetLock(Go(st, a, Dispatching(frame, Check)), a, Some(a))
    case Check =>
      && a in st.objs
      && if st.objs[a].retired then st' == SetLock(Go(st, a, Idle), a, None)
         else st' == Go(st, a, Dispatching(frame, Opening(frame)))
              // A probe result without a task id or a reading writes nothing.
              || (frame == PingResult && st' == Go(st, a, Dispatching(frame, Finish(true))))
    case Finish(_) => a in st.objs && st' == SetLock(Go(st, a, Idle), a, None)
    case _ => false
  }

  /** What a frame starts with once it is past the check. */
  function Opening(frame: Frame): DispatchAt {
    match frame
    case Hello => WriteOne
    case Report => ReadClock
    case PingResult => WriteOne
    case Unknown => Finish(true)
  }

  /** The one write of a frame that is not a report. */
  function Single(frame: Frame): Write {
    if frame.Hello? then Facts else PingRow
  }

  /** The writes of `dispatch`. Any of them can fail, which ends the frame. */
  predicate WriteStep(st: State, st': State, a: Id, frame: Frame, at: DispatchAt)
    requires a in st.tasks && st.tasks[a].Conn?
  {
    var node := st.tasks[a].node;
    var done, failed := Dispatching(frame, Finish(true)), Dispatching(frame, Finish(false));
    match at
    case WriteOne =>
      || st' == Append(Go(st, a, done), Wrote(a, node, Single(frame)))
      || st' == Go(st, a, failed)
    // A malformed report is refused before the clock is read.
    case ReadClock => st' == Go(st, a, Dispatching(frame, Accumulate(st.clock))) || st' == Go(st, a, failed)
    case Accumulate(now) =>
      || st' == Append(Go(st, a, Dispatching(frame, InsertRow(now))), Wrote(a, node, Totals))
      || st' == Go(st, a, failed)
    case InsertRow(now) =>
      && a in st.objs
      && if Reports.Due(st.objs[a].lastMinute, now) then
           // The session's minute advances before the row is submitted.
           var minute := Reports.MinuteOf(now);
           var moved := st.(objs := st.objs[a := st.objs[a].(lastMinute := minute)]);
           || st' == Append(Go(moved, a, Dispatching(frame, TouchSeen)), Wrote(a, node, Row(minute)))
           || st' == Go(moved, a, failed)
         else st' == Go(st, a, Dispatching(frame, TouchSeen))
    case TouchSeen => st' == Append(Go(st, a, done), Wrote(a, node, Seen)) || st' == Go(st, a, failed)
    case _ => false
  }

  /** `release`: the map entry goes only while this session still holds it. */
  predicate ReleaseStep(st: State, st': State, a: Id, at: ReleaseAt)
    requires a in st.tasks && st.tasks[a].Conn?
  {
    var node := st.tasks[a].node;
    match at
    case AskRelease => MapFree(st) && st' == Go(st, a, Leaving(Release)).(writer := Some(a))
    case Release =>
      if node in st.agents && st.agents[node] == a
      then st' == Go(st, a, Leaving(MarkReleased)).(agents := st.agents - {node}, writer := None)
      else st' == Go(st, a, Leaving(Over)).(writer := None)
    case MarkReleased => a in st.objs && st' == SetRetired(Go(st, a, Leaving(Over)), a)
    case Over => false
  }

  predicate NoDup(s: seq<Id>) {
    forall i, j :: 0 <= i < j < |s| ==> s[i] != s[j]
  }

  /** `left` lists, in some order, the sessions a drain takes out of the map. */
  ghost predicate Drained(st: State, target: Target, left: seq<Id>) {
    && NoDup(left)
    && (forall n :: n in st.agents && Covers(target, n) ==> st.agents[n] in left)
    && (forall s :: s in left ==> s in st.objs && Covers(target, st.objs[s].node)
                                  && st.objs[s].node in st.agents && st.agents[st.objs[s].node] == s)
  }

  /** What a closure may do to the credentials: only those of its own nodes change. */
  ghost predicate Rekeyed(before: map<Token, Node>, after: map<Token, Node>, target: Target) {
    forall k: Token {:trigger k in before} {:trigger k in after} ::
      && (k in before && !Covers(target, before[k]) ==> k in after && after[k] == before[k])
      && (k in after && !Covers(target, after[k]) ==> k in before && before[k] == after[k])
  }

  ghost predicate RetireStep(st: State, st': State, a: Id, at: RetireAt)
    requires a in st.tasks && st.tasks[a].Retire?
  {
    var target := st.tasks[a].target;
    match at
    case AskGate => st.admin.None? && st' == GoRetire(st, a, AskDrain).(admin := Some(a))
    case AskDrain => MapFree(st) && st' == GoRetire(st, a, Drain).(writer := Some(a))
    case Drain =>
      exists left ::
        && Drained(st, target, left)
        && st' == GoRetire(st, a, Mark(left, [])).(
                    agents := map n | n in st.agents && !Covers(target, n) :: st.agents[n], writer := None)
    case Mark(left, held) =>
      // With every lock in hand the closure starts; the log records the start.
      if left == [] then st' == Append(GoRetire(st, a, Running(held)), Closure(target))
      else left[0] in st.objs && st' == SetRetired(GoRetire(st, a, Lock(left, held)), left[0])
    case Lock(left, held) =>
      && left != [] && left[0] in st.objs && st.objs[left[0]].lock.None?
      && st' == SetLock(GoRetire(st, a, Mark(left[1..], held + [left[0]])), left[0], Some(a))
    case Running(held) =>
      Rekeyed(st.tokens, st'.tokens, target) && st' == GoRetire(st, a, Drop(held)).(tokens := st'.tokens)
    case Drop(held) =>
      if held == [] then st' == GoRetire(st, a, Retired).(admin := None)
      else held[0] in st.objs && st' == SetLock(GoRetire(st, a, Drop(held[1..])), held[0], None)
    case Retired => false
  }

  predicate ViewStep(st: State, st': State, a: Id, at: ViewAt)
    requires a in st.tasks && st.tasks[a].View?
  {
    match at
    case AskView =>
      st.writer.None? && st' == st.(tasks := st.tasks[a := View(Reading)], readers := st.readers + {a})
    case Reading => st' == st.(tasks := st.tasks[a := View(Viewed)], readers := st.readers - {a})
    case Viewed => false
  }

  ghost predicate Step(st: State, st': State, a: Id) {
    && a in st.tasks
    && match st.tasks[a] {
       case Conn(_, _, at) =>
         (match at
          case Activating(act) => ActivateStep(st, st', a, act)
          case Idle => IdleStep(st, st', a)
          case Dispatching(frame, dis) =>
            LookupStep(st, st', a, frame, dis) || WriteStep(st, st', a, frame, dis)
          case Leaving(rel) => ReleaseStep(st, st', a, rel))
       case Retire(_, ret) => RetireStep(st, st', a, ret)
       case View(view) => ViewStep(st, st', a, view)
       }
  }

  predicate Starting(t: Task) {
    match t
    case Conn(_, _, at) => at == Activating(AskAdmin)
    case Retire(_, ret) => ret == AskGate
    case View(view) => view == AskView
  }

  ghost predicate Arrives(st: State, st': State, a: Id, t: Task) {
    a !in st.tasks && Starting(t) && st' == st.(tasks := st.tasks[a := t])
  }

  ghost predicate NodeCreated(st: State, st': State, k: Token, n: Node) {
    k !in st.tokens && st' == st.(tokens := st.tokens[k := n])
  }

  /** What happens around the tasks: a new one, a nondecreasing clock, a node created. */
  ghost predicate EnvStep(st: State, st': State) {
    || (exists a, t :: Arrives(st, st', a, t))
    || (st'.clock >= st.clock && st' == st.(clock := st'.clock))
    || (exists k, n :: NodeCreated(st, st', k, n))
  }

  ghost predicate Next(st: State, st': State) {
    EnvStep(st, st') || exists a :: Step(st, st', a)
  }

  predicate Init(st: State) {
    && st.tasks == map[] && st.agents == map[] && st.objs == map[]
    && st.admin == None && st.writer == None && st.readers == {} && st.log == []
  }

  ghost predicate NextAt(run: seq<State>, i: nat)
    requires i + 1 < |run|
  {
    Next(run[i], run[i + 1])
  }

  /** A run: any finite interleaving from a start of the hub. */
  ghost predicate IsRun(run: seq<State>) {
    && |run| > 0 && Init(run[0])
    && forall i: nat {:trigger NextAt(run, i)} :: i + 1 < |run| ==> NextAt(run, i)
  }

  /** `run` is a run and `st` the state it has come to. */
  ghost predicate Reached(run: seq<State>, st: State) {
    IsRun(run) && st == run[|run| - 1]
  }
}
