/**
 * The inductive invariant of the agent-session protocol. Each part is kept by
 * every step; AgentSessionsTheorems.dfy draws the conclusions.
 */
module AgentSessionsInvariant {
  import opened Options
  import opened AgentSessions
  import Reports

  // ---- what a task's position says ----

  predicate HoldsAdmin(t: Task) {
    match t
    case Conn(_, _, at) => at.Activating? && !at.act.AskAdmin?
    case Retire(_, ret) => !ret.AskGate? && !ret.Retired?
    case View(_) => false
  }

  predicate HoldsWriter(t: Task) {
    match t
    case Conn(_, _, at) => (at.Activating? && (at.act.Remove? || at.act.Insert?)) || at == Leaving(Release)
    case Retire(_, ret) => ret.Drain?
    case View(_) => false
  }

  predicate HoldsReader(t: Task) {
    match t
    case Conn(_, _, at) => at.Dispatching? && at.dis.Lookup?
    case Retire(_, _) => false
    case View(view) => view.Reading?
  }

  /** Past the retired check of `dispatch`, with database writes still to come. */
  predicate Writing(t: Task) {
    t.Conn? && t.at.Dispatching? && !t.at.dis.AskMap? && !t.at.dis.Lookup? && !t.at.dis.AskState?
    && !t.at.dis.Check? && !t.at.dis.Finish?
  }

  /** The state locks a retirement holds. */
  function Held(ret: RetireAt): seq<Id> {
    match ret
    case Mark(_, held) => held
    case Lock(_, held) => held
    case Running(held) => held
    case Drop(held) => held
    case _ => []
  }

  /** The sessions a retirement has taken out of the map and not yet locked. */
  function Left(ret: RetireAt): seq<Id> {
    match ret
    case Mark(left, _) => left
    case Lock(left, _) => left
    case _ => []
  }

  /** Task `a` holds the state lock of session `s`. */
  predicate HoldsState(a: Id, t: Task, s: Id) {
    match t
    case Conn(_, _, at) =>
      || (a == s && at.Dispatching? && !at.dis.AskMap? && !at.dis.Lookup? && !at.dis.AskState?)
      || at == Activating(DropOld(s))
    case Retire(_, ret) => s in Held(ret)
    case View(_) => false
  }

  /** Taken out of the map by `t` and not yet locked by it. */
  predicate Retiring(t: Task, s: Id) {
    match t
    case Conn(_, _, at) => at == Activating(MarkOld(s)) || at == Activating(LockOld(s))
    case Retire(_, ret) => s in Left(ret)
    case View(_) => false
  }

  /** `t` holds the admin lock and has emptied the map of node `n`. */
  predicate Cleared(t: Task, n: Node) {
    match t
    case Conn(node, _, at) =>
      node == n && at.Activating? && !at.act.AskAdmin? && !at.act.CheckToken? && !at.act.AskRemove?
      && !at.act.Remove? && !at.act.LeaveAdmin?
    case Retire(target, ret) => Covers(target, n) && (ret.Mark? || ret.Lock? || ret.Running? || ret.Drop?)
    case View(_) => false
  }

  predicate BeforeInsert(t: Task) {
    t.Conn? && t.at.Activating? && !t.at.act.LeaveAdmin?
  }

  predicate InMap(st: State, s: Id)
    requires s in st.objs
  {
    st.objs[s].node in st.agents && st.agents[st.objs[s].node] == s
  }

  /** Session `s` can never again write through `dispatch`. */
  predicate Fenced(st: State, s: Id)
    requires s in st.objs
  {
    && s in st.tasks && st.tasks[s].Conn?
    && (st.tasks[s].at.Leaving? || (st.objs[s].retired && !Writing(st.tasks[s])))
  }

  predicate Barrier(e: Event, n: Node) {
    match e
    case Activated(_, node) => node == n
    case Closure(target) => Covers(target, n)
    case Wrote(_, _, _) => false
  }

  predicate IsRow(e: Event) {
    e.Wrote? && e.what.Row?
  }

  // ---- the parts of the invariant ----
  //
  // Each is a claim about one task, session, node or log position, quantified with
  // that claim as the trigger, so a proof names the instances it needs.

  /** The three hub-wide locks are recorded as held by exactly the tasks that hold them. */
  predicate TaskLocks(st: State, a: Id)
    requires a in st.tasks
  {
    && (HoldsAdmin(st.tasks[a]) <==> st.admin == Some(a))
    && (HoldsWriter(st.tasks[a]) <==> st.writer == Some(a))
    && (HoldsReader(st.tasks[a]) <==> a in st.readers)
  }

  /** And so is each session's state lock. */
  predicate StateLock(st: State, a: Id, s: Id)
    requires a in st.tasks && s in st.objs
  {
    HoldsState(a, st.tasks[a], s) <==> st.objs[s].lock == Some(a)
  }

  predicate LockOwner(st: State, s: Id) {
    s in st.objs && st.objs[s].lock.Some? ==> st.objs[s].lock.value in st.tasks
  }

  ghost predicate Locks(st: State) {
    && (st.admin.Some? ==> st.admin.value in st.tasks)
    && (st.writer.Some? ==> st.writer.value in st.tasks && st.readers == {})
    && (forall a {:trigger a in st.readers} :: a in st.readers ==> a in st.tasks)
    && (forall a {:trigger TaskLocks(st, a)} :: a in st.tasks ==> TaskLocks(st, a))
    && (forall s {:trigger LockOwner(st, s)} :: LockOwner(st, s))
    && (forall a, s {:trigger StateLock(st, a, s)} :: a in st.tasks && s in st.objs ==> StateLock(st, a, s))
  }

  predicate Flagged(st: State, s: Id) {
    s in st.objs && st.objs[s].retired
  }

  predicate Pending(st: State, target: Target, s: Id) {
    s in st.objs && Covers(target, st.objs[s].node)
  }

  /** The sessions a retirement works on exist, are of its nodes, and are flagged in time. */
  ghost predicate RetireShape(st: State, target: Target, ret: RetireAt) {
    && NoDup(Left(ret)) && NoDup(Held(ret))
    && (forall s {:trigger s in Held(ret)} :: s in Held(ret) ==> Flagged(st, s))
    && (forall s {:trigger s in Left(ret)} :: s in Left(ret) ==> Pending(st, target, s) && s !in Held(ret))
    && (ret.Lock? ==> ret.left != [] && Flagged(st, ret.left[0]))
  }

  predicate ActivateShape(st: State, node: Node, act: ActivateAt) {
    && (act.MarkOld? || act.LockOld? || act.DropOld? ==> act.prev in st.objs && st.objs[act.prev].node == node)
    && (act.LockOld? || act.DropOld? ==> Flagged(st, act.prev))
  }

  ghost predicate TaskShape(st: State, a: Id)
    requires a in st.tasks
  {
    match st.tasks[a]
    case Conn(node, _, at) =>
      if at.Activating? then ActivateShape(st, node, at.act) && (at.act.LeaveAdmin? ==> a in st.objs)
      else at == Leaving(Over) || a in st.objs
    case Retire(target, ret) => RetireShape(st, target, ret)
    case View(_) => true
  }

  predicate ObjShape(st: State, s: Id) {
    s in st.objs ==>
    && s in st.tasks && st.tasks[s].Conn? && st.tasks[s].node == st.objs[s].node
    && !BeforeInsert(st.tasks[s])
    && st.objs[s].born < |st.log| && st.log[st.objs[s].born] == Activated(s, st.objs[s].node)
  }

  predicate NodeShape(st: State, n: Node) {
    n in st.agents ==>
    && st.agents[n] in st.objs && st.objs[st.agents[n]].node == n
    && (st.admin.Some? && st.admin.value in st.tasks ==> !Cleared(st.tasks[st.admin.value], n))
  }

  predicate BirthShape(st: State, i: nat)
    requires i < |st.log|
  {
    st.log[i].Activated? ==> st.log[i].session in st.objs && st.objs[st.log[i].session].born == i
  }

  ghost predicate Shape(st: State) {
    && (forall a {:trigger TaskShape(st, a)} :: a in st.tasks ==> TaskShape(st, a))
    && (forall s {:trigger ObjShape(st, s)} :: ObjShape(st, s))
    && (forall n {:trigger NodeShape(st, n)} :: NodeShape(st, n))
    && (forall i: nat {:trigger BirthShape(st, i)} :: i < |st.log| ==> BirthShape(st, i))
  }

  /** An activated session is in the map, fenced, or being retired right now. */
  predicate Accounted(st: State, s: Id)
    requires s in st.objs
  {
    || InMap(st, s)
    || Fenced(st, s)
    || (st.admin.Some? && st.admin.value in st.tasks && Retiring(st.tasks[st.admin.value], s))
  }

  /** Whatever was activated before a barrier of its node is fenced. */
  predicate FencedBy(st: State, s: Id, i: nat)
    requires s in st.objs && i < |st.log|
  {
    st.objs[s].born < i && Barrier(st.log[i], st.objs[s].node) ==> Fenced(st, s)
  }

  ghost predicate Fences(st: State) {
    && (forall s {:trigger Accounted(st, s)} :: s in st.objs ==> Accounted(st, s))
    && (forall s, i: nat {:trigger FencedBy(st, s, i)} :: s in st.objs && i < |st.log| ==> FencedBy(st, s, i))
  }

  /** No barrier of its node lies between a session's activation and a write of it. */
  ghost predicate UnfencedWrite(st: State, j: nat)
    requires j < |st.log|
  {
    st.log[j].Wrote? ==>
      var s := st.log[j].session;
      && s in st.objs && st.objs[s].node == st.log[j].node && st.objs[s].born < j
      && forall i {:trigger Barrier(st.log[i], st.log[j].node)} ::
           st.objs[s].born < i < j ==> !Barrier(st.log[i], st.log[j].node)
  }

  ghost predicate Writes(st: State) {
    forall j: nat {:trigger UnfencedWrite(st, j)} :: j < |st.log| ==> UnfencedWrite(st, j)
  }

  /** What a session's minute and its clock reading are bounded by. */
  predicate MinuteOk(st: State, s: Id)
    requires s in st.objs
  {
    && st.objs[s].lastMinute <= Reports.MinuteOf(st.clock)
    && (s in st.tasks && st.tasks[s].Conn? && st.tasks[s].at.Dispatching?
        && (st.tasks[s].at.dis.Accumulate? || st.tasks[s].at.dis.InsertRow?) ==>
          && st.tasks[s].at.dis.now <= st.clock
          && st.objs[s].lastMinute <= Reports.MinuteOf(st.tasks[s].at.dis.now))
  }

  /** A row lies behind the clock. */
  predicate RowClock(st: State, j: nat)
    requires j < |st.log|
  {
    IsRow(st.log[j]) ==> st.log[j].what.minute <= Reports.MinuteOf(st.clock)
  }

  /** And behind the minute of whoever can still write for its node. */
  predicate RowBehind(st: State, s: Id, j: nat)
    requires s in st.objs && j < |st.log|
  {
    IsRow(st.log[j]) && st.log[j].node == st.objs[s].node && !Fenced(st, s) ==>
      st.log[j].what.minute <= st.objs[s].lastMinute
  }

  predicate RowOrder(st: State, i: nat, j: nat)
    requires i < j < |st.log|
  {
    IsRow(st.log[i]) && IsRow(st.log[j]) && st.log[i].node == st.log[j].node ==>
      st.log[i].what.minute < st.log[j].what.minute
  }

  ghost predicate Rows(st: State) {
    && (forall s {:trigger MinuteOk(st, s)} :: s in st.objs ==> MinuteOk(st, s))
    && (forall j: nat {:trigger RowClock(st, j)} :: j < |st.log| ==> RowClock(st, j))
    && (forall s, j: nat {:trigger RowBehind(st, s, j)} :: s in st.objs && j < |st.log| ==> RowBehind(st, s, j))
    && (forall i: nat, j: nat {:trigger RowOrder(st, i, j)} :: i < j < |st.log| ==> RowOrder(st, i, j))
  }

  /** Whoever can still write, or is past its token check, presents a live token. */
  predicate TokenOk(st: State, a: Id)
    requires a in st.tasks
  {
    st.tasks[a].Conn? && ((a in st.objs && !Fenced(st, a)) || (BeforeInsert(st.tasks[a])
      && !st.tasks[a].at.act.AskAdmin? && !st.tasks[a].at.act.CheckToken?)) ==>
      Live(st, st.tasks[a].node, st.tasks[a].token)
  }

  ghost predicate Tokens(st: State) {
    forall a {:trigger TokenOk(st, a)} :: a in st.tasks ==> TokenOk(st, a)
  }

  ghost predicate Inv(st: State) {
    Locks(st) && Shape(st) && Fences(st) && Writes(st) && Rows(st) && Tokens(st)
  }
}
