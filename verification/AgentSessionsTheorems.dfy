/**
 * What the agent-session protocol guarantees in every interleaving: the fence behind
 * a retirement, the order of writes across reconnects, one row per minute, live
 * credentials behind every write, and freedom from deadlock.
 */
module AgentSessionsTheorems {
  import opened Options
  import opened AgentSessions
  import opened AgentSessionsInvariant
  import opened AgentSessionsSteps
  import Reports

  // ---- the invariant holds in every reachable state ----

  lemma KnownOf(st: State, a: Id)
    requires Inv(st) && a in st.tasks
    ensures Known(st, a)
  {
    assert TaskLocks(st, a) && TaskShape(st, a) && TokenOk(st, a);
    if a in st.objs {
      assert ObjShape(st, a) && Accounted(st, a) && MinuteOk(st, a) && StateLock(st, a, a);
    }
  }

  lemma ConnMoves(st: State, st': State, a: Id)
    requires Inv(st) && Step(st, st', a) && st.tasks[a].Conn?
    ensures Moves(st, st', a)
  {
    KnownOf(st, a);
    match st.tasks[a].at
    case Activating(act) => ActivateMoves(st, st', a, act);
    case Idle => IdleMoves(st, st', a);
    case Dispatching(frame, dis) =>
      if LookupStep(st, st', a, frame, dis) {
        LookupMoves(st, st', a, frame, dis);
      } else {
        WriteMoves(st, st', a, frame, dis);
      }
    case Leaving(rel) => ReleaseMoves(st, st', a, rel);
  }

  lemma StepMoves(st: State, st': State, a: Id)
    requires Inv(st) && Step(st, st', a)
    ensures Moves(st, st', a)
  {
    KnownOf(st, a);
    match st.tasks[a]
    case Conn(_, _, _) => ConnMoves(st, st', a);
    case Retire(_, ret) => RetireMoves(st, st', a, ret);
    case View(view) => ViewMoves(st, st', a, view);
  }

  lemma StepKeepsInv(st: State, st': State, a: Id)
    requires Inv(st) && Step(st, st', a)
    ensures Inv(st')
  {
    StepMoves(st, st', a);
    LocksKept(st, st', a);
    ShapeKept(st, st', a);
    FencesKept(st, st', a);
    WritesKept(st, st', a);
    RowsKept(st, st', a);
    TokensKept(st, st', a);
  }

  lemma ArrivalLocks(st: State, st': State, a: Id, t: Task)
    requires Inv(st) && Arrives(st, st', a, t)
    ensures Locks(st') && Shape(st') && Tokens(st')
  {
    forall a | a in st'.tasks ensures TaskLocks(st', a) && TaskShape(st', a) && TokenOk(st', a) {
      assert ObjShape(st, a);
      if a in st.tasks { assert TaskLocks(st, a) && TaskShape(st, a) && TokenOk(st, a); }
    }
    forall a, s | a in st'.tasks && s in st'.objs ensures StateLock(st', a, s) {
      assert ObjShape(st, s) && LockOwner(st, s);
      if a in st.tasks { assert StateLock(st, a, s); }
    }
    forall s ensures ObjShape(st', s) && LockOwner(st', s) {
      assert ObjShape(st, s) && LockOwner(st, s);
    }
    forall n ensures NodeShape(st', n) { assert NodeShape(st, n); }
    forall i: nat | i < |st'.log| ensures BirthShape(st', i) { assert BirthShape(st, i); }
  }

  lemma ArrivalKeepsInv(st: State, st': State, a: Id, t: Task)
    requires Inv(st) && Arrives(st, st', a, t)
    ensures Inv(st')
  {
    ArrivalLocks(st, st', a, t);
    forall s | s in st'.objs ensures Accounted(st', s) && MinuteOk(st', s) {
      assert ObjShape(st, s) && Accounted(st, s) && MinuteOk(st, s);
    }
    forall i: nat | i < |st'.log| ensures UnfencedWrite(st', i) && RowClock(st', i) {
      assert UnfencedWrite(st, i) && RowClock(st, i);
    }
    forall s, i: nat | s in st'.objs && i < |st'.log| ensures FencedBy(st', s, i) && RowBehind(st', s, i) {
      assert ObjShape(st, s) && FencedBy(st, s, i) && RowBehind(st, s, i);
    }
    forall i: nat, j: nat | i < j < |st'.log| ensures RowOrder(st', i, j) { assert RowOrder(st, i, j); }
  }

  lemma WorldLocks(st: State, st': State)
    requires Inv(st) && st' == st.(clock := st'.clock, tokens := st'.tokens) && st'.clock >= st.clock
    requires forall k {:trigger k in st.tokens} :: k in st.tokens ==> k in st'.tokens && st'.tokens[k] == st.tokens[k]
    ensures Locks(st') && Shape(st') && Tokens(st')
  {
    forall a | a in st'.tasks ensures TaskLocks(st', a) && TaskShape(st', a) && TokenOk(st', a) {
      assert ObjShape(st, a);
      if a in st.tasks { assert TaskLocks(st, a) && TaskShape(st, a) && TokenOk(st, a); }
    }
    forall a, s | a in st'.tasks && s in st'.objs ensures StateLock(st', a, s) {
      assert ObjShape(st, s) && LockOwner(st, s);
      if a in st.tasks { assert StateLock(st, a, s); }
    }
    forall s ensures ObjShape(st', s) && LockOwner(st', s) {
      assert ObjShape(st, s) && LockOwner(st, s);
    }
    forall n ensures NodeShape(st', n) { assert NodeShape(st, n); }
    forall i: nat | i < |st'.log| ensures BirthShape(st', i) { assert BirthShape(st, i); }
  }

  lemma WorldKeepsInv(st: State, st': State)
    requires Inv(st) && st' == st.(clock := st'.clock, tokens := st'.tokens) && st'.clock >= st.clock
    requires forall k {:trigger k in st.tokens} :: k in st.tokens ==> k in st'.tokens && st'.tokens[k] == st.tokens[k]
    ensures Inv(st')
  {
    WorldLocks(st, st');
    forall s | s in st'.objs ensures Accounted(st', s) && MinuteOk(st', s) {
      assert ObjShape(st, s) && Accounted(st, s) && MinuteOk(st, s);
    }
    forall i: nat | i < |st'.log| ensures UnfencedWrite(st', i) && RowClock(st', i) {
      assert UnfencedWrite(st, i) && RowClock(st, i);
    }
    forall s, i: nat | s in st'.objs && i < |st'.log| ensures FencedBy(st', s, i) && RowBehind(st', s, i) {
      assert ObjShape(st, s) && FencedBy(st, s, i) && RowBehind(st, s, i);
    }
    forall i: nat, j: nat | i < j < |st'.log| ensures RowOrder(st', i, j) { assert RowOrder(st, i, j); }
  }

  lemma EnvKeepsInv(st: State, st': State)
    requires Inv(st) && EnvStep(st, st')
    ensures Inv(st')
  {
    if a, t :| Arrives(st, st', a, t) {
      ArrivalKeepsInv(st, st', a, t);
    } else {
      WorldKeepsInv(st, st');
    }
  }

  lemma RunPrefix(run: seq<State>, j: nat)
    requires IsRun(run) && j < |run|
    ensures IsRun(run[..j + 1])
  {
    var before := run[..j + 1];
    forall i: nat | i + 1 < |before| ensures NextAt(before, i) {
      assert NextAt(run, i);
    }
  }

  lemma {:induction false} RunKeepsInv(run: seq<State>)
    requires IsRun(run)
    ensures Inv(run[|run| - 1])
  {
    if |run| > 1 {
      var last := |run| - 1;
      var before := run[..last];
      RunPrefix(run, last - 1);
      RunKeepsInv(before);
      assert NextAt(run, last - 1);
      if EnvStep(run[last - 1], run[last]) {
        EnvKeepsInv(run[last - 1], run[last]);
      } else {
        var a :| Step(run[last - 1], run[last], a);
        StepKeepsInv(run[last - 1], run[last], a);
      }
    }
  }

  // ---- safety ----

  /**
   * The fence. Once the closure of a retirement covering node `n` has started, every
   * later write for `n` comes from a session activated after that closure started.
   */
  lemma SessionFence(run: seq<State>, st: State, i: nat, j: nat, n: Node)
    requires Reached(run, st)
    requires i < j < |st.log|
    requires st.log[i].Closure? && Covers(st.log[i].target, n)
    requires st.log[j].Wrote? && st.log[j].node == n
    ensures exists k :: i < k < j && st.log[k] == Activated(st.log[j].session, n)
  {
    RunKeepsInv(run);
    var s := st.log[j].session;
    assert UnfencedWrite(st, j) && ObjShape(st, s);
    assert Barrier(st.log[i], st.log[j].node);
    assert i < st.objs[s].born < j;
  }

  /** All writes of an earlier-activated session precede all writes of a later one. */
  lemma ReconnectOrder(run: seq<State>, st: State, i: nat, j: nat, k: nat, m: nat)
    requires Reached(run, st)
    requires i < j < |st.log| && k < |st.log| && m < |st.log|
    requires st.log[i].Activated? && st.log[j].Activated?
    requires st.log[i].node == st.log[j].node
    requires st.log[k].Wrote? && st.log[k].session == st.log[i].session
    requires st.log[m].Wrote? && st.log[m].session == st.log[j].session
    ensures i < k < j < m
  {
    RunKeepsInv(run);
    assert BirthShape(st, i) && BirthShape(st, j);
    assert UnfencedWrite(st, k) && UnfencedWrite(st, m);
    assert ObjShape(st, st.log[i].session) && ObjShape(st, st.log[j].session);
    assert Barrier(st.log[j], st.log[k].node);
  }

  /** A node's history rows carry strictly increasing minutes, so none is written twice. */
  lemma RowsStrictlyIncrease(run: seq<State>, st: State, i: nat, j: nat)
    requires Reached(run, st) && i < j < |st.log|
    requires IsRow(st.log[i]) && IsRow(st.log[j])
    requires st.log[i].node == st.log[j].node
    ensures st.log[i].what.minute < st.log[j].what.minute
  {
    RunKeepsInv(run);
    assert RowOrder(st, i, j);
  }

  /** Whoever is about to write presents a token the database accepts at that moment. */
  lemma WritersHoldLiveTokens(run: seq<State>, st: State, a: Id)
    requires Reached(run, st) && a in st.tasks && Writing(st.tasks[a])
    ensures Live(st, st.tasks[a].node, st.tasks[a].token)
  {
    RunKeepsInv(run);
    assert TaskShape(st, a) && TokenOk(st, a);
  }

  /** At most one session of a node is ever past the retired check. */
  lemma OneWriterPerNode(run: seq<State>, st: State, a: Id, b: Id)
    requires Reached(run, st) && a in st.tasks && b in st.tasks
    requires Writing(st.tasks[a]) && Writing(st.tasks[b])
    requires st.tasks[a].node == st.tasks[b].node
    ensures a == b
  {
    RunKeepsInv(run);
    assert TaskShape(st, a) && TaskShape(st, b);
    assert ObjShape(st, a) && ObjShape(st, b);
    OneWriter(st, a, b);
  }

  // ---- progress ----

  predicate Unfinished(t: Task) {
    match t
    case Conn(_, _, at) => at != Idle && at != Leaving(Over)
    case Retire(_, ret) => ret != Retired
    case View(view) => view != Viewed
  }

  /** Waiting for the admin lock. */
  predicate WaitsAdmin(st: State, t: Task) {
    st.admin.Some? && ((t.Conn? && t.at == Activating(AskAdmin)) || (t.Retire? && t.ret == AskGate))
  }

  /** Waiting for the map lock, as a writer or as a reader. */
  predicate WaitsMap(st: State, t: Task) {
    || (!MapFree(st) && (
          || (t.Conn?
              && (t.at == Activating(AskRemove) || t.at == Activating(AskInsert) || t.at == Leaving(AskRelease)))
          || (t.Retire? && t.ret == AskDrain)))
    || (st.writer.Some? && (
          || (t.Conn? && t.at.Dispatching? && t.at.dis == AskMap)
          || (t.View? && t.view == AskView)))
  }

  /** The session whose state lock a task asks for, if it does. */
  function Asks(a: Id, t: Task): Option<Id> {
    match t
    case Conn(_, _, at) =>
      if at.Activating? && at.act.LockOld? then Some(at.act.prev)
      else if at.Dispatching? && at.dis.AskState? then Some(a)
      else None
    case Retire(_, ret) => if ret.Lock? && ret.left != [] then Some(ret.left[0]) else None
    case View(_) => None
  }

  predicate WaitsState(st: State, a: Id)
    requires a in st.tasks
  {
    Asks(a, st.tasks[a]).Some? && Asks(a, st.tasks[a]).value in st.objs
    && st.objs[Asks(a, st.tasks[a]).value].lock.Some?
  }

  predicate Blocked(st: State, a: Id)
    requires a in st.tasks
  {
    WaitsAdmin(st, st.tasks[a]) || WaitsMap(st, st.tasks[a]) || WaitsState(st, a)
  }

  /** The sessions of the covered nodes can be listed, whatever the map holds. */
  lemma {:induction false} CanDrain(st: State, target: Target, nodes: set<Node>) returns (left: seq<Id>)
    requires Inv(st) && nodes <= st.agents.Keys && forall n :: n in nodes ==> Covers(target, n)
    ensures NoDup(left)
    ensures forall n :: n in nodes ==> st.agents[n] in left
    ensures forall s :: s in left ==> s in st.objs && st.objs[s].node in nodes && st.agents[st.objs[s].node] == s
    decreases nodes
  {
    left := [];
    if n :| n in nodes {
      var rest := CanDrain(st, target, nodes - {n});
      assert NodeShape(st, n);
      left := [st.agents[n]] + rest;
      forall i, j | 0 <= i < j < |left| ensures left[i] != left[j] {
        assert left[j] in rest;
      }
    }
  }

  lemma ConnCanStep(st: State, a: Id)
    requires Inv(st) && a in st.tasks && st.tasks[a].Conn? && Unfinished(st.tasks[a]) && !Blocked(st, a)
    ensures exists st' :: Step(st, st', a)
  {
    assert TaskShape(st, a);
    var node := st.tasks[a].node;
    match st.tasks[a].at
    case Activating(act) =>
      assert exists st' :: ActivateStep(st, st', a, act) by { ActivateCanStep(st, a, act); }
      var st' :| ActivateStep(st, st', a, act);
      assert Step(st, st', a);
    case Dispatching(frame, dis) =>
      DispatchCanStep(st, a, frame, dis);
    case Leaving(rel) =>
      match rel
      case AskRelease =>
        assert Step(st, Go(st, a, Leaving(Release)).(writer := Some(a)), a);
      case Release =>
        if node in st.agents && st.agents[node] == a {
          assert Step(st, Go(st, a, Leaving(MarkReleased)).(agents := st.agents - {node}, writer := None), a);
        } else {
          assert Step(st, Go(st, a, Leaving(Over)).(writer := None), a);
        }
      case MarkReleased =>
        assert Step(st, SetRetired(Go(st, a, Leaving(Over)), a), a);
  }

  lemma ActivateCanStep(st: State, a: Id, act: ActivateAt)
    requires Inv(st) && a in st.tasks && st.tasks[a].Conn? && st.tasks[a].at == Activating(act) && !Blocked(st, a)
    ensures exists st' :: ActivateStep(st, st', a, act)
  {
    assert TaskShape(st, a);
    var node := st.tasks[a].node;
    var st' :=
      match act
      case AskAdmin => Go(st, a, Activating(CheckToken)).(admin := Some(a))
      case CheckToken => Go(st, a, Leaving(Over)).(admin := None)
      case AskRemove => Go(st, a, Activating(Remove)).(writer := Some(a))
      case Remove =>
        if node in st.agents
        then Go(st, a, Activating(MarkOld(st.agents[node]))).(agents := st.agents - {node}, writer := None)
        else Go(st, a, Activating(AskInsert)).(writer := None)
      case MarkOld(prev) => SetRetired(Go(st, a, Activating(LockOld(prev))), prev)
      case LockOld(prev) => SetLock(Go(st, a, Activating(DropOld(prev))), prev, Some(a))
      case DropOld(prev) => SetLock(Go(st, a, Activating(AskInsert)), prev, None)
      case AskInsert => Go(st, a, Activating(Insert)).(writer := Some(a))
      case Insert =>
        Append(Go(st, a, Activating(LeaveAdmin)), Activated(a, node)).(
          agents := st.agents[node := a],
          objs := st.objs[a := Agent(node, false, None, Reports.MinuteOf(st.clock), |st.log|)],
          writer := None)
      case LeaveAdmin => Go(st, a, Idle).(admin := None);
    assert ActivateStep(st, st', a, act);
  }

  lemma DispatchCanStep(st: State, a: Id, frame: Frame, dis: DispatchAt)
    requires Inv(st) && a in st.tasks && st.tasks[a].Conn? && st.tasks[a].at == Dispatching(frame, dis)
    requires !Blocked(st, a)
    ensures exists st' :: Step(st, st', a)
  {
    assert TaskShape(st, a);
    var node := st.tasks[a].node;
    if dis.AskMap? || dis.Lookup? || dis.AskState? || dis.Check? || dis.Finish? {
      var st' :=
        if dis.AskMap? then Go(st, a, Dispatching(frame, Lookup)).(readers := st.readers + {a})
        else if dis.Lookup? then
          if node in st.agents && st.agents[node] == a
          then Go(st, a, Dispatching(frame, AskState)).(readers := st.readers - {a})
          else Go(st, a, Idle).(readers := st.readers - {a})
        else if dis.AskState? then SetLock(Go(st, a, Dispatching(frame, Check)), a, Some(a))
        else if dis.Check? && !st.objs[a].retired then Go(st, a, Dispatching(frame, Opening(frame)))
        else SetLock(Go(st, a, Idle), a, None);
      assert LookupStep(st, st', a, frame, dis);
      assert Step(st, st', a);
    } else {
      var failed := Dispatching(frame, Finish(false));
      var st' :=
        if dis.InsertRow? then
          if Reports.Due(st.objs[a].lastMinute, dis.now)
          then Go(st.(objs := st.objs[a := st.objs[a].(lastMinute := Reports.MinuteOf(dis.now))]), a, failed)
          else Go(st, a, Dispatching(frame, TouchSeen))
        else Go(st, a, failed);
      assert WriteStep(st, st', a, frame, dis);
      assert Step(st, st', a);
    }
  }

  lemma RetireCanStep(st: State, a: Id)
    requires Inv(st) && a in st.tasks && st.tasks[a].Retire? && Unfinished(st.tasks[a]) && !Blocked(st, a)
    ensures exists st' :: Step(st, st', a)
  {
    assert TaskShape(st, a);
    var target := st.tasks[a].target;
    var kept := map n | n in st.agents && !Covers(target, n) :: st.agents[n];
    match st.tasks[a].ret
    case AskGate => assert Step(st, GoRetire(st, a, AskDrain).(admin := Some(a)), a);
    case AskDrain => assert Step(st, GoRetire(st, a, Drain).(writer := Some(a)), a);
    case Drain =>
      var left := CanDrain(st, target, set n | n in st.agents && Covers(target, n));
      assert Drained(st, target, left);
      assert Step(st, GoRetire(st, a, Mark(left, [])).(agents := kept, writer := None), a);
    case Mark(left, held) =>
      if left == [] {
        assert Step(st, Append(GoRetire(st, a, Running(held)), Closure(target)), a);
      } else {
        assert left[0] in Left(st.tasks[a].ret);
        assert Step(st, SetRetired(GoRetire(st, a, Lock(left, held)), left[0]), a);
      }
    case Lock(left, held) =>
      assert left[0] in Left(st.tasks[a].ret);
      assert Step(st, SetLock(GoRetire(st, a, Mark(left[1..], held + [left[0]])), left[0], Some(a)), a);
    case Running(held) =>
      var st' := GoRetire(st, a, Drop(held));
      assert st' == st'.(tokens := st.tokens) && Rekeyed(st.tokens, st.tokens, target);
      assert Step(st, st', a);
    case Drop(held) =>
      if held == [] {
        assert Step(st, GoRetire(st, a, Retired).(admin := None), a);
      } else {
        assert held[0] in Held(st.tasks[a].ret);
        assert Step(st, SetLock(GoRetire(st, a, Drop(held[1..])), held[0], None), a);
      }
  }

  /** Whoever is not waiting for a held lock can take its next step. */
  lemma UnblockedCanStep(st: State, a: Id)
    requires Inv(st) && a in st.tasks && Unfinished(st.tasks[a]) && !Blocked(st, a)
    ensures exists st' :: Step(st, st', a)
  {
    match st.tasks[a]
    case Conn(_, _, _) => ConnCanStep(st, a);
    case Retire(_, _) => RetireCanStep(st, a);
    case View(view) =>
      if view == AskView {
        assert Step(st, st.(tasks := st.tasks[a := View(Reading)], readers := st.readers + {a}), a);
      } else {
        assert Step(st, st.(tasks := st.tasks[a := View(Viewed)], readers := st.readers - {a}), a);
      }
  }

  ghost predicate CanProceed(st: State, b: Id) {
    b in st.tasks && Unfinished(st.tasks[b]) && !Blocked(st, b)
  }

  predicate HoldsMap(st: State, b: Id) {
    st.writer == Some(b) || b in st.readers
  }

  /** Whoever holds the map lock waits for nothing: it asks for no other lock and can take its
    * next step. */
  lemma MapHolderProceeds(st: State, b: Id)
    requires Inv(st) && HoldsMap(st, b)
    ensures CanProceed(st, b)
    ensures Asks(b, st.tasks[b]).None? && !WaitsAdmin(st, st.tasks[b]) && !WaitsMap(st, st.tasks[b])
  {
    assert TaskLocks(st, b);
  }

  lemma SomeMapHolder(st: State) returns (b: Id)
    requires !MapFree(st)
    ensures HoldsMap(st, b)
  {
    if st.writer.Some? {
      b := st.writer.value;
    } else {
      b :| b in st.readers;
    }
  }

  /** Behind a held state lock stands a dispatch that can proceed, or the admin holder. */
  lemma StateHolderProceeds(st: State, s: Id) returns (b: Id)
    requires Inv(st) && s in st.objs && st.objs[s].lock.Some?
    ensures st.objs[s].lock == Some(b) && b in st.tasks && HoldsState(b, st.tasks[b], s)
    ensures CanProceed(st, b) || st.admin == Some(b)
  {
    b := st.objs[s].lock.value;
    assert LockOwner(st, s);
    assert StateLock(st, b, s) && TaskLocks(st, b);
  }

  /** `b` holds the lock that `a` waits for. */
  predicate InTheWay(st: State, a: Id, b: Id)
    requires a in st.tasks
  {
    || (WaitsMap(st, st.tasks[a]) && HoldsMap(st, b))
    || (WaitsState(st, a) && st.objs[Asks(a, st.tasks[a]).value].lock == Some(b))
  }

  /** The admin holder can proceed itself, or the holder of the one lock it waits for can,
    * however many state locks it holds. */
  lemma AdminHolderProceeds(st: State, a: Id) returns (b: Id)
    requires Inv(st) && st.admin == Some(a)
    ensures a in st.tasks && CanProceed(st, b) && (b == a || InTheWay(st, a, b))
  {
    assert TaskLocks(st, a) && TaskShape(st, a);
    if WaitsMap(st, st.tasks[a]) {
      b := SomeMapHolder(st);
      MapHolderProceeds(st, b);
    } else if WaitsState(st, a) {
      var s := Asks(a, st.tasks[a]).value;
      b := StateHolderProceeds(st, s);
      if st.tasks[a].Retire? { assert s in Left(st.tasks[a].ret); }
    } else {
      b := a;
    }
  }

  /** No deadlock: while any operation is unfinished, some unfinished operation has an enabled step. */
  lemma NoDeadlock(run: seq<State>, st: State, a: Id)
    requires Reached(run, st) && a in st.tasks && Unfinished(st.tasks[a])
    ensures exists b, st' :: b in st.tasks && Unfinished(st.tasks[b]) && Step(st, st', b)
  {
    RunKeepsInv(run);
    var b := a;
    if WaitsAdmin(st, st.tasks[a]) {
      b := AdminHolderProceeds(st, st.admin.value);
    } else if WaitsMap(st, st.tasks[a]) {
      b := SomeMapHolder(st);
      MapHolderProceeds(st, b);
    } else if WaitsState(st, a) {
      b := StateHolderProceeds(st, Asks(a, st.tasks[a]).value);
      if !CanProceed(st, b) { b := AdminHolderProceeds(st, b); }
    }
    UnblockedCanStep(st, b);
  }

  /** How much of its operation a task has left: a phase, and what is pending within it. */
  function Remaining(t: Task): (nat, nat) {
    match t
    case Conn(_, _, at) =>
      (match at
       case Activating(act) =>
         (match act
          case AskAdmin => (10, 0) case CheckToken => (9, 0) case AskRemove => (8, 0) case Remove => (7, 0)
          case MarkOld(_) => (6, 0) case LockOld(_) => (5, 0) case DropOld(_) => (4, 0)
          case AskInsert => (3, 0) case Insert => (2, 0) case LeaveAdmin => (1, 0))
       case Idle => (0, 0)
       case Dispatching(_, dis) =>
         (match dis
          case AskMap => (10, 0) case Lookup => (9, 0) case AskState => (8, 0) case Check => (7, 0)
          case WriteOne => (2, 0) case ReadClock => (6, 0) case Accumulate(_) => (5, 0)
          case InsertRow(_) => (4, 0) case TouchSeen => (3, 0) case Finish(_) => (1, 0))
       case Leaving(rel) =>
         (match rel
          case AskRelease => (3, 0) case Release => (2, 0) case MarkReleased => (1, 0) case Over => (0, 0)))
    case Retire(_, ret) =>
      (match ret
       case AskGate => (6, 0) case AskDrain => (5, 0) case Drain => (4, 0)
       case Mark(left, _) => (3, 2 * |left| + 1) case Lock(left, _) => (3, 2 * |left|)
       case Running(_) => (2, 0) case Drop(held) => (1, |held|) case Retired => (0, 0))
    case View(view) => if view == AskView then (2, 0) else if view == Reading then (1, 0) else (0, 0)
  }

  /** `a` alone has moved, and has less of its operation left. */
  predicate Shrinks(st: State, st': State, a: Id)
    requires a in st.tasks
  {
    && a in st'.tasks && st'.tasks == st.tasks[a := st'.tasks[a]]
    && var (phase, pending), (phase', pending') := Remaining(st.tasks[a]), Remaining(st'.tasks[a]);
       phase' < phase || (phase' == phase && pending' < pending)
  }

  lemma ActivateShrinks(st: State, st': State, a: Id, act: ActivateAt)
    requires a in st.tasks && st.tasks[a].Conn? && st.tasks[a].at == Activating(act)
    requires ActivateStep(st, st', a, act)
    ensures Shrinks(st, st', a)
  {
  }

  lemma LookupShrinks(st: State, st': State, a: Id, frame: Frame, dis: DispatchAt)
    requires a in st.tasks && st.tasks[a].Conn? && st.tasks[a].at == Dispatching(frame, dis)
    requires LookupStep(st, st', a, frame, dis)
    ensures Shrinks(st, st', a)
  {
  }

  lemma WriteShrinks(st: State, st': State, a: Id, frame: Frame, dis: DispatchAt)
    requires a in st.tasks && st.tasks[a].Conn? && st.tasks[a].at == Dispatching(frame, dis)
    requires WriteStep(st, st', a, frame, dis)
    ensures Shrinks(st, st', a)
  {
  }

  lemma ReleaseShrinks(st: State, st': State, a: Id, rel: ReleaseAt)
    requires a in st.tasks && st.tasks[a].Conn? && st.tasks[a].at == Leaving(rel)
    requires ReleaseStep(st, st', a, rel)
    ensures Shrinks(st, st', a)
  {
  }

  lemma RetireShrinks(st: State, st': State, a: Id, ret: RetireAt)
    requires a in st.tasks && st.tasks[a].Retire? && st.tasks[a].ret == ret
    requires RetireStep(st, st', a, ret)
    ensures Shrinks(st, st', a)
  {
  }

  /**
   * A step brings its own operation closer to its end and leaves every other task where
   * it was. With `NoDeadlock`, every operation that keeps being scheduled completes.
   */
  lemma StepsBringOperationsToTheirEnd(st: State, st': State, a: Id)
    requires Step(st, st', a) && Unfinished(st.tasks[a])
    ensures Shrinks(st, st', a)
  {
    match st.tasks[a]
    case Conn(_, _, at) =>
      match at {
        case Activating(act) => ActivateShrinks(st, st', a, act);
        case Dispatching(frame, dis) =>
          if LookupStep(st, st', a, frame, dis) {
            LookupShrinks(st, st', a, frame, dis);
          } else {
            WriteShrinks(st, st', a, frame, dis);
          }
        case Leaving(rel) => ReleaseShrinks(st, st', a, rel);
      }
    case Retire(_, ret) => RetireShrinks(st, st', a, ret);
    case View(_) =>
  }
}
