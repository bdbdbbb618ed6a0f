/**
 * Every step keeps the invariant. A step moves one task; what the others can see of
 * it is stated once (`Moves`), established for each family of steps, and then used
 * to carry each part of the invariant over.
 */
module AgentSessionsSteps {
  import opened Options
  import opened AgentSessions
  import opened AgentSessionsInvariant
  import Reports

  /** A lock is left alone, or passes between free and held by `a`. */
  predicate OwnLock(l: Option<Id>, l': Option<Id>, a: Id) {
    l' == l || ((l == None || l == Some(a)) && (l' == None || l' == Some(a)))
  }

  /** What becomes of an existing session in a step of `a`. */
  predicate SameSession(o: Agent, o': Agent, a: Id, own: bool) {
    && o'.node == o.node && o'.born == o.born && (o.retired ==> o'.retired)
    && OwnLock(o.lock, o'.lock, a)
    && (!own ==> o'.lastMinute == o.lastMinute)
  }

  ghost predicate MovesLocks(st: State, st': State, a: Id)
    requires a in st.tasks
  {
    && a in st'.tasks && st'.tasks == st.tasks[a := st'.tasks[a]]
    && st'.clock == st.clock
    && OwnLock(st.admin, st'.admin, a) && OwnLock(st.writer, st'.writer, a)
    && (st'.readers == st.readers || st'.readers == st.readers + {a} || st'.readers == st.readers - {a})
    && TaskLocks(st', a)
    && (st'.writer == Some(a) && st.writer != Some(a) ==> st.readers == {})
    && (a in st'.readers && a !in st.readers ==> st.writer == None)
  }

  ghost predicate MovesObjs(st: State, st': State, a: Id)
    requires a in st.tasks
  {
    forall s {:trigger s in st.objs} {:trigger s in st'.objs} ::
      && (s in st.objs ==> s in st'.objs && SameSession(st.objs[s], st'.objs[s], a, s == a))
      && (s in st'.objs && s !in st.objs ==> s == a && st'.objs[s].lock == None)
  }

  lemma LocksKept(st: State, st': State, a: Id)
    requires Locks(st) && Shape(st) && a in st.tasks && MovesLocks(st, st', a) && MovesObjs(st, st', a)
    requires forall s {:trigger StateLock(st', a, s)} :: s in st'.objs ==> StateLock(st', a, s)
    ensures Locks(st')
  {
    forall b | b in st'.tasks ensures TaskLocks(st', b) {
      if b != a { assert TaskLocks(st, b); }
    }
    forall s ensures LockOwner(st', s) {
      assert LockOwner(st, s);
    }
    forall b, s | b in st'.tasks && s in st'.objs ensures StateLock(st', b, s) {
      if b != a {
        assert TaskShape(st, b);
        if s in st.objs { assert StateLock(st, b, s); }
      }
    }
  }

  /** Entries leave the map only for `a`'s own release or into `a`'s retirement. */
  ghost predicate MovesMap(st: State, st': State, a: Id)
    requires a in st.tasks && a in st'.tasks
  {
    && (forall n {:trigger n in st'.agents} :: n in st'.agents ==>
          || (n in st.agents && st'.agents[n] == st.agents[n])
          || (st.admin == Some(a) && st'.agents[n] == a && a in st'.objs && st'.objs[a].node == n))
    && (forall n {:trigger n in st.agents} :: n in st.agents && st.agents[n] != a ==>
          || (n in st'.agents && st'.agents[n] == st.agents[n])
          || (st'.admin == Some(a) && Retiring(st'.tasks[a], st.agents[n])))
    && (st'.admin == Some(a) ==>
          forall n {:trigger n in st'.agents} :: n in st'.agents ==> !Cleared(st'.tasks[a], n))
  }

  /** What `a` was retiring is fenced, or still being retired by it. */
  ghost predicate MovesPending(st: State, st': State, a: Id)
    requires a in st.tasks && a in st'.tasks
  {
    && (st.admin == Some(a) ==>
          forall s {:trigger Retiring(st.tasks[a], s)} :: s in st.objs && s != a && Retiring(st.tasks[a], s) ==>
            || (s in st'.objs && Fenced(st', s))
            || (st'.admin == Some(a) && Retiring(st'.tasks[a], s)))
    && (a in st'.objs ==> ObjShape(st', a) && Accounted(st', a))
    && (a in st.objs && a in st'.objs && Fenced(st, a) ==> Fenced(st', a))
  }

  /** The barriers and writes a step may log. */
  predicate EventOk(st: State, st': State, a: Id, e: Event)
    requires a in st.tasks
  {
    match e
    case Activated(s, n) =>
      && s == a && a !in st.objs && a in st'.objs && st'.objs[a].born == |st.log| && st'.objs[a].node == n
      && st.admin == Some(a) && st.tasks[a].Conn? && st.tasks[a].node == n && st.tasks[a].at == Activating(Insert)
    case Closure(target) =>
      && st.admin == Some(a) && st.tasks[a].Retire? && st.tasks[a].target == target
      && st.tasks[a].ret.Mark? && st.tasks[a].ret.left == []
    case Wrote(s, n, what) =>
      && s == a && a in st.objs && st.tasks[a].Conn? && st.tasks[a].node == n && Writing(st.tasks[a])
      && a in st'.objs
      && (what.Row? ==> what.minute == st'.objs[a].lastMinute && st.objs[a].lastMinute < what.minute)
  }

  predicate MovesLog(st: State, st': State, a: Id)
    requires a in st.tasks
  {
    || (st'.log == st.log && forall s {:trigger s in st'.objs} :: s in st'.objs ==> s in st.objs)
    || (|st'.log| == |st.log| + 1 && st'.log == st.log + [st'.log[|st.log|]]
        && EventOk(st, st', a, st'.log[|st.log|])
        && (!st'.log[|st.log|].Activated? ==> forall s {:trigger s in st'.objs} :: s in st'.objs ==> s in st.objs))
  }

  lemma ShapeKept(st: State, st': State, a: Id)
    requires Locks(st) && Shape(st) && a in st.tasks && MovesLocks(st, st', a) && MovesObjs(st, st', a)
    requires MovesMap(st, st', a) && MovesPending(st, st', a) && MovesLog(st, st', a)
    requires TaskShape(st', a)
    ensures Shape(st')
  {
    forall b | b in st'.tasks ensures TaskShape(st', b) {
      if b != a { assert TaskShape(st, b); }
    }
    forall s ensures ObjShape(st', s) {
      assert ObjShape(st, s);
    }
    forall n ensures NodeShape(st', n) {
      assert NodeShape(st, n);
    }
    forall i: nat | i < |st'.log| ensures BirthShape(st', i) {
      if i < |st.log| { assert BirthShape(st, i); }
    }
  }

  lemma FencesKept(st: State, st': State, a: Id)
    requires Locks(st) && Shape(st) && Fences(st) && Shape(st')
    requires a in st.tasks && MovesLocks(st, st', a) && MovesObjs(st, st', a)
    requires MovesMap(st, st', a) && MovesPending(st, st', a) && MovesLog(st, st', a)
    ensures Fences(st')
  {
    forall s | s in st'.objs ensures Accounted(st', s) {
      if s != a {
        assert Accounted(st, s);
      }
    }
    forall s, i: nat | s in st'.objs && i < |st'.log| ensures FencedBy(st', s, i) {
      if s in st.objs {
        if i < |st.log| {
          assert FencedBy(st, s, i);
        } else if Barrier(st'.log[i], st'.objs[s].node) {
          FencedAtBarrier(st, st', a, s);
        }
      }
    }
  }

  /** At a barrier of its node, every session activated before is fenced. */
  lemma FencedAtBarrier(st: State, st': State, a: Id, s: Id)
    requires Locks(st) && Shape(st) && Fences(st) && a in st.tasks && s in st.objs
    requires MovesLocks(st, st', a) && MovesObjs(st, st', a) && MovesPending(st, st', a)
    requires |st'.log| == |st.log| + 1 && EventOk(st, st', a, st'.log[|st.log|])
    requires Barrier(st'.log[|st.log|], st.objs[s].node)
    ensures s in st'.objs && Fenced(st', s)
  {
    assert Accounted(st, s) && TaskShape(st, a) && NodeShape(st, st.objs[s].node);
  }

  lemma WritesKept(st: State, st': State, a: Id)
    requires Shape(st) && Fences(st) && Writes(st) && a in st.tasks
    requires MovesObjs(st, st', a) && MovesLog(st, st', a)
    ensures Writes(st')
  {
    forall j: nat | j < |st'.log| ensures UnfencedWrite(st', j) {
      if j < |st.log| {
        assert UnfencedWrite(st, j);
        assert forall i :: 0 <= i < |st.log| ==> st'.log[i] == st.log[i];
      } else if st'.log[j].Wrote? {
        assert ObjShape(st, a);
        forall i | st.objs[a].born < i < j ensures !Barrier(st'.log[i], st'.log[j].node) {
          assert FencedBy(st, a, i);
        }
      }
    }
  }

  /** At most one session of a node can still write. */
  lemma OneWriter(st: State, s: Id, t: Id)
    requires Shape(st) && Fences(st) && s in st.objs && t in st.objs
    requires st.objs[s].node == st.objs[t].node && !Fenced(st, s) && !Fenced(st, t)
    ensures s == t
  {
    assert ObjShape(st, s) && ObjShape(st, t);
    assert FencedBy(st, s, st.objs[t].born) && FencedBy(st, t, st.objs[s].born);
  }

  lemma RowsKept(st: State, st': State, a: Id)
    requires Shape(st) && Fences(st) && Writes(st) && Rows(st) && Shape(st') && a in st.tasks
    requires MovesLocks(st, st', a) && MovesObjs(st, st', a) && MovesPending(st, st', a) && MovesLog(st, st', a)
    requires a in st'.objs ==> MinuteOk(st', a)
    requires a in st.objs && a in st'.objs ==> st.objs[a].lastMinute <= st'.objs[a].lastMinute
    requires a !in st.objs && a in st'.objs ==> st'.objs[a].lastMinute == Reports.MinuteOf(st.clock)
    ensures Rows(st')
  {
    forall s | s in st'.objs ensures MinuteOk(st', s) {
      if s != a { assert MinuteOk(st, s); }
    }
    forall j: nat | j < |st'.log| ensures RowClock(st', j) {
      if j < |st.log| { assert RowClock(st, j); }
    }
    forall s, j: nat | s in st'.objs && j < |st'.log| ensures RowBehind(st', s, j) {
      if j < |st.log| {
        assert RowClock(st, j);
        if s in st.objs { assert RowBehind(st, s, j); }
      } else if st'.log[j].Wrote? && s != a && st'.objs[s].node == st'.log[j].node && !Fenced(st', s) {
        assert ObjShape(st, a);
        OneWriter(st, s, a);
      }
    }
    forall i: nat, j: nat | i < j < |st'.log| ensures RowOrder(st', i, j) {
      if j < |st.log| {
        assert RowOrder(st, i, j);
      } else if st'.log[j].Wrote? {
        assert ObjShape(st, a) && RowBehind(st, a, i);
      }
    }
  }

  lemma TokensKept(st: State, st': State, a: Id)
    requires Locks(st) && Shape(st) && Fences(st) && Tokens(st) && a in st.tasks
    requires MovesLocks(st, st', a) && MovesObjs(st, st', a) && MovesLog(st, st', a)
    requires TokenOk(st', a)
    requires st'.tokens == st.tokens || (
               && st.admin == Some(a) && st.tasks[a].Retire? && st.tasks[a].ret.Running?
               && Rekeyed(st.tokens, st'.tokens, st.tasks[a].target))
    ensures Tokens(st')
  {
    forall b | b in st'.tasks ensures TokenOk(st', b) {
      if b != a {
        assert TokenOk(st, b) && TaskLocks(st, b);
        if b in st.objs {
          assert ObjShape(st, b) && Accounted(st, b) && NodeShape(st, st.objs[b].node);
        }
      }
    }
  }

  // ---- the families of steps ----

  ghost predicate MovesState(st: State, st': State, a: Id)
    requires a in st.tasks
  {
    && MovesLocks(st, st', a) && MovesObjs(st, st', a)
    && (forall s {:trigger StateLock(st', a, s)} :: s in st'.objs ==> StateLock(st', a, s))
  }

  ghost predicate MovesShared(st: State, st': State, a: Id)
    requires a in st.tasks && a in st'.tasks
  {
    && MovesMap(st, st', a) && MovesPending(st, st', a) && MovesLog(st, st', a)
    && (st'.tokens == st.tokens || (
          && st.admin == Some(a) && st.tasks[a].Retire? && st.tasks[a].ret.Running?
          && Rekeyed(st.tokens, st'.tokens, st.tasks[a].target)))
  }

  predicate MovesMinute(st: State, st': State, a: Id) {
    && (a in st'.objs ==> MinuteOk(st', a))
    && (a in st.objs && a in st'.objs ==> st.objs[a].lastMinute <= st'.objs[a].lastMinute)
    && (a !in st.objs && a in st'.objs ==> st'.objs[a].lastMinute == Reports.MinuteOf(st.clock))
  }

  /** What a step shows the other tasks, and what it leaves its own task with. */
  ghost predicate Moves(st: State, st': State, a: Id)
    requires a in st.tasks
  {
    && MovesState(st, st', a) && MovesShared(st, st', a)
    && TaskShape(st', a) && TokenOk(st', a) && MovesMinute(st, st', a)
  }

  /** What the invariant says of the task that moves. */
  ghost predicate Known(st: State, a: Id)
    requires a in st.tasks
  {
    && TaskLocks(st, a) && TaskShape(st, a) && TokenOk(st, a)
    && (a in st.objs ==> ObjShape(st, a) && Accounted(st, a) && MinuteOk(st, a) && StateLock(st, a, a))
  }

  // A step of `a` of each kind, from a state the invariant describes.

  ghost predicate Activates(st: State, st': State, a: Id, act: ActivateAt) {
    && a in st.tasks && st.tasks[a].Conn? && st.tasks[a].at == Activating(act)
    && Locks(st) && Shape(st) && Known(st, a) && ActivateStep(st, st', a, act)
  }

  ghost predicate Idles(st: State, st': State, a: Id) {
    && a in st.tasks && st.tasks[a].Conn? && st.tasks[a].at == Idle
    && Locks(st) && Shape(st) && Known(st, a) && IdleStep(st, st', a)
  }

  ghost predicate LooksUp(st: State, st': State, a: Id, frame: Frame, dis: DispatchAt) {
    && a in st.tasks && st.tasks[a].Conn? && st.tasks[a].at == Dispatching(frame, dis)
    && Locks(st) && Shape(st) && Known(st, a) && LookupStep(st, st', a, frame, dis)
  }

  ghost predicate WritesOut(st: State, st': State, a: Id, frame: Frame, dis: DispatchAt) {
    && a in st.tasks && st.tasks[a].Conn? && st.tasks[a].at == Dispatching(frame, dis)
    && Locks(st) && Shape(st) && Known(st, a) && WriteStep(st, st', a, frame, dis)
  }

  ghost predicate Releases(st: State, st': State, a: Id, rel: ReleaseAt) {
    && a in st.tasks && st.tasks[a].Conn? && st.tasks[a].at == Leaving(rel)
    && Locks(st) && Shape(st) && Known(st, a) && ReleaseStep(st, st', a, rel)
  }

  ghost predicate Retires(st: State, st': State, a: Id, ret: RetireAt) {
    && a in st.tasks && st.tasks[a].Retire? && st.tasks[a].ret == ret
    && Locks(st) && Shape(st) && Known(st, a) && RetireStep(st, st', a, ret)
  }

  ghost predicate Views(st: State, st': State, a: Id, view: ViewAt) {
    && a in st.tasks && st.tasks[a].View? && st.tasks[a].view == view
    && Locks(st) && Shape(st) && Known(st, a) && ViewStep(st, st', a, view)
  }

  // The state locks of `a`, session by session.
  lemma StateLocksNamed(st: State, a: Id)
    requires Locks(st) && a in st.tasks
    ensures forall s {:trigger s in st.objs} {:trigger st.objs[s]} :: s in st.objs ==> StateLock(st, a, s)
  {
    forall s | s in st.objs ensures StateLock(st, a, s) {
      assert StateLock(st, a, s);
    }
  }

  // A report whose row is still to be written.
  predicate RowDue(st: State, a: Id, dis: DispatchAt) {
    dis.InsertRow? && a in st.objs && Reports.Due(st.objs[a].lastMinute, dis.now)
  }

  lemma EnterGateState(st: State, st': State, a: Id, act: ActivateAt)
    requires Activates(st, st', a, act) && (act.AskAdmin? || act.CheckToken?)
    ensures MovesState(st, st', a)
  {
    StateLocksNamed(st, a);
  }

  lemma EnterGateRest(st: State, st': State, a: Id, act: ActivateAt)
    requires Activates(st, st', a, act) && (act.AskAdmin? || act.CheckToken?)
    ensures a in st'.tasks && MovesShared(st, st', a)
    ensures TaskShape(st', a) && TokenOk(st', a) && MovesMinute(st, st', a)
  {
    assert NodeShape(st, st.tasks[a].node);
  }

  lemma EnterMapState(st: State, st': State, a: Id, act: ActivateAt)
    requires Activates(st, st', a, act) && (act.AskRemove? || act.Remove?)
    ensures MovesState(st, st', a)
  {
    StateLocksNamed(st, a);
  }

  lemma EnterMapRest(st: State, st': State, a: Id, act: ActivateAt)
    requires Activates(st, st', a, act) && (act.AskRemove? || act.Remove?)
    ensures a in st'.tasks && MovesShared(st, st', a)
    ensures TaskShape(st', a) && TokenOk(st', a) && MovesMinute(st, st', a)
  {
    assert NodeShape(st, st.tasks[a].node);
  }

  lemma EvictState(st: State, st': State, a: Id, act: ActivateAt)
    requires Activates(st, st', a, act) && (act.MarkOld? || act.LockOld? || act.DropOld?)
    ensures MovesState(st, st', a)
  {
    if act.DropOld? { assert StateLock(st, a, act.prev); }
    StateLocksNamed(st, a);
  }

  lemma EvictRest(st: State, st': State, a: Id, act: ActivateAt)
    requires Activates(st, st', a, act) && (act.MarkOld? || act.LockOld? || act.DropOld?)
    ensures a in st'.tasks && MovesShared(st, st', a)
    ensures TaskShape(st', a) && TokenOk(st', a) && MovesMinute(st, st', a)
  {
    assert NodeShape(st, st.tasks[a].node);
    assert ObjShape(st, act.prev) && StateLock(st, act.prev, act.prev);
  }

  lemma JoinState(st: State, st': State, a: Id, act: ActivateAt)
    requires Activates(st, st', a, act) && (act.AskInsert? || act.Insert? || act.LeaveAdmin?)
    ensures MovesState(st, st', a)
  {
    StateLocksNamed(st, a);
  }

  lemma JoinRest(st: State, st': State, a: Id, act: ActivateAt)
    requires Activates(st, st', a, act) && (act.AskInsert? || act.Insert? || act.LeaveAdmin?)
    ensures a in st'.tasks && MovesShared(st, st', a)
    ensures TaskShape(st', a) && TokenOk(st', a) && MovesMinute(st, st', a)
  {
    assert NodeShape(st, st.tasks[a].node);
  }

  lemma ActivateMoves(st: State, st': State, a: Id, act: ActivateAt)
    requires Activates(st, st', a, act)
    ensures Moves(st, st', a)
  {
    if act.AskAdmin? || act.CheckToken? {
      EnterGateState(st, st', a, act);
      EnterGateRest(st, st', a, act);
    } else if act.AskRemove? || act.Remove? {
      EnterMapState(st, st', a, act);
      EnterMapRest(st, st', a, act);
    } else if act.MarkOld? || act.LockOld? || act.DropOld? {
      EvictState(st, st', a, act);
      EvictRest(st, st', a, act);
    } else {
      JoinState(st, st', a, act);
      JoinRest(st, st', a, act);
    }
  }

  lemma IdleMoves(st: State, st': State, a: Id)
    requires Idles(st, st', a)
    ensures Moves(st, st', a)
  {
    StateLocksNamed(st, a);
  }

  lemma LookupAskMoves(st: State, st': State, a: Id, frame: Frame, dis: DispatchAt)
    requires LooksUp(st, st', a, frame, dis) && dis.AskMap?
    ensures Moves(st, st', a)
  {
    StateLocksNamed(st, a);
  }

  lemma LookupFindState(st: State, st': State, a: Id, frame: Frame, dis: DispatchAt)
    requires LooksUp(st, st', a, frame, dis) && dis.Lookup?
    ensures MovesState(st, st', a)
  {
    StateLocksNamed(st, a);
  }

  lemma LookupFindShared(st: State, st': State, a: Id, frame: Frame, dis: DispatchAt)
    requires LooksUp(st, st', a, frame, dis) && dis.Lookup?
    ensures a in st'.tasks && MovesShared(st, st', a)
  {
  }

  lemma LookupFindOwn(st: State, st': State, a: Id, frame: Frame, dis: DispatchAt)
    requires LooksUp(st, st', a, frame, dis) && dis.Lookup?
    ensures a in st'.tasks && TaskShape(st', a) && TokenOk(st', a) && MovesMinute(st, st', a)
  {
  }

  lemma LookupLockState(st: State, st': State, a: Id, frame: Frame, dis: DispatchAt)
    requires LooksUp(st, st', a, frame, dis) && (dis.AskState? || dis.Finish?)
    ensures MovesState(st, st', a)
  {
    StateLocksNamed(st, a);
  }

  lemma LookupLockRest(st: State, st': State, a: Id, frame: Frame, dis: DispatchAt)
    requires LooksUp(st, st', a, frame, dis) && (dis.AskState? || dis.Finish?)
    ensures a in st'.tasks && MovesShared(st, st', a)
    ensures TaskShape(st', a) && TokenOk(st', a) && MovesMinute(st, st', a)
  {
  }

  lemma LookupRefusedMoves(st: State, st': State, a: Id, frame: Frame, dis: DispatchAt)
    requires LooksUp(st, st', a, frame, dis) && dis.Check? && Flagged(st, a)
    ensures Moves(st, st', a)
  {
    StateLocksNamed(st, a);
  }

  lemma LookupPassedState(st: State, st': State, a: Id, frame: Frame, dis: DispatchAt)
    requires LooksUp(st, st', a, frame, dis) && dis.Check? && !Flagged(st, a)
    ensures MovesState(st, st', a)
  {
    StateLocksNamed(st, a);
  }

  lemma LookupPassedRest(st: State, st': State, a: Id, frame: Frame, dis: DispatchAt)
    requires LooksUp(st, st', a, frame, dis) && dis.Check? && !Flagged(st, a)
    ensures a in st'.tasks && MovesShared(st, st', a)
    ensures TaskShape(st', a) && TokenOk(st', a) && MovesMinute(st, st', a)
  {
  }

  lemma LookupMoves(st: State, st': State, a: Id, frame: Frame, dis: DispatchAt)
    requires LooksUp(st, st', a, frame, dis)
    ensures Moves(st, st', a)
  {
    if dis.AskMap? {
      LookupAskMoves(st, st', a, frame, dis);
    } else if dis.Lookup? {
      LookupFindState(st, st', a, frame, dis);
      LookupFindShared(st, st', a, frame, dis);
      LookupFindOwn(st, st', a, frame, dis);
    } else if dis.AskState? || dis.Finish? {
      LookupLockState(st, st', a, frame, dis);
      LookupLockRest(st, st', a, frame, dis);
    } else if dis.Check? && Flagged(st, a) {
      LookupRefusedMoves(st, st', a, frame, dis);
    } else {
      LookupPassedState(st, st', a, frame, dis);
      LookupPassedRest(st, st', a, frame, dis);
    }
  }

  lemma WriteClockState(st: State, st': State, a: Id, frame: Frame, dis: DispatchAt)
    requires WritesOut(st, st', a, frame, dis) && (dis.ReadClock? || dis.Accumulate?)
    ensures MovesState(st, st', a)
  {
    StateLocksNamed(st, a);
  }

  lemma WriteClockShared(st: State, st': State, a: Id, frame: Frame, dis: DispatchAt)
    requires WritesOut(st, st', a, frame, dis) && (dis.ReadClock? || dis.Accumulate?)
    ensures a in st'.tasks && MovesShared(st, st', a)
  {
    if st'.log != st.log {
      assert st'.log == st.log + [st'.log[|st.log|]];
      assert EventOk(st, st', a, st'.log[|st.log|]);
    }
  }

  lemma WriteClockOwn(st: State, st': State, a: Id, frame: Frame, dis: DispatchAt)
    requires WritesOut(st, st', a, frame, dis) && (dis.ReadClock? || dis.Accumulate?)
    ensures a in st'.tasks && TaskShape(st', a) && TokenOk(st', a) && MovesMinute(st, st', a)
  {
  }

  lemma WriteDueRowState(st: State, st': State, a: Id, frame: Frame, dis: DispatchAt)
    requires WritesOut(st, st', a, frame, dis) && RowDue(st, a, dis)
    ensures MovesState(st, st', a)
  {
    StateLocksNamed(st, a);
  }

  lemma WriteDueRowRest(st: State, st': State, a: Id, frame: Frame, dis: DispatchAt)
    requires WritesOut(st, st', a, frame, dis) && RowDue(st, a, dis)
    ensures a in st'.tasks && MovesShared(st, st', a)
    ensures TaskShape(st', a) && TokenOk(st', a) && MovesMinute(st, st', a)
  {
    if st'.log != st.log {
      assert st'.log == st.log + [st'.log[|st.log|]];
      assert EventOk(st, st', a, st'.log[|st.log|]);
    }
  }

  lemma WriteNoRowMoves(st: State, st': State, a: Id, frame: Frame, dis: DispatchAt)
    requires WritesOut(st, st', a, frame, dis) && dis.InsertRow? && !RowDue(st, a, dis)
    ensures Moves(st, st', a)
  {
    StateLocksNamed(st, a);
  }

  lemma WriteSingleState(st: State, st': State, a: Id, frame: Frame, dis: DispatchAt)
    requires WritesOut(st, st', a, frame, dis) && (dis.WriteOne? || dis.TouchSeen?)
    ensures MovesState(st, st', a)
  {
    StateLocksNamed(st, a);
  }

  lemma WriteSingleRest(st: State, st': State, a: Id, frame: Frame, dis: DispatchAt)
    requires WritesOut(st, st', a, frame, dis) && (dis.WriteOne? || dis.TouchSeen?)
    ensures a in st'.tasks && MovesShared(st, st', a)
    ensures TaskShape(st', a) && TokenOk(st', a) && MovesMinute(st, st', a)
  {
    if st'.log != st.log {
      assert st'.log == st.log + [st'.log[|st.log|]];
      assert EventOk(st, st', a, st'.log[|st.log|]);
    }
  }

  lemma WriteMoves(st: State, st': State, a: Id, frame: Frame, dis: DispatchAt)
    requires WritesOut(st, st', a, frame, dis)
    ensures Moves(st, st', a)
  {
    if dis.ReadClock? || dis.Accumulate? {
      WriteClockState(st, st', a, frame, dis);
      WriteClockShared(st, st', a, frame, dis);
      WriteClockOwn(st, st', a, frame, dis);
    } else if RowDue(st, a, dis) {
      WriteDueRowState(st, st', a, frame, dis);
      WriteDueRowRest(st, st', a, frame, dis);
    } else if dis.InsertRow? && !RowDue(st, a, dis) {
      WriteNoRowMoves(st, st', a, frame, dis);
    } else {
      WriteSingleState(st, st', a, frame, dis);
      WriteSingleRest(st, st', a, frame, dis);
    }
  }

  lemma ReleaseAskMoves(st: State, st': State, a: Id, rel: ReleaseAt)
    requires Releases(st, st', a, rel) && rel.AskRelease?
    ensures Moves(st, st', a)
  {
    StateLocksNamed(st, a);
  }

  lemma ReleaseMapState(st: State, st': State, a: Id, rel: ReleaseAt)
    requires Releases(st, st', a, rel) && rel.Release?
    ensures MovesState(st, st', a)
  {
    StateLocksNamed(st, a);
  }

  lemma ReleaseMapRest(st: State, st': State, a: Id, rel: ReleaseAt)
    requires Releases(st, st', a, rel) && rel.Release?
    ensures a in st'.tasks && MovesShared(st, st', a)
    ensures TaskShape(st', a) && TokenOk(st', a) && MovesMinute(st, st', a)
  {
  }

  lemma ReleaseFlagMoves(st: State, st': State, a: Id, rel: ReleaseAt)
    requires Releases(st, st', a, rel) && (rel.MarkReleased? || rel.Over?)
    ensures Moves(st, st', a)
  {
    StateLocksNamed(st, a);
  }

  lemma ReleaseMoves(st: State, st': State, a: Id, rel: ReleaseAt)
    requires Releases(st, st', a, rel)
    ensures Moves(st, st', a)
  {
    if rel.AskRelease? {
      ReleaseAskMoves(st, st', a, rel);
    } else if rel.Release? {
      ReleaseMapState(st, st', a, rel);
      ReleaseMapRest(st, st', a, rel);
    } else {
      ReleaseFlagMoves(st, st', a, rel);
    }
  }

  /** Locking the first pending session moves it from one list to the other. */
  lemma Shift(left: seq<Id>, held: seq<Id>)
    requires left != [] && NoDup(left) && NoDup(held) && left[0] !in held
    ensures NoDup(left[1..]) && NoDup(held + [left[0]])
    ensures forall s :: s in left <==> s == left[0] || s in left[1..]
    ensures left[0] !in left[1..]
    ensures forall s :: s in held + [left[0]] <==> s in held || s == left[0]
  {
    assert left == [left[0]] + left[1..];
  }

  lemma Unshift(held: seq<Id>)
    requires held != [] && NoDup(held)
    ensures NoDup(held[1..]) && held[0] !in held[1..]
    ensures forall s :: s in held <==> s == held[0] || s in held[1..]
  {
    assert held == [held[0]] + held[1..];
  }

  lemma EmptyState(st: State, st': State, a: Id, ret: RetireAt)
    requires Retires(st, st', a, ret) && (ret.AskGate? || ret.AskDrain? || ret.Drain?)
    ensures MovesState(st, st', a)
  {
    StateLocksNamed(st, a);
  }

  lemma EmptyRest(st: State, st': State, a: Id, ret: RetireAt)
    requires Retires(st, st', a, ret) && (ret.AskGate? || ret.AskDrain? || ret.Drain?)
    ensures a in st'.tasks && MovesShared(st, st', a)
    ensures TaskShape(st', a) && TokenOk(st', a) && MovesMinute(st, st', a)
  {
  }

  lemma CollectDoneMoves(st: State, st': State, a: Id, ret: RetireAt)
    requires Retires(st, st', a, ret) && ret.Mark? && ret.left == []
    ensures Moves(st, st', a)
  {
    StateLocksNamed(st, a);
    forall n | n in st'.agents ensures !Cleared(st'.tasks[a], n) {
      assert NodeShape(st, n);
    }
  }

  lemma CollectMarkState(st: State, st': State, a: Id, ret: RetireAt)
    requires Retires(st, st', a, ret) && ret.Mark? && ret.left != []
    ensures MovesState(st, st', a)
  {
    StateLocksNamed(st, a);
  }

  lemma CollectMarkRest(st: State, st': State, a: Id, ret: RetireAt)
    requires Retires(st, st', a, ret) && ret.Mark? && ret.left != []
    ensures a in st'.tasks && MovesShared(st, st', a)
    ensures TaskShape(st', a) && TokenOk(st', a) && MovesMinute(st, st', a)
  {
    forall n | n in st'.agents ensures !Cleared(st'.tasks[a], n) {
      assert NodeShape(st, n);
    }
  }

  lemma CollectLockState(st: State, st': State, a: Id, ret: RetireAt)
    requires Retires(st, st', a, ret) && ret.Lock?
    ensures MovesState(st, st', a)
  {
    if ret.left != [] { assert ret.left[0] in Left(ret); Shift(ret.left, ret.held); }
    StateLocksNamed(st, a);
  }

  lemma CollectLockRest(st: State, st': State, a: Id, ret: RetireAt)
    requires Retires(st, st', a, ret) && ret.Lock?
    ensures a in st'.tasks && MovesShared(st, st', a)
    ensures TaskShape(st', a) && TokenOk(st', a) && MovesMinute(st, st', a)
  {
    if ret.left != [] { assert ret.left[0] in Left(ret); Shift(ret.left, ret.held); }
    forall n | n in st'.agents ensures !Cleared(st'.tasks[a], n) {
      assert NodeShape(st, n);
    }
    assert ObjShape(st, ret.left[0]) && StateLock(st, ret.left[0], ret.left[0]);
  }

  lemma FinishRunMoves(st: State, st': State, a: Id, ret: RetireAt)
    requires Retires(st, st', a, ret) && (ret.Running? || ret.Retired?)
    ensures Moves(st, st', a)
  {
    StateLocksNamed(st, a);
    forall n | n in st'.agents ensures !Cleared(st'.tasks[a], n) {
      assert NodeShape(st, n);
    }
  }

  lemma FinishDropState(st: State, st': State, a: Id, ret: RetireAt)
    requires Retires(st, st', a, ret) && ret.Drop?
    ensures MovesState(st, st', a)
  {
    if ret.held != [] { Unshift(ret.held); assert StateLock(st, a, ret.held[0]); }
    StateLocksNamed(st, a);
  }

  lemma FinishDropRest(st: State, st': State, a: Id, ret: RetireAt)
    requires Retires(st, st', a, ret) && ret.Drop?
    ensures a in st'.tasks && MovesShared(st, st', a)
    ensures TaskShape(st', a) && TokenOk(st', a) && MovesMinute(st, st', a)
  {
    forall n | n in st'.agents ensures !Cleared(st'.tasks[a], n) {
      assert NodeShape(st, n);
    }
    if ret.held != [] { Unshift(ret.held); assert StateLock(st, a, ret.held[0]); }
  }

  lemma RetireMoves(st: State, st': State, a: Id, ret: RetireAt)
    requires Retires(st, st', a, ret)
    ensures Moves(st, st', a)
  {
    if ret.AskGate? || ret.AskDrain? || ret.Drain? {
      EmptyState(st, st', a, ret);
      EmptyRest(st, st', a, ret);
    } else if ret.Mark? && ret.left == [] {
      CollectDoneMoves(st, st', a, ret);
    } else if ret.Mark? && ret.left != [] {
      CollectMarkState(st, st', a, ret);
      CollectMarkRest(st, st', a, ret);
    } else if ret.Lock? {
      CollectLockState(st, st', a, ret);
      CollectLockRest(st, st', a, ret);
    } else if ret.Running? || ret.Retired? {
      FinishRunMoves(st, st', a, ret);
    } else {
      FinishDropState(st, st', a, ret);
      FinishDropRest(st, st', a, ret);
    }
  }

  lemma ViewMoves(st: State, st': State, a: Id, view: ViewAt)
    requires Views(st, st', a, view)
    ensures Moves(st, st', a)
  {
    StateLocksNamed(st, a);
  }
}
