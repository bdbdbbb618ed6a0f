/**
 * What the operations achieve, in every interleaving with everything else: what one frame of
 * an agent writes from the retired check of `dispatch` to its return, what a release takes
 * away for good, and that a retirement runs its closure; and that any frame of a session in
 * the map can be taken whole.
 */
module AgentSessionsEffects {
  import opened Options
  import opened AgentSessions
  import opened AgentSessionsInvariant
  import opened AgentSessionsSteps
  import opened AgentSessionsTheorems
  import Reports

  /** The database writes of session `a`, in order. */
  function WritesOf(log: seq<Event>, a: Id): seq<Write> {
    if log == [] then []
    else
      var e := log[|log| - 1];
      WritesOf(log[..|log| - 1], a) + if e.Wrote? && e.session == a then [e.what] else []
  }

  lemma WritesNext(log: seq<Event>, e: Event, a: Id)
    ensures WritesOf(log + [e], a) == WritesOf(log, a) + if e.Wrote? && e.session == a then [e.what] else []
  {
    assert (log + [e])[..|log|] == log;
  }

  predicate Gains(before: State, after: State, a: Id, what: seq<Write>) {
    WritesOf(after.log, a) == WritesOf(before.log, a) + what
  }

  // ---- one frame ----

  predicate InFrame(st: State, a: Id, frame: Frame) {
    a in st.tasks && st.tasks[a].Conn? && st.tasks[a].at.Dispatching? && st.tasks[a].at.frame == frame
  }

  /** From state `i` to state `j` of the run, session `a` handles one frame: it stands at the
    * retired check in `i`. */
  ghost predicate Handles(run: seq<State>, a: Id, frame: Frame, i: nat, j: nat) {
    && i <= j < |run|
    && (forall k {:trigger run[k]} :: i <= k <= j ==> InFrame(run[k], a, frame))
    && run[i].tasks[a].at.dis == Check
  }

  predicate ReadClockAt(run: seq<State>, i: nat, j: nat, now: int) {
    exists k :: i <= k < j && k < |run| && run[k].clock == now
  }

  /** What a report writes that is taken whole, by a session whose last row was of minute
    * `last`, at a clock reading of `now`. */
  function ReportWrites(last: int, now: int): seq<Write> {
    [Totals] + (if now / 60 > last then [Row(now / 60)] else []) + [Seen]
  }

  /** What a frame may have written when `dispatch` returns. */
  predicate Written(frame: Frame, ok: bool, last: int, now: int, gained: seq<Write>) {
    match frame
    case Hello => gained == if ok then [Facts] else []
    case Report => if ok then gained == ReportWrites(last, now) else gained < ReportWrites(last, now)
    case PingResult => gained == [] || (ok && gained == [PingRow])
    case Unknown => ok && gained == []
  }

  // Where a frame stands once past the lookup, given what it has written so far.
  predicate Account(frame: Frame, dis: DispatchAt, last: int, minute: int, now: int, gained: seq<Write>) {
    match dis
    case Check => gained == [] && minute == last
    case WriteOne => (frame.Hello? || frame.PingResult?) && gained == []
    case ReadClock => frame.Report? && gained == [] && minute == last
    case Accumulate(n) => frame.Report? && gained == [] && minute == last <= now / 60 && n == now
    case InsertRow(n) => frame.Report? && gained == [Totals] && minute == last <= now / 60 && n == now
    case TouchSeen =>
      frame.Report? && minute == now / 60 && gained == [Totals] + if now / 60 > last then [Row(now / 60)] else []
    case Finish(ok) => Written(frame, ok, last, now, gained) && (ok && frame.Report? ==> minute == now / 60)
    case _ => false
  }

  predicate PastClock(frame: Frame, dis: DispatchAt) {
    frame.Report? && !dis.Check? && !dis.ReadClock?
  }

  predicate OnAccount(st: State, a: Id, frame: Frame, last: int, now: int, gained: seq<Write>) {
    InFrame(st, a, frame) && a in st.objs
    && Account(frame, st.tasks[a].at.dis, last, st.objs[a].lastMinute, now, gained)
  }

  // What a step of the session itself adds to its writes.
  function Added(st: State, st': State, a: Id): seq<Write> {
    if |st'.log| > |st.log| && st'.log[|st'.log| - 1].Wrote? then [st'.log[|st'.log| - 1].what] else []
  }

  predicate Logs(st: State, st': State, a: Id, node: Node) {
    || st'.log == st.log
    || (|st'.log| == |st.log| + 1 && st'.log == st.log + [st'.log[|st.log|]]
        && st'.log[|st.log|].Wrote? && st'.log[|st.log|].session == a && st'.log[|st.log|].node == node)
  }

  lemma AddedIsGained(st: State, st': State, a: Id, node: Node)
    requires Logs(st, st', a, node)
    ensures Gains(st, st', a, Added(st, st', a))
  {
    if st'.log != st.log {
      WritesNext(st.log, st'.log[|st.log|], a);
    }
  }

  // A step of the session between the retired check and the return.
  ghost predicate Goes(st: State, st': State, a: Id, frame: Frame, dis: DispatchAt) {
    && InFrame(st, a, frame) && InFrame(st', a, frame) && a in st.objs && st.tasks[a].at.dis == dis
    && (LookupStep(st, st', a, frame, dis) || WriteStep(st, st', a, frame, dis))
  }

  lemma CheckStep(st: State, st': State, a: Id, frame: Frame, last: int, now: int)
    requires Goes(st, st', a, frame, Check) && OnAccount(st, a, frame, last, now, [])
    ensures st'.log == st.log && OnAccount(st', a, frame, last, now, [])
  {
  }

  lemma SingleStep(st: State, st': State, a: Id, frame: Frame, last: int, now: int)
    requires Goes(st, st', a, frame, WriteOne) && OnAccount(st, a, frame, last, now, [])
    ensures Logs(st, st', a, st.tasks[a].node) && OnAccount(st', a, frame, last, now, Added(st, st', a))
  {
  }

  lemma ClockStep(st: State, st': State, a: Id, frame: Frame, last: int, now: int)
    requires Goes(st, st', a, frame, ReadClock) && OnAccount(st, a, frame, last, now, []) && MinuteOk(st, a)
    ensures st'.log == st.log && OnAccount(st', a, frame, last, st.clock, [])
  {
  }

  lemma TotalsStep(st: State, st': State, a: Id, frame: Frame, last: int, now: int)
    requires Goes(st, st', a, frame, Accumulate(now)) && OnAccount(st, a, frame, last, now, [])
    ensures Logs(st, st', a, st.tasks[a].node) && OnAccount(st', a, frame, last, now, Added(st, st', a))
  {
  }

  lemma RowStep(st: State, st': State, a: Id, frame: Frame, last: int, now: int)
    requires Goes(st, st', a, frame, InsertRow(now)) && OnAccount(st, a, frame, last, now, [Totals])
    ensures Logs(st, st', a, st.tasks[a].node)
    ensures OnAccount(st', a, frame, last, now, [Totals] + Added(st, st', a))
  {
  }

  lemma SeenStep(st: State, st': State, a: Id, frame: Frame, last: int, now: int, gained: seq<Write>)
    requires Goes(st, st', a, frame, TouchSeen) && OnAccount(st, a, frame, last, now, gained)
    ensures Logs(st, st', a, st.tasks[a].node) && OnAccount(st', a, frame, last, now, gained + Added(st, st', a))
  {
  }

  // A step of the session itself.
  lemma OwnStep(st: State, st': State, a: Id, frame: Frame, last: int, now: int, gained: seq<Write>)
    requires OnAccount(st, a, frame, last, now, gained) && MinuteOk(st, a)
    requires Goes(st, st', a, frame, st.tasks[a].at.dis)
    ensures Gains(st, st', a, Added(st, st', a))
    ensures OnAccount(st', a, frame, last, if st.tasks[a].at.dis.ReadClock? then st.clock else now,
                      gained + Added(st, st', a))
  {
    match st.tasks[a].at.dis {
      case Check => CheckStep(st, st', a, frame, last, now);
      case WriteOne => SingleStep(st, st', a, frame, last, now);
      case ReadClock => ClockStep(st, st', a, frame, last, now);
      case Accumulate(n) => TotalsStep(st, st', a, frame, last, now);
      case InsertRow(n) => RowStep(st, st', a, frame, last, now);
      case TouchSeen => SeenStep(st, st', a, frame, last, now, gained);
    }
    AddedIsGained(st, st', a, st.tasks[a].node);
  }

  // What another's step leaves a session with.
  predicate Undisturbed(st: State, st': State, a: Id)
    requires a in st.tasks && a in st.objs
  {
    && a in st'.tasks && st'.tasks[a] == st.tasks[a]
    && a in st'.objs && st'.objs[a].lastMinute == st.objs[a].lastMinute
    && Gains(st, st', a, [])
  }

  lemma OtherStep(st: State, st': State, a: Id, b: Id)
    requires a != b && a in st.tasks && a in st.objs && b in st.tasks
    requires MovesLocks(st, st', b) && MovesObjs(st, st', b) && MovesLog(st, st', b)
    ensures Undisturbed(st, st', a)
  {
    if st'.log != st.log {
      WritesNext(st.log, st'.log[|st.log|], a);
    }
  }

  lemma StepOfAnother(st: State, st': State, a: Id, b: Id)
    requires Inv(st) && a != b && a in st.tasks && a in st.objs && Step(st, st', b)
    ensures Undisturbed(st, st', a)
  {
    StepMoves(st, st', b);
    OtherStep(st, st', a, b);
  }

  lemma StepOn(run: seq<State>, j: nat, a: Id)
    requires IsRun(run) && j < |run| - 1
    requires a in run[j].tasks && run[j].tasks[a].Conn? && run[j].tasks[a].at.Dispatching? && a in run[j].objs
    ensures MinuteOk(run[j], a)
    ensures Step(run[j], run[j + 1], a) || Undisturbed(run[j], run[j + 1], a)
  {
    InvAlong(run, j);
    assert NextAt(run, j);
    StepOrUndisturbed(run[j], run[j + 1], a);
  }

  lemma StepOrUndisturbed(st: State, st': State, a: Id)
    requires Inv(st) && Next(st, st') && a in st.tasks && a in st.objs
    ensures MinuteOk(st, a)
    ensures Step(st, st', a) || Undisturbed(st, st', a)
  {
    assert MinuteOk(st, a);
    if !EnvStep(st, st') {
      var b :| Step(st, st', b);
      if b != a {
        StepOfAnother(st, st', a, b);
      }
    }
  }

  lemma InvAlong(run: seq<State>, j: nat)
    requires IsRun(run) && j < |run|
    ensures Inv(run[j])
  {
    RunPrefix(run, j);
    RunKeepsInv(run[..j + 1]);
  }

  // What the frame has come to in state `j`.
  ghost predicate Stands(run: seq<State>, a: Id, frame: Frame, i: nat, j: nat, now: int, gained: seq<Write>)
    requires Handles(run, a, frame, i, j)
  {
    && a in run[i].objs && Gains(run[i], run[j], a, gained)
    && OnAccount(run[j], a, frame, run[i].objs[a].lastMinute, now, gained)
    && (PastClock(frame, run[j].tasks[a].at.dis) ==> ReadClockAt(run, i, j, now))
  }

  lemma StandsStill(run: seq<State>, a: Id, frame: Frame, i: nat, j: nat, now: int, gained: seq<Write>)
    requires j + 1 < |run| && Handles(run, a, frame, i, j) && Handles(run, a, frame, i, j + 1)
    requires Stands(run, a, frame, i, j, now, gained) && Undisturbed(run[j], run[j + 1], a)
    ensures Stands(run, a, frame, i, j + 1, now, gained)
  {
    assert gained + [] == gained;
    ClockStaysRead(run, i, j, now);
  }

  lemma StandsFurther(run: seq<State>, a: Id, frame: Frame, i: nat, j: nat, now: int, gained: seq<Write>)
    requires j + 1 < |run| && Handles(run, a, frame, i, j) && Handles(run, a, frame, i, j + 1)
    requires Stands(run, a, frame, i, j, now, gained) && Step(run[j], run[j + 1], a) && MinuteOk(run[j], a)
    ensures var now' := if run[j].tasks[a].at.dis.ReadClock? then run[j].clock else now;
            Stands(run, a, frame, i, j + 1, now', gained + Added(run[j], run[j + 1], a))
  {
    OwnStep(run[j], run[j + 1], a, frame, run[i].objs[a].lastMinute, now, gained);
    Assoc(WritesOf(run[i].log, a), gained, Added(run[j], run[j + 1], a));
    ClockStaysRead(run, i, j, now);
    if run[j].tasks[a].at.dis.ReadClock? {
      assert ReadClockAt(run, i, j + 1, run[j].clock);
    }
  }

  lemma Assoc(a: seq<Write>, b: seq<Write>, c: seq<Write>)
    ensures (a + b) + c == a + (b + c)
  {
  }

  lemma ClockStaysRead(run: seq<State>, i: nat, j: nat, now: int)
    ensures ReadClockAt(run, i, j, now) ==> ReadClockAt(run, i, j + 1, now)
  {
  }

  lemma StandsAtCheck(run: seq<State>, a: Id, frame: Frame, i: nat)
    requires IsRun(run) && Handles(run, a, frame, i, i)
    ensures Stands(run, a, frame, i, i, 0, [])
  {
    InvAlong(run, i);
    assert InFrame(run[i], a, frame) && TaskShape(run[i], a);
  }

  lemma StandsNext(run: seq<State>, a: Id, frame: Frame, i: nat, j: nat, now: int, gained: seq<Write>)
    returns (now': int, gained': seq<Write>)
    requires IsRun(run) && Handles(run, a, frame, i, j + 1)
    requires i <= j && Handles(run, a, frame, i, j) && Stands(run, a, frame, i, j, now, gained)
    ensures Stands(run, a, frame, i, j + 1, now', gained')
  {
    StepOn(run, j, a);
    if Undisturbed(run[j], run[j + 1], a) {
      StandsStill(run, a, frame, i, j, now, gained);
      now', gained' := now, gained;
    } else {
      StandsFurther(run, a, frame, i, j, now, gained);
      now' := if run[j].tasks[a].at.dis.ReadClock? then run[j].clock else now;
      gained' := gained + Added(run[j], run[j + 1], a);
    }
  }

  lemma {:induction false} FrameStands(run: seq<State>, a: Id, frame: Frame, i: nat, j: nat)
    returns (now: int, gained: seq<Write>)
    requires IsRun(run) && Handles(run, a, frame, i, j)
    ensures Stands(run, a, frame, i, j, now, gained)
    decreases j
  {
    if i == j {
      StandsAtCheck(run, a, frame, i);
      now, gained := 0, [];
    } else {
      now, gained := FrameStands(run, a, frame, i, j - 1);
      now, gained := StandsNext(run, a, frame, i, j - 1, now, gained);
    }
  }

  /**
   * What one frame writes, whatever runs beside it: between its retired check and its return,
   * the log gains of its session, when `dispatch` answers that all went well, exactly the
   * facts for a hello, at most one row of a probe for its result, nothing for an unknown
   * method, and for a report the totals, a row if and only if the clock it read is past the
   * minute of the session's last row, and the mark that the node was seen. When a store has
   * failed, or the report was malformed, it gains less: the same up to some point.
   */
  lemma FrameWritesExactly(run: seq<State>, a: Id, frame: Frame, i: nat, j: nat)
    requires IsRun(run) && Handles(run, a, frame, i, j) && run[j].tasks[a].at.dis.Finish?
    ensures a in run[i].objs && a in run[j].objs
    ensures var last, ok := run[i].objs[a].lastMinute, run[j].tasks[a].at.dis.ok;
            && (frame.Hello? ==> Gains(run[i], run[j], a, if ok then [Facts] else []))
            && (frame.PingResult? ==> Gains(run[i], run[j], a, []) || (ok && Gains(run[i], run[j], a, [PingRow])))
            && (frame.Unknown? ==> ok && Gains(run[i], run[j], a, []))
            && (frame.Report? ==>
                  exists now ::
                    && ReadClockAt(run, i, j, now)
                    && if ok then Gains(run[i], run[j], a, ReportWrites(last, now))
                                  && run[j].objs[a].lastMinute == now / 60
                       else exists part :: part < ReportWrites(last, now) && Gains(run[i], run[j], a, part))
  {
    var now, gained := FrameStands(run, a, frame, i, j);
    assert Gains(run[i], run[j], a, gained);
  }
  lemma LookupLeaves(st: State, st': State, a: Id, frame: Frame, dis: DispatchAt)
    requires InFrame(st, a, frame) && st.tasks[a].at.dis == dis && !dis.Finish? && LookupStep(st, st', a, frame, dis)
    requires a in st.objs && st.objs[a].node == st.tasks[a].node
    ensures InFrame(st', a, frame) || (a in st'.tasks && st'.tasks[a].Conn? && st'.tasks[a].at == Idle)
    ensures !InFrame(st', a, frame) <==> (dis == Lookup && !InMap(st, a)) || (dis == Check && st.objs[a].retired)
    ensures st'.log == st.log
  {
  }

  lemma WriteStays(st: State, st': State, a: Id, frame: Frame, dis: DispatchAt)
    requires InFrame(st, a, frame) && st.tasks[a].at.dis == dis && WriteStep(st, st', a, frame, dis)
    ensures InFrame(st', a, frame) && dis != Lookup && dis != Check
  {
  }

  /** A frame ends before its writes if and only if the map does not hold its session when it
    * is looked up, or the session is retired when its lock is taken. */
  lemma RefusedExactly(st: State, st': State, a: Id, frame: Frame)
    requires Inv(st) && Step(st, st', a) && InFrame(st, a, frame) && !st.tasks[a].at.dis.Finish?
    ensures a in st.objs && a in st'.tasks && st'.tasks[a].Conn?
    ensures !InFrame(st', a, frame) <==>
              || (st.tasks[a].at.dis == Lookup && !InMap(st, a))
              || (st.tasks[a].at.dis == Check && st.objs[a].retired)
    ensures !InFrame(st', a, frame) ==> st'.tasks[a].at == Idle && st'.log == st.log
  {
    var dis := st.tasks[a].at.dis;
    assert LookupStep(st, st', a, frame, dis) || WriteStep(st, st', a, frame, dis);
    assert a in st.objs && st.objs[a].node == st.tasks[a].node by {
      assert TaskShape(st, a) && ObjShape(st, a);
    }
    if LookupStep(st, st', a, frame, dis) {
      LookupLeaves(st, st', a, frame, dis);
    } else {
      WriteStays(st, st', a, frame, dis);
    }
  }

  /** A frame goes wrong only where the database is written, by a write that could have been
    * made instead, or on a report refused before the clock is read. */
  lemma GoesWrongOnlyAtAStore(st: State, st': State, a: Id, frame: Frame)
    requires Step(st, st', a) && InFrame(st, a, frame) && InFrame(st', a, frame)
    requires st'.tasks[a].at.dis == Finish(false)
    ensures st'.log == st.log
    ensures || st.tasks[a].at.dis == ReadClock
            || exists st'', what ::
                 Step(st, st'', a) && st''.log == st.log + [Wrote(a, st.tasks[a].node, what)]
  {
    var node, dis := st.tasks[a].node, st.tasks[a].at.dis;
    match dis {
      case WriteOne => Instead(st, a, frame, dis, Go(st, a, Dispatching(frame, Finish(true))), Single(frame));
      case Accumulate(now) => Instead(st, a, frame, dis, Go(st, a, Dispatching(frame, InsertRow(now))), Totals);
      case InsertRow(now) => InsteadOfRow(st, st', a, frame, now);
      case TouchSeen => Instead(st, a, frame, dis, Go(st, a, Dispatching(frame, Finish(true))), Seen);
      case _ =>
    }
  }

  lemma InsteadOfRow(st: State, st': State, a: Id, frame: Frame, now: int)
    requires InFrame(st, a, frame) && st.tasks[a].at.dis == InsertRow(now)
    requires WriteStep(st, st', a, frame, InsertRow(now)) && st'.tasks[a].at == Dispatching(frame, Finish(false))
    ensures st'.log == st.log
    ensures exists st'', what ::
              Step(st, st'', a) && st''.log == st.log + [Wrote(a, st.tasks[a].node, what)]
  {
    var minute := Reports.MinuteOf(now);
    var moved := st.(objs := st.objs[a := st.objs[a].(lastMinute := minute)]);
    Instead(st, a, frame, InsertRow(now), Go(moved, a, Dispatching(frame, TouchSeen)), Row(minute));
  }

  lemma Instead(st: State, a: Id, frame: Frame, dis: DispatchAt, moved: State, what: Write)
    requires InFrame(st, a, frame) && st.tasks[a].at.dis == dis && moved.log == st.log
    requires WriteStep(st, Append(moved, Wrote(a, st.tasks[a].node, what)), a, frame, dis)
    ensures exists st'', what' ::
              Step(st, st'', a) && st''.log == st.log + [Wrote(a, st.tasks[a].node, what')]
  {
    var st'' := Append(moved, Wrote(a, st.tasks[a].node, what));
    assert Step(st, st'', a) && st''.log == st.log + [Wrote(a, st.tasks[a].node, what)];
  }

  // ---- a frame that is taken whole ----

  /** A connected session between two frames: in the map, not retired, its lock and the map's free. */
  predicate Ready(st: State, a: Id) {
    && a in st.tasks && st.tasks[a].Conn? && st.tasks[a].at == Idle
    && a in st.objs && !st.objs[a].retired && st.objs[a].lock == None
    && st.tasks[a].node in st.agents && st.agents[st.tasks[a].node] == a
    && st.writer == None
  }

  /** Steps of one task alone. */
  ghost predicate Alone(steps: seq<State>, a: Id) {
    |steps| > 0 && forall i: nat {:trigger StepAt(steps, a, i)} :: i + 1 < |steps| ==> StepAt(steps, a, i)
  }

  ghost predicate StepAt(steps: seq<State>, a: Id, i: nat)
    requires i + 1 < |steps|
  {
    Step(steps[i], steps[i + 1], a)
  }

  /** `a` alone can go from one state to the other. */
  ghost predicate Leads(st: State, st': State, a: Id) {
    exists steps: seq<State> :: Alone(steps, a) && steps[0] == st && steps[|steps| - 1] == st'
  }

  lemma LeadsByOne(st: State, st': State, st'': State, a: Id)
    requires Leads(st, st', a) && Step(st', st'', a)
    ensures Leads(st, st'', a)
  {
    var steps: seq<State> :| Alone(steps, a) && steps[0] == st && steps[|steps| - 1] == st';
    var more := steps + [st''];
    forall i: nat | i + 1 < |more| ensures StepAt(more, a, i) {
      if i + 1 < |steps| { assert StepAt(steps, a, i); }
    }
    assert Alone(more, a) && more[0] == st && more[|more| - 1] == st'';
  }

  lemma LeadsToItself(st: State, a: Id)
    ensures Leads(st, st, a)
  {
    var steps := [st];
    assert Alone(steps, a) && steps[0] == st && steps[|steps| - 1] == st;
  }
  // A frame in hand, and what it has written since `st`.
  predicate InHand(st: State, c: State, a: Id, frame: Frame, dis: DispatchAt, minute: int, gained: seq<Write>) {
    && InFrame(c, a, frame) && c.tasks[a].at.dis == dis
    && a in c.objs && !c.objs[a].retired && c.objs[a].lock == Some(a) && c.objs[a].lastMinute == minute
    && c.tasks[a].node in c.agents && c.agents[c.tasks[a].node] == a
    && c.writer == None && c.clock == st.clock && Gains(st, c, a, gained)
  }

  lemma ToLookup(st: State, a: Id, frame: Frame) returns (c: State)
    requires Ready(st, a)
    ensures Leads(st, c, a)
    ensures c == Go(st, a, Dispatching(frame, Lookup)).(readers := st.readers + {a})
  {
    var asks := Go(st, a, Dispatching(frame, AskMap));
    c := Go(asks, a, Dispatching(frame, Lookup)).(readers := asks.readers + {a});
    LeadsToItself(st, a);
    assert Step(st, asks, a);
    LeadsByOne(st, st, asks, a);
    assert Step(asks, c, a);
    LeadsByOne(st, asks, c, a);
  }

  lemma ToCheck(st: State, a: Id, frame: Frame) returns (c: State)
    requires Ready(st, a)
    ensures Leads(st, c, a) && InHand(st, c, a, frame, Check, st.objs[a].lastMinute, [])
  {
    var looks := ToLookup(st, a, frame);
    var found := Go(looks, a, Dispatching(frame, AskState)).(readers := looks.readers - {a});
    c := SetLock(Go(found, a, Dispatching(frame, Check)), a, Some(a));
    assert Step(looks, found, a);
    LeadsByOne(st, looks, found, a);
    assert Step(found, c, a);
    LeadsByOne(st, found, c, a);
  }

  predicate OpensAt(frame: Frame, dis: DispatchAt) {
    match frame
    case Hello => dis == WriteOne
    case Report => dis == ReadClock
    case PingResult => dis == WriteOne || dis == Finish(true)
    case Unknown => dis == Finish(true)
  }

  lemma ToOpening(st: State, b: State, a: Id, frame: Frame, minute: int, dis: DispatchAt) returns (c: State)
    requires Leads(st, b, a) && InHand(st, b, a, frame, Check, minute, []) && OpensAt(frame, dis)
    ensures Leads(st, c, a) && InHand(st, c, a, frame, dis, minute, [])
  {
    c := Go(b, a, Dispatching(frame, dis));
    assert Step(b, c, a);
    LeadsByOne(st, b, c, a);
  }

  predicate WritesAt(frame: Frame, dis: DispatchAt, what: Write, next: DispatchAt) {
    match dis
    case WriteOne =>
      next == Finish(true) && ((frame.Hello? && what == Facts) || (frame.PingResult? && what == PingRow))
    case Accumulate(now) => next == InsertRow(now) && what == Totals
    case TouchSeen => next == Finish(true) && what == Seen
    case _ => false
  }

  lemma ToWrite(st: State, b: State, a: Id, frame: Frame, minute: int, dis: DispatchAt, gained: seq<Write>,
                what: Write, next: DispatchAt) returns (c: State)
    requires Leads(st, b, a) && InHand(st, b, a, frame, dis, minute, gained) && WritesAt(frame, dis, what, next)
    ensures Leads(st, c, a) && InHand(st, c, a, frame, next, minute, gained + [what])
  {
    var e := Wrote(a, b.tasks[a].node, what);
    c := Append(Go(b, a, Dispatching(frame, next)), e);
    assert Step(b, c, a);
    LeadsByOne(st, b, c, a);
    WritesNext(b.log, e, a);
    Assoc(WritesOf(st.log, a), gained, [what]);
  }

  lemma ToTotals(st: State, b: State, a: Id, minute: int) returns (c: State)
    requires Leads(st, b, a) && InHand(st, b, a, Report, ReadClock, minute, [])
    ensures Leads(st, c, a) && InHand(st, c, a, Report, InsertRow(st.clock), minute, [Totals])
  {
    var read := Go(b, a, Dispatching(Report, Accumulate(b.clock)));
    assert Step(b, read, a);
    LeadsByOne(st, b, read, a);
    c := ToWrite(st, read, a, Report, minute, Accumulate(st.clock), [], Totals, InsertRow(st.clock));
  }

  lemma ToRow(st: State, b: State, a: Id, minute: int) returns (c: State)
    requires Leads(st, b, a) && InHand(st, b, a, Report, InsertRow(st.clock), minute, [Totals])
    requires minute <= st.clock / 60
    ensures Leads(st, c, a)
    ensures InHand(st, c, a, Report, TouchSeen, st.clock / 60,
                   [Totals] + if st.clock / 60 > minute then [Row(st.clock / 60)] else [])
  {
    if st.clock / 60 > minute {
      var moved := b.(objs := b.objs[a := b.objs[a].(lastMinute := st.clock / 60)]);
      var e := Wrote(a, b.tasks[a].node, Row(st.clock / 60));
      c := Append(Go(moved, a, Dispatching(Report, TouchSeen)), e);
      WritesNext(b.log, e, a);
      Assoc(WritesOf(st.log, a), [Totals], [Row(st.clock / 60)]);
    } else {
      c := Go(b, a, Dispatching(Report, TouchSeen));
      assert [Totals] + [] == [Totals];
    }
    assert Step(b, c, a);
    LeadsByOne(st, b, c, a);
  }

  lemma ToIdle(st: State, b: State, a: Id, frame: Frame, minute: int, gained: seq<Write>) returns (c: State)
    requires Leads(st, b, a) && InHand(st, b, a, frame, Finish(true), minute, gained)
    ensures Leads(st, c, a) && Ready(c, a) && Gains(st, c, a, gained) && c.objs[a].lastMinute == minute
    ensures c.clock == st.clock
  {
    c := SetLock(Go(b, a, Idle), a, None);
    assert Step(b, c, a);
    LeadsByOne(st, b, c, a);
  }

  /** What a frame writes when it is taken whole; `read` says of a probe result that it names
    * a task and carries a reading. */
  function WholeFrame(frame: Frame, read: bool, last: int, now: int): seq<Write> {
    match frame
    case Hello => [Facts]
    case Report => ReportWrites(last, now)
    case PingResult => if read then [PingRow] else []
    case Unknown => []
  }

  lemma ReportToSeen(st: State, a: Id) returns (c: State)
    requires Ready(st, a) && st.objs[a].lastMinute <= st.clock / 60
    ensures Leads(st, c, a)
    ensures var last := st.objs[a].lastMinute;
            InHand(st, c, a, Report, TouchSeen, st.clock / 60,
                   [Totals] + if st.clock / 60 > last then [Row(st.clock / 60)] else [])
  {
    c := ToCheck(st, a, Report);
    c := ToOpening(st, c, a, Report, st.objs[a].lastMinute, ReadClock);
    c := ToTotals(st, c, a, st.objs[a].lastMinute);
    c := ToRow(st, c, a, st.objs[a].lastMinute);
  }

  lemma ReportCanBeTaken(st: State, a: Id) returns (c: State)
    requires Ready(st, a) && st.objs[a].lastMinute <= st.clock / 60
    ensures Leads(st, c, a) && Ready(c, a) && c.clock == st.clock && c.objs[a].lastMinute == c.clock / 60
    ensures Gains(st, c, a, ReportWrites(st.objs[a].lastMinute, st.clock))
  {
    var last := st.objs[a].lastMinute;
    c := ReportToSeen(st, a);
    var gained := [Totals] + if st.clock / 60 > last then [Row(st.clock / 60)] else [];
    c := ToWrite(st, c, a, Report, st.clock / 60, TouchSeen, gained, Seen, Finish(true));
    c := ToIdle(st, c, a, Report, st.clock / 60, gained + [Seen]);
  }

  lemma SingleCanBeTaken(st: State, a: Id, frame: Frame) returns (c: State)
    requires Ready(st, a) && (frame.Hello? || frame.PingResult?)
    ensures Leads(st, c, a) && Ready(c, a) && c.clock == st.clock && c.objs[a].lastMinute == st.objs[a].lastMinute
    ensures Gains(st, c, a, if frame.Hello? then [Facts] else [PingRow])
  {
    var last, what := st.objs[a].lastMinute, if frame.Hello? then Facts else PingRow;
    c := ToCheck(st, a, frame);
    c := ToOpening(st, c, a, frame, last, WriteOne);
    c := ToWrite(st, c, a, frame, last, WriteOne, [], what, Finish(true));
    assert [] + [what] == [what];
    c := ToIdle(st, c, a, frame, last, [what]);
  }

  lemma NothingCanBeTaken(st: State, a: Id, frame: Frame) returns (c: State)
    requires Ready(st, a) && (frame.Unknown? || frame.PingResult?)
    ensures Leads(st, c, a) && Ready(c, a) && c.clock == st.clock && c.objs[a].lastMinute == st.objs[a].lastMinute
    ensures Gains(st, c, a, [])
  {
    c := ToCheck(st, a, frame);
    c := ToOpening(st, c, a, frame, st.objs[a].lastMinute, Finish(true));
    c := ToIdle(st, c, a, frame, st.objs[a].lastMinute, []);
  }

  /** Any frame of a session in the map, its lock and the map's free, can be taken whole by
    * steps of the session alone, after which it is ready for the next. */
  lemma EveryFrameCanBeTaken(st: State, a: Id, frame: Frame, read: bool) returns (c: State)
    requires Ready(st, a) && st.objs[a].lastMinute <= st.clock / 60
    ensures Leads(st, c, a) && Ready(c, a) && c.clock == st.clock && c.objs[a].lastMinute <= c.clock / 60
    ensures Gains(st, c, a, WholeFrame(frame, read, st.objs[a].lastMinute, st.clock))
  {
    if frame.Report? {
      c := ReportCanBeTaken(st, a);
    } else if frame.Hello? || (frame.PingResult? && read) {
      c := SingleCanBeTaken(st, a, frame);
    } else {
      c := NothingCanBeTaken(st, a, frame);
    }
  }

  lemma Extended(run: seq<State>, st': State)
    requires IsRun(run) && Next(run[|run| - 1], st')
    ensures IsRun(run + [st'])
  {
    var more := run + [st'];
    forall i: nat | i + 1 < |more| ensures NextAt(more, i) {
      if i + 1 < |run| { assert NextAt(run, i); }
    }
  }

  lemma {:induction false} RunThrough(run: seq<State>, steps: seq<State>, a: Id) returns (more: seq<State>)
    requires IsRun(run) && Alone(steps, a) && steps[0] == run[|run| - 1]
    ensures Reached(more, steps[|steps| - 1])
    decreases |steps|
  {
    var last := |steps| - 1;
    if last == 0 {
      more := run;
    } else {
      var init := steps[..last];
      forall i: nat | i + 1 < |init| ensures StepAt(init, a, i) { assert StepAt(steps, a, i); }
      more := RunThrough(run, init, a);
      assert StepAt(steps, a, last - 1);
      Extended(more, steps[last]);
      more := more + [steps[last]];
    }
  }

  lemma RunOn(run: seq<State>, st: State, st': State, a: Id) returns (more: seq<State>)
    requires Reached(run, st) && Leads(st, st', a)
    ensures Reached(more, st')
  {
    var steps: seq<State> :| Alone(steps, a) && steps[0] == st && steps[|steps| - 1] == st';
    more := RunThrough(run, steps, a);
  }

  // The first connection of a hub whose database knows one node.
  lemma Arrived(node: Node, token: Token, now: int) returns (run: seq<State>, st: State)
    ensures Reached(run, st)
    ensures st == State(map[0 := Conn(node, token, Activating(AskAdmin))], map[], map[], None, None, {},
                        map[token := node], now, [])
  {
    var start := State(map[], map[], map[], None, None, {}, map[token := node], now, []);
    st := start.(tasks := start.tasks[0 := Conn(node, token, Activating(AskAdmin))]);
    assert Arrives(start, st, 0, Conn(node, token, Activating(AskAdmin)));
    assert IsRun([start]);
    Extended([start], st);
    run := [start] + [st];
  }

  lemma ToInsert(node: Node, token: Token, now: int, st: State) returns (c: State)
    requires st == State(map[0 := Conn(node, token, Activating(AskAdmin))], map[], map[], None, None, {},
                         map[token := node], now, [])
    ensures Leads(st, c, 0)
    ensures c == Go(st, 0, Activating(Insert)).(admin := Some(0), writer := Some(0))
  {
    LeadsToItself(st, 0);
    var checks := Go(st, 0, Activating(CheckToken)).(admin := Some(0));
    LeadsByOne(st, st, checks, 0);
    var asks := Go(checks, 0, Activating(AskRemove));
    LeadsByOne(st, checks, asks, 0);
    var removes := Go(asks, 0, Activating(Remove)).(writer := Some(0));
    LeadsByOne(st, asks, removes, 0);
    var asksAgain := Go(removes, 0, Activating(AskInsert)).(writer := None);
    LeadsByOne(st, removes, asksAgain, 0);
    c := Go(asksAgain, 0, Activating(Insert)).(writer := Some(0));
    LeadsByOne(st, asksAgain, c, 0);
  }

  lemma Connected(node: Node, token: Token, now: int) returns (run: seq<State>, st: State)
    ensures Reached(run, st) && Ready(st, 0)
    ensures st.objs[0].lastMinute == now / 60 && st.clock == now && WritesOf(st.log, 0) == []
  {
    var first;
    run, first := Arrived(node, token, now);
    var inserts := ToInsert(node, token, now, first);
    var entry := Agent(node, false, None, now / 60, 0);
    var leaves := Append(Go(inserts, 0, Activating(LeaveAdmin)), Activated(0, node)).(
                    agents := map[node := 0], objs := map[0 := entry], writer := None);
    LeadsByOne(first, inserts, leaves, 0);
    st := Go(leaves, 0, Idle).(admin := None);
    LeadsByOne(first, leaves, st, 0);
    run := RunOn(run, first, st, 0);
    WritesNext([], Activated(0, node), 0);
  }

  /** For each frame, and for a report in the minute the session opened in and in a later one,
    * some run of the hub takes it whole. */
  lemma EveryFrameIsTakenInSomeRun(node: Node, token: Token, frame: Frame, read: bool, since: int, now: int)
    returns (run: seq<State>, st: State)
    requires since <= now
    ensures Reached(run, st) && Ready(st, 0)
    ensures WritesOf(st.log, 0) == WholeFrame(frame, read, since / 60, now)
  {
    var before;
    run, before := Connected(node, token, since);
    var later := before.(clock := now);
    assert EnvStep(before, later);
    Extended(run, later);
    run := run + [later];
    st := EveryFrameCanBeTaken(later, 0, frame, read);
    run := RunOn(run, later, st, 0);
  }
  // ---- after a release ----

  /** The map does not hold session `a`. */
  ghost predicate Out(st: State, a: Id) {
    forall n {:trigger n in st.agents} :: n in st.agents ==> st.agents[n] != a
  }

  ghost predicate Gone(st: State, a: Id) {
    && a in st.tasks && st.tasks[a].Conn?
    && (st.tasks[a].at == Leaving(MarkReleased) || st.tasks[a].at == Leaving(Over)) && Out(st, a)
  }

  /** A release takes its own session out of the map, and no other. */
  lemma ReleaseTakesItsOwn(st: State, st': State, a: Id)
    requires Inv(st) && Step(st, st', a) && st.tasks[a].Conn? && st.tasks[a].at == Leaving(Release)
    ensures Gone(st', a) && st'.log == st.log
    ensures forall n {:trigger n in st.agents} {:trigger n in st'.agents} ::
              && (n in st'.agents <==> n in st.agents && st.agents[n] != a)
              && (n in st'.agents ==> st'.agents[n] == st.agents[n])
  {
    assert TaskShape(st, a) && ObjShape(st, a);
    forall n | n in st.agents ensures st.agents[n] == a ==> n == st.tasks[a].node {
      assert NodeShape(st, n);
    }
  }

  lemma StaysGone(st: State, st': State, a: Id)
    requires Inv(st) && Next(st, st') && Gone(st, a)
    ensures Gone(st', a) && Gains(st, st', a, [])
  {
    if !EnvStep(st, st') {
      var b :| Step(st, st', b);
      if b != a {
        StepMoves(st, st', b);
        GoneBeside(st, st', a, b);
      }
    }
  }

  lemma GoneBeside(st: State, st': State, a: Id, b: Id)
    requires a != b && b in st.tasks && Gone(st, a)
    requires MovesLocks(st, st', b) && MovesMap(st, st', b) && MovesLog(st, st', b)
    ensures Gone(st', a) && Gains(st, st', a, [])
  {
    if st'.log != st.log {
      WritesNext(st.log, st'.log[|st.log|], a);
    }
  }

  lemma GoneNext(run: seq<State>, a: Id, j: nat)
    requires IsRun(run) && j + 1 < |run| && Gone(run[j], a)
    ensures Gone(run[j + 1], a) && Gains(run[j], run[j + 1], a, [])
  {
    InvAlong(run, j);
    assert NextAt(run, j);
    StaysGone(run[j], run[j + 1], a);
  }

  /** Whatever follows a release, the session is out of the map for good and never writes again. */
  lemma {:induction false} ReleasedForGood(run: seq<State>, a: Id, i: nat, j: nat)
    requires IsRun(run) && i < j < |run| && a in run[i].tasks && run[i].tasks[a].Conn?
    requires run[i].tasks[a].at == Leaving(Release) && Step(run[i], run[i + 1], a)
    ensures Gone(run[j], a) && Gains(run[i], run[j], a, [])
    decreases j
  {
    if j == i + 1 {
      InvAlong(run, i);
      ReleaseTakesItsOwn(run[i], run[j], a);
    } else {
      ReleasedForGood(run, a, i, j - 1);
      GoneNext(run, a, j - 1);
    }
  }
  /** A session in the map can leave it: the node then has no session, and the others theirs. */
  lemma EveryConnectionCanLeave(st: State, a: Id) returns (c: State)
    requires Ready(st, a) && st.readers == {}
    ensures Leads(st, c, a) && a in c.tasks && c.tasks[a] == st.tasks[a].(at := Leaving(Over))
    ensures c.agents == st.agents - {st.tasks[a].node}
    ensures c.objs == st.objs[a := st.objs[a].(retired := true)] && c.writer == None && c.log == st.log
  {
    LeadsToItself(st, a);
    var asks := Go(st, a, Leaving(AskRelease));
    assert Step(st, asks, a);
    LeadsByOne(st, st, asks, a);
    var locks := Go(asks, a, Leaving(Release)).(writer := Some(a));
    assert Step(asks, locks, a);
    LeadsByOne(st, asks, locks, a);
    var out := Go(locks, a, Leaving(MarkReleased)).(agents := st.agents - {st.tasks[a].node}, writer := None);
    assert Step(locks, out, a);
    LeadsByOne(st, locks, out, a);
    c := SetRetired(Go(out, a, Leaving(Over)), a);
    assert Step(out, c, a);
    LeadsByOne(st, out, c, a);
  }

  // ---- what a retirement does ----

  predicate LogGrown(st: State, st': State) {
    |st.log| <= |st'.log| && st'.log[..|st.log|] == st.log
  }

  /** The closure of a retirement of `target` has started since the log was `since` long. */
  predicate ClosureRan(st: State, target: Target, since: nat) {
    exists k :: since <= k < |st.log| && st.log[k] == Closure(target)
  }

  /** A retirement under way, or over, whose closure has started by the time it says so. */
  predicate RunsUnder(st: State, a: Id, target: Target, since: nat) {
    && a in st.tasks && st.tasks[a].Retire? && st.tasks[a].target == target && since <= |st.log|
    && (st.tasks[a].ret.Running? || st.tasks[a].ret.Drop? || st.tasks[a].ret.Retired? ==> ClosureRan(st, target, since))
  }

  lemma ClosureStaysRan(st: State, st': State, target: Target, since: nat)
    requires LogGrown(st, st')
    ensures ClosureRan(st, target, since) ==> ClosureRan(st', target, since)
  {
    if k :| since <= k < |st.log| && st.log[k] == Closure(target) {
      assert st'.log[..|st.log|][k] == st'.log[k];
    }
  }

  lemma OwnClosure(st: State, st': State, a: Id, target: Target, since: nat)
    requires RunsUnder(st, a, target, since) && RetireStep(st, st', a, st.tasks[a].ret)
    ensures RunsUnder(st', a, target, since)
  {
    if st.tasks[a].ret.Mark? && st.tasks[a].ret.left == [] {
      assert st'.log[|st.log|] == Closure(target);
    } else {
      ClosureStaysRan(st, st', target, since);
    }
  }

  lemma NextGrowsLog(st: State, st': State, a: Id)
    requires Inv(st) && Next(st, st') && a in st.tasks
    ensures LogGrown(st, st') && a in st'.tasks && (Step(st, st', a) || st'.tasks[a] == st.tasks[a])
  {
    if !EnvStep(st, st') {
      var b :| Step(st, st', b);
      StepMoves(st, st', b);
    }
  }

  lemma UnderNext(run: seq<State>, a: Id, target: Target, since: nat, j: nat)
    requires IsRun(run) && j + 1 < |run| && RunsUnder(run[j], a, target, since)
    ensures RunsUnder(run[j + 1], a, target, since)
  {
    var st, st' := run[j], run[j + 1];
    InvAlong(run, j);
    assert NextAt(run, j);
    NextGrowsLog(st, st', a);
    if Step(st, st', a) {
      OwnClosure(st, st', a, target, since);
    } else {
      ClosureStaysRan(st, st', target, since);
    }
  }

  lemma {:induction false} RetirementUnder(run: seq<State>, a: Id, target: Target, i: nat, j: nat)
    requires IsRun(run) && i <= j < |run| && a in run[i].tasks && run[i].tasks[a] == Retire(target, AskGate)
    ensures RunsUnder(run[j], a, target, |run[i].log|)
    decreases j
  {
    if i < j {
      RetirementUnder(run, a, target, i, j - 1);
      UnderNext(run, a, target, |run[i].log|, j - 1);
    }
  }

  /** A retirement that is over has run its closure, after it was asked for. */
  lemma RetirementRunsItsClosure(run: seq<State>, a: Id, target: Target, i: nat, j: nat)
    requires IsRun(run) && i <= j < |run| && a in run[i].tasks && run[i].tasks[a] == Retire(target, AskGate)
    requires a in run[j].tasks && run[j].tasks[a] == Retire(target, Retired)
    ensures exists k :: |run[i].log| <= k < |run[j].log| && run[j].log[k] == Closure(target)
  {
    RetirementUnder(run, a, target, i, j);
  }
}
