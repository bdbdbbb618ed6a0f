/**
 * The cache of the frames every browser stream sends (server/src/api.rs): one slot
 * per audience, rebuilt under the cache lock, dropped after each panel write.
 */
module FrameCache {
  import opened Options

  // The push interval less 100 ms.
  const TTL: int := 1900

  /** A frame: whose it is, how many writes had been committed when its rebuild
    * began, and whether the reads succeeded (an empty list otherwise). */
  datatype Frame = Frame(full: bool, since: nat, complete: bool)

  // A slot that was never filled holds no frame.
  datatype Slot = Slot(stamp: int, frame: Option<Frame>)

  const MIN_I64 := -0x8000_0000_0000_0000
  const MAX_I64 := 0x7fff_ffff_ffff_ffff

  function SaturatingSub(a: int, b: int): int {
    if a - b < MIN_I64 then MIN_I64 else if a - b > MAX_I64 then MAX_I64 else a - b
  }

  predicate Reusable(slot: Slot, now: int) {
    0 <= SaturatingSub(now, slot.stamp) < TTL
  }

  function SlotOf(full: bool): nat { if full then 1 else 0 }

  function Stored(slots: seq<Slot>, full: bool, now: int, frame: Frame): seq<Slot>
    requires |slots| == 2
  {
    slots[SlotOf(full) := Slot(now, Some(frame))]
  }

  function Dropped(slots: seq<Slot>): seq<Slot>
    requires |slots| == 2
  {
    [Slot(0, slots[0].frame), Slot(0, slots[1].frame)]
  }

  predicate OwnFrames(slots: seq<Slot>) {
    && |slots| == 2
    && forall full :: match slots[SlotOf(full)].frame case Some(f) => f.full == full case None => true
  }

  class Snapshot {
    var slots: seq<Slot>

    constructor ()
      ensures OwnFrames(slots) && slots == [Slot(0, None), Slot(0, None)]
    {
      slots := [Slot(0, None), Slot(0, None)];
    }

    /** `built` is what a rebuild would give now. */
    method LiveSnapshot(now: int, full: bool, built: Frame) returns (payload: Option<Frame>)
      requires OwnFrames(slots) && built.full == full
      modifies this
      ensures OwnFrames(slots)
      ensures var slot := old(slots)[SlotOf(full)];
              if Reusable(slot, now) then payload == slot.frame && slots == old(slots)
              else payload == Some(built) && slots == Stored(old(slots), full, now, built)
    {
      var slot := SlotOf(full);
      if Reusable(slots[slot], now) {
        return slots[slot].frame;
      }
      payload := Some(built);
      slots := slots[slot := Slot(now, payload)];
    }

    method Invalidate()
      requires OwnFrames(slots)
      modifies this
      ensures OwnFrames(slots) && slots == Dropped(old(slots))
    {
      for i := 0 to |slots|
        invariant |slots| == 2
        invariant forall k :: 0 <= k < 2 ==> slots[k].frame == old(slots)[k].frame
        invariant forall k :: 0 <= k < 2 ==> slots[k].stamp == if k < i then 0 else old(slots)[k].stamp
      {
        slots := slots[i := slots[i].(stamp := 0)];
      }
    }
  }

  /** Saturation does not matter: a slot is reused from its own stamp on, for less
    * than the time to live, and a stamp in the future never. */
  lemma ReusedForItsLifetime(slot: Slot, now: int)
    ensures Reusable(slot, now) <==> slot.stamp <= now < slot.stamp + TTL
  {
  }

  // ------------------------------------------------------------ interleavings

  /** `live_snapshot`: the clock is read before the lock is asked for. */
  datatype ViewStep =
    | Idle | Waiting | Holding | Building(since: nat) | Shown(payload: Option<Frame>)
  datatype Viewer = Viewer(full: bool, now: int, at: ViewStep)

  /** A panel write: it commits, then drops the frames under the lock, then returns. */
  datatype WriteStep = Pending | Committed | Dropping | Returned
  datatype Writer = Writer(commit: nat, at: WriteStep)

  datatype Holder = Free | ByViewer(v: nat) | ByWriter(w: nat)

  datatype State = State(
    slots: seq<Slot>, holder: Holder, writes: nat,
    viewers: map<nat, Viewer>, writers: map<nat, Writer>)

  datatype Label =
    | ReadClock(v: nat, now: int) | ViewerLocks(v: nat) | Reuses(v: nat)
    | BeginsBuild(v: nat) | EndsBuild(v: nat, complete: bool)
    | Commits(w: nat) | WriterLocks(w: nat) | Drops(w: nat) | OtherWrite

  predicate IsInit(s: State) {
    && s.slots == [Slot(0, None), Slot(0, None)] && s.holder.Free?
    && (forall v <- s.viewers :: s.viewers[v].at.Idle?)
    && (forall w <- s.writers :: s.writers[w].at.Pending?)
  }

  predicate ViewNext(s: State, t: State, l: Label) {
    match l
    case ReadClock(v, now) =>
      v in s.viewers && s.viewers[v].at.Idle?
      && t == s.(viewers := s.viewers[v := s.viewers[v].(now := now, at := Waiting)])
    case ViewerLocks(v) =>
      v in s.viewers && s.viewers[v].at.Waiting? && s.holder.Free?
      && t == s.(holder := ByViewer(v), viewers := s.viewers[v := s.viewers[v].(at := Holding)])
    case Reuses(v) =>
      v in s.viewers && s.viewers[v].at.Holding? && |s.slots| == 2
      && var slot := s.slots[SlotOf(s.viewers[v].full)];
         && Reusable(slot, s.viewers[v].now)
         && t == s.(holder := Free, viewers := s.viewers[v := s.viewers[v].(at := Shown(slot.frame))])
    case BeginsBuild(v) =>
      v in s.viewers && s.viewers[v].at.Holding? && |s.slots| == 2
      && !Reusable(s.slots[SlotOf(s.viewers[v].full)], s.viewers[v].now)
      && t == s.(viewers := s.viewers[v := s.viewers[v].(at := Building(s.writes))])
    case EndsBuild(v, complete) =>
      v in s.viewers && s.viewers[v].at.Building? && |s.slots| == 2
      && var me := s.viewers[v];
         var frame := Frame(me.full, me.at.since, complete);
         t == s.(holder := Free, slots := Stored(s.slots, me.full, me.now, frame),
                 viewers := s.viewers[v := me.(at := Shown(Some(frame)))])
    case _ => false
  }

  predicate WriteNext(s: State, t: State, l: Label) {
    match l
    case Commits(w) =>
      w in s.writers && s.writers[w].at.Pending?
      && t == s.(writes := s.writes + 1, writers := s.writers[w := Writer(s.writes + 1, Committed)])
    case WriterLocks(w) =>
      w in s.writers && s.writers[w].at.Committed? && s.holder.Free?
      && t == s.(holder := ByWriter(w), writers := s.writers[w := s.writers[w].(at := Dropping)])
    case Drops(w) =>
      w in s.writers && s.writers[w].at.Dropping? && |s.slots| == 2
      && t == s.(holder := Free, slots := Dropped(s.slots), writers := s.writers[w := s.writers[w].(at := Returned)])
    case OtherWrite => t == s.(writes := s.writes + 1)
    case _ => false
  }

  predicate Next(s: State, t: State, l: Label) {
    ViewNext(s, t, l) || WriteNext(s, t, l)
  }

  predicate IsRun(run: seq<State>, labels: seq<Label>) {
    && |run| == |labels| + 1
    && forall i :: 0 <= i < |labels| ==> Next(run[i], run[i + 1], labels[i])
  }

  // -------------------------------------------------------------- invariant

  predicate Locked(s: State) {
    && (forall v <- s.viewers :: s.viewers[v].at.Holding? || s.viewers[v].at.Building? <==> s.holder == ByViewer(v))
    && (forall w <- s.writers :: s.writers[w].at.Dropping? <==> s.holder == ByWriter(w))
    && (s.holder.ByViewer? ==> s.holder.v in s.viewers)
    && (s.holder.ByWriter? ==> s.holder.w in s.writers)
  }

  /** A slot is marked dropped, or its frame follows every write that has returned. */
  predicate Fresh(s: State, full: bool, commit: nat)
    requires |s.slots| == 2
  {
    var slot := s.slots[SlotOf(full)];
    slot.stamp == 0 || (slot.frame.Some? && slot.frame.value.since >= commit)
  }

  predicate Inv(s: State) {
    && OwnFrames(s.slots) && Locked(s)
    && (forall w <- s.writers :: s.writers[w].commit <= s.writes || s.writers[w].at.Pending?)
    && (forall w <- s.writers, full :: s.writers[w].at.Returned? ==> Fresh(s, full, s.writers[w].commit))
    && Rebuilds(s)
  }

  // A rebuild under way began after every write that has returned.
  predicate Rebuilds(s: State) {
    && (forall v <- s.viewers, w <- s.writers ::
          s.viewers[v].at.Building? && s.writers[w].at.Returned? ==> s.viewers[v].at.since >= s.writers[w].commit)
    && (forall v <- s.viewers :: match s.viewers[v].at
          case Shown(Some(f)) => f.full == s.viewers[v].full
          case _ => true)
  }

  lemma InitKeepsInv(s: State)
    requires IsInit(s)
    ensures Inv(s)
  {
  }

  lemma NextKeepsFrames(s: State, t: State, l: Label)
    requires Inv(s) && Next(s, t, l)
    ensures OwnFrames(t.slots) && Locked(t)
  {
  }

  lemma NextKeepsFresh(s: State, t: State, l: Label, w: nat, full: bool)
    requires Inv(s) && Next(s, t, l) && |t.slots| == 2
    requires w in t.writers && t.writers[w].at.Returned?
    ensures Fresh(t, full, t.writers[w].commit)
  {
    if !l.Drops? {
      assert Fresh(s, full, s.writers[w].commit);
    }
  }

  lemma NextKeepsRebuilds(s: State, t: State, l: Label)
    requires Inv(s) && Next(s, t, l)
    ensures Rebuilds(t)
  {
  }

  lemma NextKeepsInv(s: State, t: State, l: Label)
    requires Inv(s) && Next(s, t, l)
    ensures Inv(t)
  {
    NextKeepsFrames(s, t, l);
    NextKeepsRebuilds(s, t, l);
    forall w, full | w in t.writers && t.writers[w].at.Returned?
      ensures Fresh(t, full, t.writers[w].commit)
    {
      NextKeepsFresh(s, t, l, w, full);
    }
  }

  lemma {:induction false} RunKeepsInv(run: seq<State>, labels: seq<Label>, i: nat)
    requires IsRun(run, labels) && IsInit(run[0]) && i < |run|
    ensures Inv(run[i])
  {
    if i == 0 {
      InitKeepsInv(run[0]);
    } else {
      RunKeepsInv(run, labels, i - 1);
      assert Next(run[i - 1], run[i - 1 + 1], labels[i - 1]);
      NextKeepsInv(run[i - 1], run[i], labels[i - 1]);
    }
  }

  // A clock so close to the epoch that a slot stamped zero still counts as young.
  predicate AtTheEpoch(now: int) {
    0 <= now < TTL
  }

  /** `v` shows a frame of its own audience whose rebuild began after `commit` writes. */
  predicate ShowsFresh(v: Viewer, commit: nat)
    requires v.at.Shown?
  {
    match v.at.payload
    case Some(f) => f.full == v.full && f.since >= commit
    case None => false
  }

  predicate Shows(s: State, v: nat, commit: nat)
    requires v in s.viewers
  {
    s.viewers[v].at.Shown? && !AtTheEpoch(s.viewers[v].now) ==> ShowsFresh(s.viewers[v], commit)
  }

  lemma StepShows(s: State, t: State, l: Label, v: nat, w: nat)
    requires Inv(s) && Next(s, t, l)
    requires v in s.viewers && w in s.writers && s.writers[w].at.Returned? && Shows(s, v, s.writers[w].commit)
    ensures v in t.viewers && w in t.writers && t.writers[w] == s.writers[w] && Shows(t, v, s.writers[w].commit)
  {
    if l.Reuses? && l.v == v {
      assert Fresh(s, s.viewers[v].full, s.writers[w].commit);
    }
  }

  /** In every interleaving, a viewer that reads its clock after a panel write has
    * returned shows a frame of its own audience whose rebuild began after that
    * write was committed. */
  lemma {:induction false} FreshAfterReturn(run: seq<State>, labels: seq<Label>, i: nat, j: nat, v: nat, w: nat)
    requires IsRun(run, labels) && IsInit(run[0]) && i <= j < |run|
    requires w in run[i].writers && run[i].writers[w].at.Returned?
    requires v in run[i].viewers && run[i].viewers[v].at.Idle?
    ensures v in run[j].viewers && w in run[j].writers && run[j].writers[w] == run[i].writers[w]
    ensures Shows(run[j], v, run[i].writers[w].commit)
  {
    if i < j {
      FreshAfterReturn(run, labels, i, j - 1, v, w);
      ShowsOn(run, labels, j - 1, v, w);
    }
  }

  lemma ShowsOn(run: seq<State>, labels: seq<Label>, j: nat, v: nat, w: nat)
    requires IsRun(run, labels) && IsInit(run[0]) && j < |labels|
    requires v in run[j].viewers && w in run[j].writers && run[j].writers[w].at.Returned?
    requires Shows(run[j], v, run[j].writers[w].commit)
    ensures v in run[j + 1].viewers && w in run[j + 1].writers && run[j + 1].writers[w] == run[j].writers[w]
    ensures Shows(run[j + 1], v, run[j].writers[w].commit)
  {
    RunKeepsInv(run, labels, j);
    StepShows(run[j], run[j + 1], labels[j], v, w);
  }

  // ---------------------------------------------------------------- its age

  /** Step `k` stored `frame` for its audience, rebuilt by a viewer whose clock read `stamp`. */
  predicate Built(run: seq<State>, labels: seq<Label>, k: nat, full: bool, stamp: int, frame: Frame) {
    && k < |labels| && k < |run| && labels[k].EndsBuild?
    && labels[k].v in run[k].viewers && run[k].viewers[labels[k].v].at.Building?
    && var u := run[k].viewers[labels[k].v];
       u.full == full && u.now == stamp && frame == Frame(full, u.at.since, labels[k].complete)
  }

  // A slot is marked dropped, or holds what some earlier step stored.
  ghost predicate SlotBuilt(run: seq<State>, labels: seq<Label>, j: nat, full: bool)
    requires j < |run| && |run[j].slots| == 2
  {
    var slot := run[j].slots[SlotOf(full)];
    || slot.stamp == 0
    || (slot.frame.Some? && exists k: nat :: k < j && Built(run, labels, k, full, slot.stamp, slot.frame.value))
  }

  lemma {:induction false} SlotsAreBuilt(run: seq<State>, labels: seq<Label>, j: nat, full: bool)
    requires IsRun(run, labels) && IsInit(run[0]) && j < |run|
    ensures |run[j].slots| == 2 && SlotBuilt(run, labels, j, full)
  {
    RunKeepsInv(run, labels, j);
    if j > 0 {
      SlotsAreBuilt(run, labels, j - 1, full);
      assert Next(run[j - 1], run[j - 1 + 1], labels[j - 1]);
      SlotStaysBuilt(run, labels, j - 1, full);
    }
  }

  lemma SlotStaysBuilt(run: seq<State>, labels: seq<Label>, j: nat, full: bool)
    requires j + 1 < |run| && |run| == |labels| + 1 && Next(run[j], run[j + 1], labels[j])
    requires |run[j].slots| == 2 && |run[j + 1].slots| == 2 && SlotBuilt(run, labels, j, full)
    ensures SlotBuilt(run, labels, j + 1, full)
  {
    var slot := run[j + 1].slots[SlotOf(full)];
    if slot != run[j].slots[SlotOf(full)] && slot.stamp != 0 {
      assert Built(run, labels, j, full, slot.stamp, slot.frame.value);
    }
  }

  /** What a viewer shows was rebuilt by a viewer of its audience whose clock read at most its
    * own time, and less than the time to live before it: perhaps by itself. */
  ghost predicate ShowsYoung(run: seq<State>, labels: seq<Label>, j: nat, v: nat)
    requires j < |run| && v in run[j].viewers
  {
    var me := run[j].viewers[v];
    me.at.Shown? && !AtTheEpoch(me.now) ==>
      && me.at.payload.Some?
      && exists k: nat, stamp ::
           k < j && stamp <= me.now < stamp + TTL && Built(run, labels, k, me.full, stamp, me.at.payload.value)
  }

  lemma StepShowsYoung(run: seq<State>, labels: seq<Label>, j: nat, v: nat)
    requires IsRun(run, labels) && IsInit(run[0]) && j < |labels|
    requires v in run[j].viewers && ShowsYoung(run, labels, j, v)
    ensures v in run[j + 1].viewers && ShowsYoung(run, labels, j + 1, v)
  {
    assert Next(run[j], run[j + 1], labels[j]);
    var me := run[j].viewers[v];
    if labels[j] == Reuses(v) {
      SlotsAreBuilt(run, labels, j, me.full);
      ReusedForItsLifetime(run[j].slots[SlotOf(me.full)], me.now);
    } else if labels[j].EndsBuild? && labels[j].v == v {
      assert Built(run, labels, j, me.full, me.now, run[j + 1].viewers[v].at.payload.value);
    }
  }

  lemma {:induction false} FramesAreYoung(run: seq<State>, labels: seq<Label>, j: nat, v: nat)
    requires IsRun(run, labels) && IsInit(run[0]) && j < |run| && v in run[j].viewers
    ensures ShowsYoung(run, labels, j, v)
  {
    if j > 0 {
      assert Next(run[j - 1], run[j - 1 + 1], labels[j - 1]);
      FramesAreYoung(run, labels, j - 1, v);
      StepShowsYoung(run, labels, j - 1, v);
    }
  }

  /** A rebuilt frame is shared: every viewer of its audience that looks within its lifetime
    * reuses it, and none after; the other audience's slot is untouched. */
  lemma RebuiltFramesAreShared(slots: seq<Slot>, full: bool, now: int, frame: Frame, later: int)
    requires |slots| == 2
    ensures var stored := Stored(slots, full, now, frame);
            && (Reusable(stored[SlotOf(full)], later) <==> now <= later < now + TTL)
            && stored[SlotOf(full)].frame == Some(frame) && stored[SlotOf(!full)] == slots[SlotOf(!full)]
  {
    ReusedForItsLifetime(Slot(now, Some(frame)), later);
  }

  // ------------------------------------------------- the clock condition is exact

  /** A run in which viewer `v`, idle when the panel write `w` had returned, reads the
    * clock as `now` and shows something older, or nothing. */
  predicate ShowsStale(run: seq<State>, labels: seq<Label>, i: nat, j: nat, v: nat, w: nat, now: int) {
    && IsRun(run, labels) && IsInit(run[0]) && i <= j < |run|
    && w in run[i].writers && run[i].writers[w].at.Returned?
    && v in run[i].viewers && run[i].viewers[v].at.Idle?
    && v in run[j].viewers && run[j].viewers[v].at.Shown? && run[j].viewers[v].now == now
    && !ShowsFresh(run[j].viewers[v], run[i].writers[w].commit)
  }

  lemma RunOn(run: seq<State>, labels: seq<Label>, t: State, l: Label)
    requires IsRun(run, labels) && Next(run[|run| - 1], t, l)
    ensures IsRun(run + [t], labels + [l])
  {
    forall i | 0 <= i < |labels| + 1
      ensures Next((run + [t])[i], (run + [t])[i + 1], (labels + [l])[i])
    {
      if i < |labels| {
        assert Next(run[i], run[i + 1], labels[i]);
      }
    }
  }

  // A frame built before any write, by a viewer that is done.
  function FirstFrame(full: bool): Frame { Frame(full, 0, true) }

  function Started(full: bool, first: ViewStep, slots: seq<Slot>, holder: Holder): State {
    State(slots, holder, 0,
          map[0 := Viewer(full, TTL, first), 1 := Viewer(full, 0, Idle)], map[0 := Writer(0, Pending)])
  }

  lemma FirstViewerBuilds(full: bool) returns (run: seq<State>, labels: seq<Label>)
    ensures IsRun(run, labels) && IsInit(run[0])
    ensures var empty := [Slot(0, None), Slot(0, None)];
            run[|run| - 1]
            == Started(full, Shown(Some(FirstFrame(full))), Stored(empty, full, TTL, FirstFrame(full)), Free)
  {
    var empty := [Slot(0, None), Slot(0, None)];
    var idle := Viewer(full, 0, Idle);
    var s := State(empty, Free, 0, map[0 := idle, 1 := idle], map[0 := Writer(0, Pending)]);
    run, labels := [s], [];
    var waiting, holding := Started(full, Waiting, empty, Free), Started(full, Holding, empty, ByViewer(0));
    assert IsRun([s], []) && IsInit(s);
    RunOn(run, labels, waiting, ReadClock(0, TTL));
    run, labels := run + [waiting], labels + [ReadClock(0, TTL)];
    RunOn(run, labels, holding, ViewerLocks(0));
    run, labels := run + [holding], labels + [ViewerLocks(0)];
    run, labels := FirstViewerStores(full, run, labels);
  }

  lemma FirstViewerStores(full: bool, run0: seq<State>, labels0: seq<Label>)
    returns (run: seq<State>, labels: seq<Label>)
    requires IsRun(run0, labels0)
    requires run0[|run0| - 1] == Started(full, Holding, [Slot(0, None), Slot(0, None)], ByViewer(0))
    ensures IsRun(run, labels) && run[0] == run0[0]
    ensures var empty := [Slot(0, None), Slot(0, None)];
            run[|run| - 1]
            == Started(full, Shown(Some(FirstFrame(full))), Stored(empty, full, TTL, FirstFrame(full)), Free)
  {
    var empty := [Slot(0, None), Slot(0, None)];
    var building := Started(full, Building(0), empty, ByViewer(0));
    var shown := Started(full, Shown(Some(FirstFrame(full))), Stored(empty, full, TTL, FirstFrame(full)), Free);
    run, labels := run0, labels0;
    RunOn(run, labels, building, BeginsBuild(0));
    run, labels := run + [building], labels + [BeginsBuild(0)];
    RunOn(run, labels, shown, EndsBuild(0, true));
    run, labels := run + [shown], labels + [EndsBuild(0, true)];
  }

  lemma WriterReturns(run: seq<State>, labels: seq<Label>) returns (run': seq<State>, labels': seq<Label>)
    requires IsRun(run, labels)
    requires var s := run[|run| - 1];
             s.holder.Free? && |s.slots| == 2 && 0 in s.writers && s.writers[0].at.Pending?
    ensures IsRun(run', labels') && run'[0] == run[0]
    ensures var s := run[|run| - 1];
            run'[|run'| - 1] == s.(slots := Dropped(s.slots), writes := s.writes + 1,
                                   writers := s.writers[0 := Writer(s.writes + 1, Returned)])
  {
    var s := run[|run| - 1];
    var committed := s.(writes := s.writes + 1, writers := s.writers[0 := Writer(s.writes + 1, Committed)]);
    var dropping := committed.(holder := ByWriter(0), writers := s.writers[0 := Writer(s.writes + 1, Dropping)]);
    var returned := committed.(slots := Dropped(s.slots), writers := s.writers[0 := Writer(s.writes + 1, Returned)]);
    RunOn(run, labels, committed, Commits(0));
    var run1, labels1 := run + [committed], labels + [Commits(0)];
    RunOn(run1, labels1, dropping, WriterLocks(0));
    var run2, labels2 := run1 + [dropping], labels1 + [WriterLocks(0)];
    RunOn(run2, labels2, returned, Drops(0));
    run', labels' := run2 + [returned], labels2 + [Drops(0)];
  }

  lemma SecondViewerReuses(run: seq<State>, labels: seq<Label>, now: int)
    returns (run': seq<State>, labels': seq<Label>)
    requires IsRun(run, labels)
    requires var s := run[|run| - 1];
             && s.holder.Free? && |s.slots| == 2 && 1 in s.viewers && s.viewers[1].at.Idle?
             && Reusable(s.slots[SlotOf(s.viewers[1].full)], now)
    ensures IsRun(run', labels') && |run'| == |run| + 3 && run'[..|run|] == run
    ensures var s := run[|run| - 1];
            var me := s.viewers[1];
            run'[|run'| - 1]
            == s.(viewers := s.viewers[1 := Viewer(me.full, now, Shown(s.slots[SlotOf(me.full)].frame))])
  {
    var s := run[|run| - 1];
    var me := s.viewers[1];
    var waiting := s.(viewers := s.viewers[1 := Viewer(me.full, now, Waiting)]);
    var holding := s.(holder := ByViewer(1), viewers := s.viewers[1 := Viewer(me.full, now, Holding)]);
    var shown := s.(viewers := s.viewers[1 := Viewer(me.full, now, Shown(s.slots[SlotOf(me.full)].frame))]);
    RunOn(run, labels, waiting, ReadClock(1, now));
    var run1, labels1 := run + [waiting], labels + [ReadClock(1, now)];
    RunOn(run1, labels1, holding, ViewerLocks(1));
    var run2, labels2 := run1 + [holding], labels1 + [ViewerLocks(1)];
    RunOn(run2, labels2, shown, Reuses(1));
    run', labels' := run2 + [shown], labels2 + [Reuses(1)];
  }

  lemma StaleAtTheEpoch(full: bool, now: int)
    requires AtTheEpoch(now)
    ensures exists run, labels, i, j, v, w :: ShowsStale(run, labels, i, j, v, w, now)
  {
    var run0, labels0 := FirstViewerBuilds(full);
    var run1, labels1 := WriterReturns(run0, labels0);
    var run2, labels2 := SecondViewerReuses(run1, labels1, now);
    assert run2[0] == run1[0] == run0[0] && run2[|run1| - 1] == run1[|run1| - 1];
    assert ShowsStale(run2, labels2, |run1| - 1, |run2| - 1, 1, 0, now);
  }

  /** The clock condition is exact: some interleaving shows a viewer that started after a
    * returned write something older if and only if it read a clock less than the time to
    * live after the epoch. */
  lemma StaleExactlyAtTheEpoch(now: int)
    ensures (exists run, labels, i, j, v, w :: ShowsStale(run, labels, i, j, v, w, now)) <==> AtTheEpoch(now)
  {
    if AtTheEpoch(now) {
      StaleAtTheEpoch(false, now);
    } else {
      forall run, labels, i: nat, j: nat, v: nat, w: nat ensures !ShowsStale(run, labels, i, j, v, w, now) {
        if ShowsStale(run, labels, i, j, v, w, now) {
          FreshAfterReturn(run, labels, i, j, v, w);
        }
      }
    }
  }

  /** The reason: a dropped slot is reused, stale as it is, at just those clocks. */
  lemma DroppedSlotsAreReusedOnlyAtTheEpoch(slots: seq<Slot>, full: bool, now: int)
    requires |slots| == 2
    ensures Reusable(Dropped(slots)[SlotOf(full)], now) <==> AtTheEpoch(now)
  {
  }

  // The step that the holder of the lock, or else `who`, can take.
  lemma HolderGoesOn(s: State)
    requires Inv(s) && !s.holder.Free?
    ensures exists t, l :: Next(s, t, l) && !l.OtherWrite?
  {
    match s.holder
    case ByViewer(v) =>
      var me := s.viewers[v];
      if me.at.Building? {
        var frame := Frame(me.full, me.at.since, true);
        var t := s.(holder := Free, slots := Stored(s.slots, me.full, me.now, frame),
                    viewers := s.viewers[v := me.(at := Shown(Some(frame)))]);
        assert Next(s, t, EndsBuild(v, true));
      } else if Reusable(s.slots[SlotOf(me.full)], me.now) {
        var t := s.(holder := Free, viewers := s.viewers[v := me.(at := Shown(s.slots[SlotOf(me.full)].frame))]);
        assert Next(s, t, Reuses(v));
      } else {
        assert Next(s, s.(viewers := s.viewers[v := me.(at := Building(s.writes))]), BeginsBuild(v));
      }
    case ByWriter(w) =>
      var t := s.(holder := Free, slots := Dropped(s.slots), writers := s.writers[w := s.writers[w].(at := Returned)]);
      assert Next(s, t, Drops(w));
  }

  /** No viewer or panel write waits for good: somebody can always go on. */
  lemma NeverStuck(s: State)
    requires Inv(s)
    requires (exists v <- s.viewers :: !s.viewers[v].at.Shown?) || (exists w <- s.writers :: !s.writers[w].at.Returned?)
    ensures exists t, l :: Next(s, t, l) && !l.OtherWrite?
  {
    if !s.holder.Free? {
      HolderGoesOn(s);
    } else if exists v <- s.viewers :: !s.viewers[v].at.Shown? {
      var v :| v in s.viewers && !s.viewers[v].at.Shown?;
      if s.viewers[v].at.Idle? {
        assert Next(s, s.(viewers := s.viewers[v := s.viewers[v].(now := 0, at := Waiting)]), ReadClock(v, 0));
      } else {
        var t := s.(holder := ByViewer(v), viewers := s.viewers[v := s.viewers[v].(at := Holding)]);
        assert Next(s, t, ViewerLocks(v));
      }
    } else {
      var w :| w in s.writers && !s.writers[w].at.Returned?;
      if s.writers[w].at.Pending? {
        var t := s.(writes := s.writes + 1, writers := s.writers[w := Writer(s.writes + 1, Committed)]);
        assert Next(s, t, Commits(w));
      } else {
        var t := s.(holder := ByWriter(w), writers := s.writers[w := s.writers[w].(at := Dropping)]);
        assert Next(s, t, WriterLocks(w));
      }
    }
  }
}
