/**
 * What the sweep announces of one node's traffic over whole runs. For each node a run of
 * sweeps is a sequence of the events below, as `TrafficWatch` shows.
 */
module TrafficRuns {
  import opened Options
  import opened AlertSweep

  predicate Counters(u: Usage) {
    0 <= u.rx <= MAX_I64 && 0 <= u.tx <= MAX_I64
  }

  /** The usage the mode asks for, without the saturation. */
  function TrueUse(mode: Mode, u: Usage): int {
    match mode
    case Up => u.tx
    case Down => u.rx
    case Larger => if u.rx > u.tx then u.rx else u.tx
    case Both => u.rx + u.tx
  }

  /**
   * The comparison is exact for all non-negative i64 counters, saturation included, and
   * nothing in it leaves i128.
   */
  lemma StepIsExact(mode: Mode, u: Usage, limit: int, percent: int)
    requires Counters(u) && 0 < limit <= MAX_I64 && 0 < percent <= 100
    ensures var step, share := Step(Used(mode, u), limit, percent), TrueUse(mode, u) as real / limit as real;
            && (step == 100 <==> share >= 1.0 || (percent == 100 && share >= percent as real / 100.0))
            && (step >= percent <==> share >= percent as real / 100.0)
            && (step == 0 <==> share < percent as real / 100.0)
    ensures 0 <= Used(mode, u) * 100 < 0x8000_0000_0000_0000_0000_0000_0000_0000
    ensures 0 <= limit * percent < 0x8000_0000_0000_0000_0000_0000_0000_0000
  {
    var used, true' := Used(mode, u), TrueUse(mode, u);
    ShareAbove(true', limit, 100);
    ShareAbove(true', limit, percent);
    Scaled(limit, percent);
  }

  lemma ShareAbove(used: int, limit: int, percent: int)
    requires limit > 0
    ensures used * 100 >= limit * percent <==> used as real / limit as real >= percent as real / 100.0
  {
    var share, bar := used as real / limit as real, percent as real / 100.0;
    assert share * limit as real == used as real;
    Scale(share, bar, limit as real * 100.0);
    assert share * (limit as real * 100.0) == used as real * 100.0;
    assert bar * (limit as real * 100.0) == limit as real * percent as real;
    assert (limit * percent) as real == limit as real * percent as real;
  }

  lemma Scale(a: real, b: real, c: real)
    requires c > 0.0
    ensures a >= b <==> a * c >= b * c
  {
  }

  lemma Scaled(limit: int, percent: int)
    requires 0 < limit <= MAX_I64 && 0 < percent <= 100
    ensures limit <= limit * percent <= limit * 100
  {
  }

  /** Steps that only climb, each one of the two that can be announced. */
  predicate Climbs(told: seq<int>, percent: int, top: int) {
    && (forall k :: 0 <= k < |told| ==> (told[k] == percent || told[k] == 100) && told[k] <= top)
    && (forall i, j :: 0 <= i < j < |told| ==> told[i] < told[j])
  }

  lemma ClimbsTwice(told: seq<int>, percent: int, top: int)
    requires percent <= 100 && Climbs(told, percent, top)
    ensures |told| <= 2
  {
    if |told| >= 2 {
      var last := |told| - 1;
      assert told[0] < told[1] == 100;
      assert told[last] <= 100;
    }
  }

  predicate IsStep(step: int, percent: int) {
    step == 0 || step == percent || step == 100
  }

  /** With fixed settings and nondecreasing usage a node's traffic step never falls. */
  lemma StepRises(used: int, more: int, limit: int, percent: int)
    requires used <= more && 0 < limit && 0 < percent <= 100
    ensures Step(used, limit, percent) <= Step(more, limit, percent)
    ensures IsStep(Step(used, limit, percent), percent)
  {
  }

  // ---- runs ----

  datatype Event =
    | Restart                              // the hub's memory is gone
    | Unlisted(done: bool)                 // the sweep found no such row
    | StoreFailed                          // the sweep ended before any traffic was examined
    | Unexamined                           // no allowance, no channel, alerts off, or no counters
    | Examined(period: string, used: int)

  /** What is remembered: whether a sweep has completed, and the step last recorded. */
  datatype Memory = Memory(primed: bool, last: Option<Recorded>)

  /** The allowance and the percentage that is announced first. */
  datatype Settings = Settings(limit: int, percent: int)

  predicate Sound(cfg: Settings) {
    0 < cfg.limit && 0 < cfg.percent <= 100
  }

  function RecordedOf(e: Event, cfg: Settings): Recorded
    requires e.Examined? && Sound(cfg)
  {
    Recorded(e.period, Step(e.used, cfg.limit, cfg.percent))
  }

  function Next(m: Memory, e: Event, cfg: Settings): Memory
    requires Sound(cfg)
  {
    match e
    case Restart => Memory(false, None)
    case Unlisted(done) => Memory(m.primed || done, None)
    case StoreFailed => m
    case Unexamined => Memory(true, m.last)
    case Examined(_, _) => Memory(true, Some(RecordedOf(e, cfg)))
  }

  function After(start: Memory, trace: seq<Event>, cfg: Settings): Memory
    requires Sound(cfg)
  {
    if trace == [] then start else Next(After(start, trace[..|trace| - 1], cfg), trace[|trace| - 1], cfg)
  }

  /** The steps announced within one billing period. */
  function Told(start: Memory, trace: seq<Event>, cfg: Settings, period: string): seq<int>
    requires Sound(cfg)
  {
    if trace == [] then []
    else
      var m, e := After(start, trace[..|trace| - 1], cfg), trace[|trace| - 1];
      Told(start, trace[..|trace| - 1], cfg, period)
      + if e.Examined? && e.period == period && Announces(m.primed, m.last, RecordedOf(e, cfg))
        then [RecordedOf(e, cfg).step] else []
  }

  /** Everything announced, in order. */
  function Announced(start: Memory, trace: seq<Event>, cfg: Settings): seq<Recorded>
    requires Sound(cfg)
  {
    if trace == [] then []
    else Announced(start, trace[..|trace| - 1], cfg)
         + NewsOf(After(start, trace[..|trace| - 1], cfg), trace[|trace| - 1], cfg)
  }

  function NewsOf(m: Memory, e: Event, cfg: Settings): seq<Recorded>
    requires Sound(cfg)
  {
    if e.Examined? && Announces(m.primed, m.last, RecordedOf(e, cfg)) then [RecordedOf(e, cfg)] else []
  }

  function StepsOf(news: seq<Recorded>, period: string): seq<int> {
    if news == [] then []
    else StepsOf(news[..|news| - 1], period)
         + if news[|news| - 1].period == period then [news[|news| - 1].step] else []
  }

  /** The steps told of a period are those of its announcements. */
  lemma {:induction false} ToldAreAnnounced(start: Memory, trace: seq<Event>, cfg: Settings, period: string)
    requires Sound(cfg)
    ensures Told(start, trace, cfg, period) == StepsOf(Announced(start, trace, cfg), period)
  {
    if trace != [] {
      var init, e := trace[..|trace| - 1], trace[|trace| - 1];
      ToldAreAnnounced(start, init, cfg, period);
      var news := NewsOf(After(start, init, cfg), e, cfg);
      if news != [] {
        var all := Announced(start, trace, cfg);
        assert all[..|all| - 1] == Announced(start, init, cfg) && all[|all| - 1] == RecordedOf(e, cfg);
      } else {
        assert Announced(start, trace, cfg) == Announced(start, init, cfg);
      }
    }
  }

  /** Usage does not fall within a period, and a period that is over does not come back. */
  predicate Usage(trace: seq<Event>) {
    && (forall a, b :: 0 <= a < b < |trace| && trace[a].Examined? && trace[b].Examined? ==>
          trace[a].period == trace[b].period ==> trace[a].used <= trace[b].used)
    && (forall a, b, c :: 0 <= a < b < c < |trace| && trace[a].Examined? && trace[b].Examined? && trace[c].Examined? ==>
          trace[a].period == trace[c].period ==> trace[b].period == trace[a].period)
  }

  predicate ExaminedBetween(trace: seq<Event>, a: nat, b: nat) {
    exists c :: a < c < b && c < |trace| && trace[c].Examined?
  }

  /** The node stays listed, and the first sweep a restarted hub completes examines it. */
  predicate Followed(trace: seq<Event>) {
    && (forall a :: 0 <= a < |trace| ==> !trace[a].Unlisted?)
    && (forall a, b :: 0 <= a < b < |trace| && trace[a].Restart? && trace[b].Unexamined? ==>
          ExaminedBetween(trace, a, b))
  }

  /** The latest sweep that examined the node. */
  function Latest(trace: seq<Event>): (e: Option<nat>)
    ensures match e
            case Some(n) => n < |trace| && trace[n].Examined? && forall k :: n < k < |trace| ==> !trace[k].Examined?
            case None => forall k :: 0 <= k < |trace| ==> !trace[k].Examined?
  {
    if trace == [] then None
    else if trace[|trace| - 1].Examined? then Some(|trace| - 1) else Latest(trace[..|trace| - 1])
  }

  predicate RestartedSince(trace: seq<Event>, n: nat) {
    exists a :: n < a < |trace| && trace[a].Restart?
  }

  /** The step recorded is that of the latest examination, or nothing since a restart. */
  lemma {:induction false} RecordsTheLatest(start: Memory, trace: seq<Event>, cfg: Settings)
    requires Sound(cfg) && Followed(trace) && Latest(trace).Some?
    ensures var m, n := After(start, trace, cfg), Latest(trace).value;
            || m.last == Some(RecordedOf(trace[n], cfg))
            || (m == Memory(false, None) && RestartedSince(trace, n))
  {
    var last := |trace| - 1;
    var init, e := trace[..last], trace[last];
    if !e.Examined? {
      var n := Latest(trace).value;
      FollowedPrefix(trace);
      RecordsTheLatest(start, init, cfg);
      if RestartedSince(init, n) {
        var a :| n < a < |init| && init[a].Restart?;
        assert trace[a].Restart? && !ExaminedBetween(trace, a, last);
      }
      if e.Restart? {
        assert trace[last].Restart?;
      }
    }
  }

  lemma FollowedPrefix(trace: seq<Event>)
    requires trace != [] && Followed(trace)
    ensures Followed(trace[..|trace| - 1])
  {
    var init := trace[..|trace| - 1];
    forall a, b | 0 <= a < b < |init| && init[a].Restart? && init[b].Unexamined?
      ensures ExaminedBetween(init, a, b)
    {
      assert trace[a].Restart? && trace[b].Unexamined?;
      assert ExaminedBetween(trace, a, b);
      var c :| a < c < b && c < |trace| && trace[c].Examined?;
      assert init[c].Examined?;
    }
  }

  lemma UsagePrefix(trace: seq<Event>)
    requires trace != [] && Usage(trace)
    ensures Usage(trace[..|trace| - 1])
  {
    var init := trace[..|trace| - 1];
    assert forall k :: 0 <= k < |init| ==> init[k] == trace[k];
  }

  predicate SeenIn(trace: seq<Event>, period: string) {
    exists k :: 0 <= k < |trace| && trace[k].Examined? && trace[k].period == period
  }

  // What the steps told so far lie under.
  function Top(trace: seq<Event>, cfg: Settings, period: string): int
    requires Sound(cfg)
  {
    match Latest(trace)
    case Some(n) => if trace[n].period == period then RecordedOf(trace[n], cfg).step else 100
    case None => 0
  }

  lemma {:induction false} ToldClimbs(start: Memory, trace: seq<Event>, cfg: Settings, period: string)
    requires Sound(cfg) && Usage(trace) && Followed(trace)
    ensures Climbs(Told(start, trace, cfg, period), cfg.percent, Top(trace, cfg, period))
    ensures Told(start, trace, cfg, period) != [] ==> SeenIn(trace, period)
  {
    if trace != [] {
      var last := |trace| - 1;
      var init, e := trace[..last], trace[last];
      UsagePrefix(trace);
      FollowedPrefix(trace);
      ToldClimbs(start, init, cfg, period);
      if SeenIn(init, period) {
        var k :| 0 <= k < |init| && init[k].Examined? && init[k].period == period;
        assert trace[k].Examined? && trace[k].period == period;
      }
      if e.Examined? {
        ToldOneMore(start, trace, cfg, period);
      }
    }
  }

  // Within a period already told of, an announced step lies above all told before.
  lemma AnnouncedIsHigher(start: Memory, trace: seq<Event>, cfg: Settings)
    requires Sound(cfg) && Usage(trace) && Followed(trace) && trace != [] && trace[|trace| - 1].Examined?
    requires SeenIn(trace[..|trace| - 1], trace[|trace| - 1].period)
    ensures var init, e := trace[..|trace| - 1], trace[|trace| - 1];
            var m, top := After(start, init, cfg), Top(init, cfg, e.period);
            && top <= RecordedOf(e, cfg).step
            && (Announces(m.primed, m.last, RecordedOf(e, cfg)) ==> top < RecordedOf(e, cfg).step)
  {
    var init, e := trace[..|trace| - 1], trace[|trace| - 1];
    var k :| 0 <= k < |init| && init[k].Examined? && init[k].period == e.period;
    var n := Latest(init).value;
    assert k <= n && trace[k] == init[k] && trace[n] == init[n];
    assert trace[n].period == e.period;
    FollowedPrefix(trace);
    RecordsTheLatest(start, init, cfg);
    StepRises(trace[n].used, e.used, cfg.limit, cfg.percent);
  }

  lemma ClimbsOneMore(told: seq<int>, percent: int, top: int, step: int)
    requires Climbs(told, percent, top) && (told != [] ==> top < step) && (step == percent || step == 100)
    ensures Climbs(told + [step], percent, step)
  {
  }

  lemma ClimbsUnder(told: seq<int>, percent: int, top: int, higher: int)
    requires Climbs(told, percent, top) && (told != [] ==> top <= higher)
    ensures Climbs(told, percent, higher)
  {
  }

  lemma ToldOneMore(start: Memory, trace: seq<Event>, cfg: Settings, period: string)
    requires Sound(cfg) && Usage(trace) && Followed(trace) && trace != [] && trace[|trace| - 1].Examined?
    requires var init := trace[..|trace| - 1];
             && Climbs(Told(start, init, cfg, period), cfg.percent, Top(init, cfg, period))
             && (Told(start, init, cfg, period) != [] ==> SeenIn(init, period))
    ensures Climbs(Told(start, trace, cfg, period), cfg.percent, Top(trace, cfg, period))
  {
    var init, e := trace[..|trace| - 1], trace[|trace| - 1];
    var told, top, step := Told(start, init, cfg, period), Top(init, cfg, period), RecordedOf(e, cfg).step;
    StepRises(e.used, e.used, cfg.limit, cfg.percent);
    if e.period != period {
      ClimbsUnder(told, cfg.percent, top, 100);
    } else {
      if told != [] {
        AnnouncedIsHigher(start, trace, cfg);
      }
      if Told(start, trace, cfg, period) == told {
        ClimbsUnder(told, cfg.percent, top, step);
      } else {
        ClimbsOneMore(told, cfg.percent, top, step);
      }
    }
  }

  /**
   * At most two traffic alerts per node and period, at increasing steps, over any run of a
   * listed node: with sweeps that fail or do not examine it, changes of period, and
   * restarts whose first completed sweep examines it.
   */
  lemma TwoTrafficAlertsPerPeriod(start: Memory, trace: seq<Event>, cfg: Settings, period: string)
    requires Sound(cfg) && Usage(trace) && Followed(trace)
    ensures var told := Told(start, trace, cfg, period);
            |told| <= 2 && forall i, j :: 0 <= i < j < |told| ==> told[i] < told[j]
  {
    ToldClimbs(start, trace, cfg, period);
    ClimbsTwice(Told(start, trace, cfg, period), cfg.percent, Top(trace, cfg, period));
  }

  // From a restart at `r` on, until a sweep examines the node.
  predicate Unseen(trace: seq<Event>, r: nat) {
    && r < |trace| && trace[r].Restart?
    && forall k :: r < k < |trace| ==> trace[k].StoreFailed? || trace[k].Unexamined?
  }

  predicate CompletedSince(trace: seq<Event>, r: nat) {
    exists k :: r < k < |trace| && trace[k].Unexamined?
  }

  lemma {:induction false} PrimedByASweep(start: Memory, trace: seq<Event>, cfg: Settings, r: nat)
    requires Sound(cfg) && Unseen(trace, r)
    ensures After(start, trace, cfg) == Memory(CompletedSince(trace, r), None)
  {
    var last := |trace| - 1;
    if r < last {
      var init := trace[..last];
      PrimedByASweep(start, init, cfg, r);
      if CompletedSince(init, r) {
        var k :| r < k < |init| && init[k].Unexamined?;
        assert trace[k].Unexamined?;
      }
    }
  }

  /** After a restart the first sweep that examines the node announces the step reached,
    * announced before or not, exactly when some sweep of the process had completed
    * without examining it. */
  lemma AnnouncedAfterRestartExactly(start: Memory, trace: seq<Event>, cfg: Settings, r: nat, e: Event)
    requires Sound(cfg) && Unseen(trace, r) && e.Examined?
    ensures Told(start, trace + [e], cfg, e.period)
         == Told(start, trace, cfg, e.period)
            + if CompletedSince(trace, r) && RecordedOf(e, cfg).step > 0 then [RecordedOf(e, cfg).step] else []
  {
    PrimedByASweep(start, trace, cfg, r);
    assert (trace + [e])[..|trace + [e]| - 1] == trace;
    StepRises(e.used, e.used, cfg.limit, cfg.percent);
  }

  /** A restart whose first completed sweep does not examine the node repeats an alert. */
  lemma RestartUnexaminedRepeats(period: string)
    ensures var trace := [Unexamined, Examined(period, 90), Restart, Unexamined, Examined(period, 90)];
            Told(Memory(false, None), trace, Settings(100, 80), period) == [80, 80]
  {
    var cfg, start := Settings(100, 80), Memory(false, None);
    var trace := [Unexamined, Examined(period, 90), Restart, Unexamined, Examined(period, 90)];
    assert trace[..4][..3] == trace[..3] && trace[..3][..2] == trace[..2] && trace[..2][..1] == trace[..1];
    assert trace[..1] == [Unexamined] && trace[..1][..0] == [];
    assert After(start, trace[..1], cfg) == Memory(true, None);
    assert Told(start, trace[..1], cfg, period) == [];
    assert Told(start, trace[..2], cfg, period) == [80];
    assert Told(start, trace[..3], cfg, period) == [80];
    assert After(start, trace[..3], cfg) == Memory(false, None);
    assert Told(start, trace[..4], cfg, period) == [80];
    assert After(start, trace[..4], cfg) == Memory(true, None);
  }
  // ---- when a step is announced ----

  predicate Completes(e: Event) {
    e.Unexamined? || e.Examined? || (e.Unlisted? && e.done)
  }

  /** Some sweep of the process in progress has completed. */
  predicate SweptBefore(start: Memory, trace: seq<Event>) {
    || (start.primed && forall a :: 0 <= a < |trace| ==> !trace[a].Restart?)
    || exists k: nat :: k < |trace| && Completes(trace[k]) && !RestartedSince(trace, k)
  }

  lemma RestartedNext(trace: seq<Event>, k: nat)
    requires k < |trace| - 1
    ensures RestartedSince(trace, k)
       <==> RestartedSince(trace[..|trace| - 1], k) || trace[|trace| - 1].Restart?
  {
    var last := |trace| - 1;
    var init := trace[..last];
    if RestartedSince(init, k) {
      var a :| k < a < |init| && init[a].Restart?;
      assert trace[a].Restart?;
    }
    if trace[last].Restart? { assert RestartedSince(trace, k); }
  }

  lemma SweptNext(start: Memory, trace: seq<Event>)
    requires trace != []
    ensures var last := |trace| - 1;
            SweptBefore(start, trace) <==>
              Completes(trace[last]) || (SweptBefore(start, trace[..last]) && !trace[last].Restart?)
  {
    var last := |trace| - 1;
    var init, e := trace[..last], trace[last];
    forall k: nat | k < last ensures RestartedSince(trace, k) <==> RestartedSince(init, k) || e.Restart? {
      RestartedNext(trace, k);
    }
    if Completes(e) {
      assert !RestartedSince(trace, last);
    } else if SweptBefore(start, init) && !e.Restart? {
      if k: nat :| k < last && Completes(init[k]) && !RestartedSince(init, k) {
        assert Completes(trace[k]) && !RestartedSince(trace, k);
      }
    }
  }

  lemma {:induction false} PrimedExactly(start: Memory, trace: seq<Event>, cfg: Settings)
    requires Sound(cfg)
    ensures After(start, trace, cfg).primed <==> SweptBefore(start, trace)
  {
    if trace != [] {
      PrimedExactly(start, trace[..|trace| - 1], cfg);
      SweptNext(start, trace);
    }
  }

  /** Since event `n` the hub has restarted or the node has had no row. */
  predicate ForgottenSince(trace: seq<Event>, n: nat) {
    exists a :: n < a < |trace| && (trace[a].Restart? || trace[a].Unlisted?)
  }

  lemma {:induction false} RecordsExactly(start: Memory, trace: seq<Event>, cfg: Settings)
    requires Sound(cfg) && start.last == None
    ensures var last := After(start, trace, cfg).last;
            match Latest(trace)
            case Some(n) => last == if ForgottenSince(trace, n) then None else Some(RecordedOf(trace[n], cfg))
            case None => last == None
  {
    if trace != [] {
      var last := |trace| - 1;
      var init, e := trace[..last], trace[last];
      RecordsExactly(start, init, cfg);
      match Latest(init) {
        case Some(n) =>
          if ForgottenSince(init, n) {
            var a :| n < a < |init| && (init[a].Restart? || init[a].Unlisted?);
            assert trace[a].Restart? || trace[a].Unlisted?;
          }
          if e.Restart? || e.Unlisted? { assert ForgottenSince(trace, n); }
        case None =>
      }
    }
  }

  /** The usage `before` had come less far than `now` has: below the percentage it has reached,
    * or below the whole allowance, which is used up. */
  predicate CameLessFar(before: int, now: int, cfg: Settings) {
    || (before * 100 < cfg.limit * cfg.percent && now * 100 >= cfg.limit * cfg.percent)
    || (before < cfg.limit && now >= cfg.limit)
  }

  /** Every condition for announcing what the sweep at `i` finds: a sweep of the process has
    * completed before, the usage has reached the percentage, and the latest examination lies
    * before a restart or an earlier row, or in another period, or had come less far. */
  predicate StepDue(start: Memory, trace: seq<Event>, cfg: Settings, i: nat)
    requires i < |trace| && Sound(cfg)
  {
    && trace[i].Examined? && trace[i].used * 100 >= cfg.limit * cfg.percent
    && SweptBefore(start, trace[..i])
    && match Latest(trace[..i])
       case None => true
       case Some(n) =>
         || ForgottenSince(trace[..i], n)
         || trace[n].period != trace[i].period
         || CameLessFar(trace[n].used, trace[i].used, cfg)
  }

  lemma StepsByShare(used: int, cfg: Settings)
    requires Sound(cfg)
    ensures var step := Step(used, cfg.limit, cfg.percent);
            && (step == 100 <==> used >= cfg.limit || (cfg.percent == 100 && used * 100 >= cfg.limit * cfg.percent))
            && (step != 0 <==> used * 100 >= cfg.limit * cfg.percent)
            && (step == 100 || step == cfg.percent || step == 0)
            && (used >= cfg.limit ==> used * 100 >= cfg.limit * cfg.percent)
  {
    assert cfg.limit * cfg.percent <= cfg.limit * 100;
  }

  lemma LowerStep(before: int, now: int, cfg: Settings)
    requires Sound(cfg) && now * 100 >= cfg.limit * cfg.percent
    ensures Step(before, cfg.limit, cfg.percent) < Step(now, cfg.limit, cfg.percent) <==> CameLessFar(before, now, cfg)
  {
    StepsByShare(before, cfg);
    StepsByShare(now, cfg);
  }

  /**
   * What a sweep finds of a node's traffic is announced exactly when it is due, over any run:
   * with restarts, failed sweeps, rows that come and go and changes of period. What is told
   * is that the allowance is used up, or that the percentage is reached.
   */
  lemma ToldExactlyWhenDue(start: Memory, trace: seq<Event>, cfg: Settings, i: nat)
    requires Sound(cfg) && start.last == None && i < |trace|
    ensures Announced(start, trace[..i + 1], cfg)
         == Announced(start, trace[..i], cfg)
            + if StepDue(start, trace, cfg, i)
              then [Recorded(trace[i].period, if trace[i].used >= cfg.limit then 100 else cfg.percent)]
              else []
  {
    assert trace[..i + 1][..i] == trace[..i];
    if trace[i].Examined? {
      PrimedExactly(start, trace[..i], cfg);
      RecordsExactly(start, trace[..i], cfg);
      StepsByShare(trace[i].used, cfg);
      match Latest(trace[..i]) {
        case Some(n) =>
          assert trace[..i][n] == trace[n];
          if trace[i].used * 100 >= cfg.limit * cfg.percent {
            LowerStep(trace[n].used, trace[i].used, cfg);
          }
        case None =>
      }
    }
  }
}
