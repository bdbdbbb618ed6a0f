/**
 * What the alert sweep guarantees over whole runs, one node at a time. For each node a run
 * of sweeps is a sequence of the events below, as `AlertWatch` shows.
 */
module AlertRuns {
  import opened Options
  import opened AlertSweep

  datatype Event =
    | Restart                                                   // the hub's memory is gone
    | Unlisted                                                  // the sweep found no such row
    | Skipped                                                   // an earlier node's store failed
    // `stores`: this node's mark can be written. `done`: no node's store failed, so what
    // the sweep found is sent.
    | Looked(now: int, seen: Seen, cfg: Config, stores: bool, done: bool)

  function Next(m: Mem, e: Event): Mem {
    match e
    case Restart => Mem(None, None, m.down)
    // A row created later under this id starts with nothing announced.
    case Unlisted => Mem(None, None, 0)
    case Skipped => m
    case Looked(now, seen, cfg, stores, _) => Look(m, seen, now, cfg, stores).mem
  }

  /** What an event changes in the stored mark, sent or not. */
  function NewsOf(m: Mem, e: Event): News {
    if e.Looked? then Look(m, e.seen, e.now, e.cfg, e.stores).news else Silent
  }

  function After(start: Mem, trace: seq<Event>): Mem {
    if trace == [] then start else Next(After(start, trace[..|trace| - 1]), trace[|trace| - 1])
  }

  /** The change the `i`th event stored. */
  function NewsAt(start: Mem, trace: seq<Event>, i: nat): News
    requires i < |trace|
  {
    NewsOf(After(start, trace[..i]), trace[i])
  }

  lemma AfterNext(start: Mem, trace: seq<Event>, i: nat)
    requires i < |trace|
    ensures After(start, trace[..i + 1]) == Next(After(start, trace[..i]), trace[i])
  {
    assert trace[..i + 1][..i] == trace[..i];
  }

  lemma {:induction false} AfterSplit(start: Mem, trace: seq<Event>, i: nat)
    requires i <= |trace|
    ensures After(start, trace) == After(After(start, trace[..i]), trace[i..])
  {
    if i == |trace| {
      assert trace[..i] == trace;
    } else {
      var init := trace[..|trace| - 1];
      AfterSplit(start, init, i);
      assert init[..i] == trace[..i];
      assert trace[i..][..|trace[i..]| - 1] == init[i..];
    }
  }

  // ---- the absence clock ----

  predicate Tracks(e: Event) {
    e.Looked? && e.seen.Away? && e.seen.lastSeen != 0
  }

  predicate Breaks(e: Event) {
    e.Restart? || e.Unlisted? || (e.Looked? && e.seen.Online?)
  }

  predicate BrokenAfter(trace: seq<Event>, j: nat) {
    exists k :: j < k < |trace| && Breaks(trace[k])
  }

  /** Event `i` is the first of the unbroken run of absent looks that `trace` ends in. */
  predicate Opens(trace: seq<Event>, i: nat) {
    && i < |trace| && Tracks(trace[i]) && !BrokenAfter(trace, i)
    && forall j :: 0 <= j < i && Tracks(trace[j]) ==> BrokenAfter(trace[..i], j)
  }

  lemma {:induction false} AbsentHasOpening(start: Mem, trace: seq<Event>)
    requires start.absent == None
    ensures var m := After(start, trace);
            && (m.absent.None? ==> forall j :: 0 <= j < |trace| && Tracks(trace[j]) ==> BrokenAfter(trace, j))
            && (m.absent.Some? ==> exists i: nat :: Opens(trace, i) && trace[i].now == m.absent.value)
  {
    if trace != [] {
      var last := |trace| - 1;
      var init, e := trace[..last], trace[last];
      AbsentHasOpening(start, init);
      var before, m := After(start, init), After(start, trace);
      forall j | 0 <= j < last ensures BrokenAfter(trace, j) == (BrokenAfter(init, j) || Breaks(e)) {
        if BrokenAfter(init, j) {
          var k :| j < k < |init| && Breaks(init[k]);
          assert Breaks(trace[k]);
        }
        if Breaks(e) { assert Breaks(trace[last]); }
      }
      if m.absent.Some? {
        if before.absent.Some? {
          var i: nat :| Opens(init, i) && init[i].now == before.absent.value;
          assert trace[..i] == init[..i];
          assert Opens(trace, i);
        } else {
          assert Opens(trace, last);
        }
      }
    }
  }

  /** An absence has one opening: the clock is set by the first sweep of the run and only by it. */
  lemma OneOpening(trace: seq<Event>, i: nat, j: nat)
    requires Opens(trace, i) && Opens(trace, j)
    ensures i == j
  {
    if i < j {
      BrokenInPrefix(trace, i, j);
    } else if j < i {
      BrokenInPrefix(trace, j, i);
    }
  }

  lemma BrokenInPrefix(trace: seq<Event>, i: nat, j: nat)
    requires i < j <= |trace| && BrokenAfter(trace[..j], i)
    ensures BrokenAfter(trace, i)
  {
    var k :| i < k < j && Breaks(trace[..j][k]);
    assert Breaks(trace[k]);
  }

  /**
   * The absence trace: after any events, a node is remembered as absent since `t` exactly
   * when the current unbroken run of sweeps that saw it away began at `t`.
   */
  lemma AbsentSinceFirstSweepOfRun(start: Mem, trace: seq<Event>, t: int)
    requires start.absent == None
    ensures After(start, trace).absent == Some(t) <==> exists i: nat :: Opens(trace, i) && trace[i].now == t
  {
    AbsentHasOpening(start, trace);
    if i: nat :| Opens(trace, i) && trace[i].now == t {
      var m := After(start, trace);
      if m.absent.Some? {
        var j: nat :| Opens(trace, j) && trace[j].now == m.absent.value;
        OneOpening(trace, i, j);
      }
    }
  }

  /** An offline alert ends an unbroken run of absence that outlasted the wait in force. */
  lemma OfflineAlertEndsALongAbsence(start: Mem, trace: seq<Event>, i: nat)
    requires start.absent == None && i < |trace| && NewsAt(start, trace, i) == WentDown
    requires trace[i].cfg.grace <= FLAP_GRACE
    ensures exists o: nat :: Opens(trace[..i + 1], o)
                        && trace[i].now - trace[o].now >=
                           Wait(After(start, trace[..i]).returned, trace[o].now, trace[i].cfg.grace)
                        >= trace[i].cfg.grace
  {
    AfterNext(start, trace, i);
    var run := trace[..i + 1];
    AbsentHasOpening(start, run);
    var o: nat :| Opens(run, o) && run[o].now == After(start, run).absent.value;
    assert trace[o] == run[o];
  }

  // ---- alternation ----

  predicate PositiveLastSeen(trace: seq<Event>) {
    forall i :: 0 <= i < |trace| && trace[i].Looked? && trace[i].seen.Away? ==> trace[i].seen.lastSeen >= 0
  }

  predicate AlwaysListed(trace: seq<Event>) {
    forall i :: 0 <= i < |trace| ==> !trace[i].Unlisted?
  }

  predicate Stored(start: Mem, trace: seq<Event>, i: nat)
    requires i < |trace|
  {
    NewsAt(start, trace, i) != Silent
  }

  /** A change is announced when its sweep completes; otherwise it is stored and never sent. */
  predicate Sent(start: Mem, trace: seq<Event>, i: nat)
    requires i < |trace|
  {
    Stored(start, trace, i) && trace[i].Looked? && trace[i].done
  }

  /** Everything announced, in order. */
  function Announced(start: Mem, trace: seq<Event>): seq<News> {
    if trace == [] then []
    else
      Announced(start, trace[..|trace| - 1])
      + if Sent(start, trace, |trace| - 1) then [NewsAt(start, trace, |trace| - 1)] else []
  }

  /** The changes stored strictly between two events. */
  function Changes(start: Mem, trace: seq<Event>, i: nat, j: nat): nat
    requires j <= |trace|
  {
    if j <= i + 1 then 0 else Changes(start, trace, i, j - 1) + if Stored(start, trace, j - 1) then 1 else 0
  }

  /** Those of them that were lost with their sweep. */
  function Lost(start: Mem, trace: seq<Event>, i: nat, j: nat): nat
    requires j <= |trace|
  {
    if j <= i + 1 then 0
    else Lost(start, trace, i, j - 1)
         + if Stored(start, trace, j - 1) && !Sent(start, trace, j - 1) then 1 else 0
  }

  /** The stored mark says which way the last stored change went: it is the first one's way
    * after an even number of further changes, and the other after an odd number. */
  lemma {:induction false} MarkFollowsTheChanges(start: Mem, trace: seq<Event>, i: nat, j: nat)
    requires PositiveLastSeen(trace) && AlwaysListed(trace) && i < j <= |trace| && Stored(start, trace, i)
    ensures After(start, trace[..j]).down >= 0
    ensures (After(start, trace[..j]).down > 0)
       <==> (NewsAt(start, trace, i) == WentDown <==> Changes(start, trace, i, j) % 2 == 0)
  {
    var before, e := After(start, trace[..j - 1]), trace[j - 1];
    AfterNext(start, trace, j - 1);
    MarkMoves(before, e);
    if j > i + 1 {
      MarkFollowsTheChanges(start, trace, i, j - 1);
      MarkFollowsOneMore(NewsAt(start, trace, i) == WentDown, Changes(start, trace, i, j - 1), before, e);
    }
  }

  // The same, one event on, of the first way, the changes counted and the mark before.
  lemma MarkFollowsOneMore(first: bool, n: nat, m: Mem, e: Event)
    requires !e.Unlisted? && (e.Looked? && e.seen.Away? ==> e.seen.lastSeen >= 0)
    requires m.down >= 0 && ((m.down > 0) <==> (first <==> n % 2 == 0))
    ensures var more := if NewsOf(m, e) != Silent then n + 1 else n;
            Next(m, e).down >= 0 && ((Next(m, e).down > 0) <==> (first <==> more % 2 == 0))
  {
    MarkMoves(m, e);
    OneMoreChange(n);
  }

  lemma OneMoreChange(n: nat)
    ensures (n + 1) % 2 == 0 <==> n % 2 != 0
  {
  }

  // A change is of the way the mark was not, and turns it.
  lemma MarkMoves(m: Mem, e: Event)
    requires !e.Unlisted? && (e.Looked? && e.seen.Away? ==> e.seen.lastSeen >= 0)
    ensures match NewsOf(m, e)
            case Silent => Next(m, e).down == m.down
            case WentDown => m.down == 0 && Next(m, e).down > 0
            case CameBack => m.down > 0 && Next(m, e).down == 0
  {
  }

  /** Stored changes strictly alternate, even across hub restarts and failed stores. */
  lemma ChangesAlternate(start: Mem, trace: seq<Event>, i: nat, j: nat)
    requires PositiveLastSeen(trace) && AlwaysListed(trace) && i < j < |trace|
    requires Stored(start, trace, i) && Stored(start, trace, j) && Changes(start, trace, i, j) == 0
    ensures NewsAt(start, trace, i) != NewsAt(start, trace, j)
  {
    MarkFollowsTheChanges(start, trace, i, j);
  }

  lemma {:induction false} LostAreTheUnsentChanges(start: Mem, trace: seq<Event>, i: nat, j: nat)
    requires j <= |trace| && forall k :: i < k < j ==> !Sent(start, trace, k)
    ensures Lost(start, trace, i, j) == Changes(start, trace, i, j)
  {
    if j > i + 1 {
      LostAreTheUnsentChanges(start, trace, i, j - 1);
    }
  }

  /**
   * Two announcements in a row, an offline and an online one, differ if and only if an even
   * number of changes stored between them was lost: restarts, failed stores and sweeps cut
   * short by another node included.
   */
  lemma AnnouncementsDifferExactly(start: Mem, trace: seq<Event>, i: nat, j: nat)
    requires PositiveLastSeen(trace) && AlwaysListed(trace) && i < j < |trace|
    requires Sent(start, trace, i) && Sent(start, trace, j)
    requires forall k :: i < k < j ==> !Sent(start, trace, k)
    ensures NewsAt(start, trace, i) != NewsAt(start, trace, j) <==> Lost(start, trace, i, j) % 2 == 0
  {
    MarkFollowsTheChanges(start, trace, i, j);
    LostAreTheUnsentChanges(start, trace, i, j);
  }

  /** A return lost with a sweep that another node's store cut short: two offline alerts in a
    * row, with no return announced between them. */
  lemma LostReturnRepeatsAnAlert()
    ensures var m, cfg := Mem(None, None, 0), Config(60, true);
            Announced(m, [Looked(0, Away(1, true), cfg, true, true), Looked(60, Away(1, true), cfg, true, true),
                          Looked(90, Online, cfg, true, false),
                          Looked(5_000, Away(1, true), cfg, true, true), Looked(5_060, Away(1, true), cfg, true, true)])
            == [WentDown, WentDown]
  {
    var m, cfg := Mem(None, None, 0), Config(60, true);
    var trace := [Looked(0, Away(1, true), cfg, true, true), Looked(60, Away(1, true), cfg, true, true),
                  Looked(90, Online, cfg, true, false),
                  Looked(5_000, Away(1, true), cfg, true, true), Looked(5_060, Away(1, true), cfg, true, true)];
    assert trace[..0] == [] && trace[..5] == trace;
    Reaches(m, trace, 0, m, []);
    Reaches(m, trace, 1, Mem(Some(0), None, 0), []);
    Reaches(m, trace, 2, Mem(Some(0), None, 1), [WentDown]);
    Reaches(m, trace, 3, Mem(None, Some(90), 0), [WentDown]);
    Reaches(m, trace, 4, Mem(Some(5_000), Some(90), 0), [WentDown]);
  }

  // One step of a run whose memory and announcements so far are known.
  lemma Reaches(start: Mem, trace: seq<Event>, i: nat, m: Mem, told: seq<News>)
    requires i < |trace| && trace[i].Looked?
    requires After(start, trace[..i]) == m && Announced(start, trace[..i]) == told
    ensures After(start, trace[..i + 1]) == Next(m, trace[i])
    ensures Announced(start, trace[..i + 1])
         == told + if NewsOf(m, trace[i]) != Silent && trace[i].done then [NewsOf(m, trace[i])] else []
  {
    AnnouncedNext(start, trace, i);
  }

  lemma AnnouncedNext(start: Mem, trace: seq<Event>, i: nat)
    requires i < |trace|
    ensures After(start, trace[..i + 1]) == Next(After(start, trace[..i]), trace[i])
    ensures Announced(start, trace[..i + 1])
         == Announced(start, trace[..i])
            + if Sent(start, trace, i) then [NewsOf(After(start, trace[..i]), trace[i])] else []
  {
    assert trace[..i + 1][..i] == trace[..i];
  }

  /** Between two stored absences a return was stored. */
  lemma {:induction false} ReturnBetweenAbsences(start: Mem, trace: seq<Event>, i: nat, j: nat) returns (k: nat)
    requires PositiveLastSeen(trace) && AlwaysListed(trace) && i < j < |trace|
    requires NewsAt(start, trace, i) == WentDown && NewsAt(start, trace, j) == WentDown
    ensures i < k < j && NewsAt(start, trace, k) == CameBack
    decreases j - i
  {
    if Changes(start, trace, i, j) == 0 {
      ChangesAlternate(start, trace, i, j);
    }
    k := ChangeBetween(start, trace, i, j);
    if NewsAt(start, trace, k) == WentDown {
      k := ReturnBetweenAbsences(start, trace, i, k);
    }
  }

  lemma {:induction false} ChangeBetween(start: Mem, trace: seq<Event>, i: nat, j: nat) returns (k: nat)
    requires j <= |trace| && Changes(start, trace, i, j) > 0
    ensures i < k < j && Stored(start, trace, k)
  {
    if Stored(start, trace, j - 1) {
      k := j - 1;
    } else {
      k := ChangeBetween(start, trace, i, j - 1);
    }
  }

  // ---- flapping ----

  /** One process: the node stays listed, the grace lies between `least` and half an hour and
    * may change, and the clock does not fall, nor lie below `from`. */
  predicate Continues(trace: seq<Event>, from: int, least: int) {
    && (forall i :: 0 <= i < |trace| ==>
          trace[i].Skipped? || (trace[i].Looked? && least <= trace[i].cfg.grace <= FLAP_GRACE))
    && (forall i :: 0 <= i < |trace| && trace[i].Looked? ==> trace[i].now >= from)
    && (forall i, j :: 0 <= i < j < |trace| && trace[i].Looked? && trace[j].Looked? ==> trace[i].now <= trace[j].now)
  }

  predicate ConstantGrace(trace: seq<Event>, grace: int) {
    forall i :: 0 <= i < |trace| && trace[i].Looked? ==> trace[i].cfg.grace == grace
  }

  /** No offline change before `t` is stored, let alone announced. */
  predicate NoAbsenceBefore(m: Mem, trace: seq<Event>, t: int) {
    forall i :: 0 <= i < |trace| && NewsAt(m, trace, i) == WentDown ==> trace[i].now >= t
  }

  /** No offline alert is announced before `t`. */
  predicate NoAlertBefore(m: Mem, trace: seq<Event>, t: int) {
    forall i :: 0 <= i < |trace| && Sent(m, trace, i) && NewsAt(m, trace, i) == WentDown ==> trace[i].now >= t
  }

  /** The last long return is recent enough for the flapping wait to reach half an hour past `r`. */
  predicate Remembers(m: Mem, r: int, least: int) {
    least == FLAP_GRACE || (m.returned.Some? && m.returned.value >= r - FLAP_GRACE - least)
  }

  lemma {:induction false} RemembersOn(m: Mem, trace: seq<Event>, r: int, least: int)
    requires 0 < least <= FLAP_GRACE && Continues(trace, r, least) && Remembers(m, r, least)
    requires m.absent.Some? ==> m.absent.value >= r
    ensures var after := After(m, trace);
            Remembers(after, r, least) && (after.absent.Some? ==> after.absent.value >= r)
  {
    if trace != [] {
      RemembersOn(m, trace[..|trace| - 1], r, least);
    }
  }

  lemma RemembersKeepsTheSpacing(m: Mem, trace: seq<Event>, r: int, least: int)
    requires 0 < least <= FLAP_GRACE && Continues(trace, r, least) && Remembers(m, r, least)
    requires m.absent.Some? ==> m.absent.value >= r
    ensures NoAbsenceBefore(m, trace, r + FLAP_GRACE)
  {
    forall i | 0 <= i < |trace| && NewsAt(m, trace, i) == WentDown ensures trace[i].now >= r + FLAP_GRACE {
      RemembersOn(m, trace[..i], r, least);
      AlertIsLate(After(m, trace[..i]), trace[i], r, least);
    }
  }

  lemma AlertIsLate(m: Mem, e: Event, r: int, least: int)
    requires Remembers(m, r, least) && (m.absent.Some? ==> m.absent.value >= r)
    requires NewsOf(m, e) == WentDown && e.now >= r && 0 < least <= e.cfg.grace <= FLAP_GRACE
    ensures e.now >= r + FLAP_GRACE
  {
  }

  /** The earliest alert a node can cause when nothing keeps it on the flapping wait. */
  function EarlyAlert(m: Mem, r: int, least: int): (trace: seq<Event>)
  {
    var since := if m.returned.None? then r else Max(r, m.returned.value + FLAP_WINDOW);
    [Looked(since, Away(1, true), Config(least, true), true, true),
     Looked(since + least, Away(1, true), Config(least, true), true, true)]
  }

  lemma EarlyAlertIsEarly(m: Mem, r: int, least: int)
    requires 0 < least <= FLAP_GRACE && m.absent == None && m.down == 0 && !Remembers(m, r, least)
    ensures var trace := EarlyAlert(m, r, least);
            Continues(trace, r, least) && ConstantGrace(trace, least) && !NoAlertBefore(m, trace, r + FLAP_GRACE)
  {
    var trace := EarlyAlert(m, r, least);
    assert trace[..0] == [] && trace[..1] == [trace[0]] && trace[..1][..0] == [];
    assert After(m, trace[..1]) == Mem(Some(trace[0].now), m.returned, 0);
    assert NewsAt(m, trace, 1) == WentDown && Sent(m, trace, 1);
  }

  /**
   * Flap spacing, exactly. After a return at `r`, no continuation of the process whose graces
   * are at least `least` alerts for this node again before `r` + 1800 s if and only if the
   * sweep remembers a long return recent enough, or that grace is itself half an hour; and
   * the same holds of the continuations that keep the grace at `least`.
   */
  lemma SpacingExactlyWhenRemembered(m: Mem, r: int, least: int)
    requires 0 < least <= FLAP_GRACE && m.absent == None && m.down == 0
    requires m.returned.Some? ==> m.returned.value <= r
    ensures (forall trace: seq<Event> :: Continues(trace, r, least) ==> NoAlertBefore(m, trace, r + FLAP_GRACE))
            <==> Remembers(m, r, least)
    ensures (forall trace: seq<Event> :: Continues(trace, r, least) && ConstantGrace(trace, least) ==>
               NoAlertBefore(m, trace, r + FLAP_GRACE))
            <==> Remembers(m, r, least)
  {
    if Remembers(m, r, least) {
      forall trace: seq<Event> | Continues(trace, r, least) ensures NoAlertBefore(m, trace, r + FLAP_GRACE) {
        RemembersKeepsTheSpacing(m, trace, r, least);
      }
    } else {
      EarlyAlertIsEarly(m, r, least);
    }
  }

  /** A look at `q` that ends an unbroken run of absence at least as long as its grace. */
  predicate LongReturn(trace: seq<Event>, q: nat) {
    && q < |trace| && trace[q].Looked? && trace[q].seen.Online?
    && exists o: nat :: o < q && Opens(trace[..q], o) && trace[q].now - trace[o].now >= trace[q].cfg.grace
  }

  lemma LongReturnAsRemembered(start: Mem, trace: seq<Event>, q: nat)
    requires start.absent == None && q < |trace| && trace[q].Looked? && trace[q].seen.Online?
    ensures var m := After(start, trace[..q]);
            LongReturn(trace, q) <==> m.absent.Some? && trace[q].now - m.absent.value >= trace[q].cfg.grace
  {
    var init := trace[..q];
    AbsentHasOpening(start, init);
    if o: nat :| Opens(init, o) && trace[q].now - trace[o].now >= trace[q].cfg.grace {
      AbsentSinceFirstSweepOfRun(start, init, trace[o].now);
    }
  }

  /** What is remembered as returned is the latest long return of the process. */
  lemma {:induction false} ReturnedSince(start: Mem, trace: seq<Event>, from: int, least: int, t: int)
    requires start.absent == None && start.returned == None && Continues(trace, from, least)
    ensures var m := After(start, trace);
            m.returned.Some? && m.returned.value >= t <==> exists q: nat :: LongReturn(trace, q) && trace[q].now >= t
  {
    if trace != [] {
      var last := |trace| - 1;
      var init := trace[..last];
      ReturnedSince(start, init, from, least, t);
      forall q: nat | q < last ensures LongReturn(init, q) == LongReturn(trace, q) {
        LongReturnInPrefix(trace, q);
      }
      ReturnRemembered(start, trace);
    }
  }

  lemma LongReturnInPrefix(trace: seq<Event>, q: nat)
    requires q < |trace| - 1
    ensures LongReturn(trace[..|trace| - 1], q) == LongReturn(trace, q)
  {
    assert trace[..|trace| - 1][..q] == trace[..q];
  }

  lemma ReturnRemembered(start: Mem, trace: seq<Event>)
    requires start.absent == None && trace != []
    requires var e := trace[|trace| - 1]; e.Skipped? || e.Looked?
    ensures var before, after := After(start, trace[..|trace| - 1]).returned, After(start, trace).returned;
            after == if LongReturn(trace, |trace| - 1) then Some(trace[|trace| - 1].now) else before
  {
    var last := |trace| - 1;
    if trace[last].Looked? && trace[last].seen.Online? {
      LongReturnAsRemembered(start, trace, last);
    }
  }

  /**
   * Flap spacing, exactly, by what happened: after a return stored at `r`, failed stores and
   * changes of the grace included, no continuation of the process whose graces are at least
   * `least` alerts before `r` + 1800 s if and only if some long return lies at most 1800 s and
   * `least` before `r`, or `least` is 1800 s.
   */
  lemma SpacingExactlyAfterALongReturn(start: Mem, trace: seq<Event>, from: int, least: int)
    requires start.absent == None && start.returned == None
    requires 0 < least <= FLAP_GRACE && Continues(trace, from, least)
    requires trace != [] && NewsAt(start, trace, |trace| - 1) == CameBack
    ensures var m, r := After(start, trace), trace[|trace| - 1].now;
            (forall rest: seq<Event> :: Continues(rest, r, least) ==> NoAlertBefore(m, rest, r + FLAP_GRACE))
            <==> least == FLAP_GRACE
                 || exists q: nat :: LongReturn(trace, q) && trace[q].now >= r - FLAP_GRACE - least
  {
    var m, r := After(start, trace), trace[|trace| - 1].now;
    ReturnedSince(start, trace, from, least, r - FLAP_GRACE - least);
    if m.returned.Some? {
      ReturnedSince(start, trace, from, least, m.returned.value);
    }
    SpacingExactlyWhenRemembered(m, r, least);
  }

  /** Every store of a return succeeds. */
  predicate ReturnsStored(start: Mem, trace: seq<Event>) {
    forall q: nat :: q < |trace| && trace[q].Looked? && trace[q].seen.Online? && After(start, trace[..q]).down > 0 ==>
      trace[q].stores
  }

  predicate GraceNeverRises(trace: seq<Event>) {
    forall i, j :: 0 <= i < j < |trace| && trace[i].Looked? && trace[j].Looked? ==>
      trace[j].cfg.grace <= trace[i].cfg.grace
  }

  /** A process in which an absence, once stored, is a long one when its return is. */
  predicate Steady(start: Mem, trace: seq<Event>, from: int, least: int) {
    0 < least <= FLAP_GRACE && Continues(trace, from, least) && ReturnsStored(start, trace) && GraceNeverRises(trace)
  }

  /** From the alert on, the clock of a stored absence keeps running until its return. */
  lemma {:induction false} StoredAbsenceKeepsItsClock(
    start: Mem, trace: seq<Event>, from: int, least: int, i: nat, k: nat)
    requires Steady(start, trace, from, least) && i < k <= |trace| && NewsAt(start, trace, i) == WentDown
    ensures var m := After(start, trace[..k]);
            m.down > 0 ==> m.absent.Some?
                           && forall j :: k <= j < |trace| && trace[j].Looked? ==>
                                            trace[j].now - m.absent.value >= trace[j].cfg.grace
  {
    var before, e := After(start, trace[..k - 1]), trace[k - 1];
    AfterNext(start, trace, k - 1);
    if k == i + 1 {
      AlertHasItsClock(before, e);
    } else {
      StoredAbsenceKeepsItsClock(start, trace, from, least, i, k - 1);
      MarkedAbsenceGoesOn(before, e);
    }
  }

  lemma AlertHasItsClock(m: Mem, e: Event)
    requires NewsOf(m, e) == WentDown && e.cfg.grace <= FLAP_GRACE
    ensures var next := Next(m, e); next.absent.Some? && e.now - next.absent.value >= e.cfg.grace
  {
  }

  // While the mark stands, or once its return is stored; and an alert starts it.
  lemma MarkedAbsenceGoesOn(m: Mem, e: Event)
    requires e.Skipped? || (e.Looked? && e.cfg.grace <= FLAP_GRACE)
    requires m.down > 0 ==> m.absent.Some? && (e.Looked? && e.seen.Online? ==> e.stores)
    ensures var next := Next(m, e);
            next.down > 0 ==>
              && next.absent.Some?
              && (next.absent == m.absent || (e.Looked? && e.now - next.absent.value >= e.cfg.grace))
    ensures var next := Next(m, e);
            next.down > 0 && m.down <= 0 ==> e.Looked? && e.now - next.absent.value >= e.cfg.grace
  {
  }

  /** The stored return of an absence this process stored is remembered as a return. */
  lemma StoredReturnIsRemembered(start: Mem, trace: seq<Event>, from: int, least: int, i: nat, k: nat)
    requires Steady(start, trace, from, least) && i < k < |trace|
    requires NewsAt(start, trace, i) == WentDown && NewsAt(start, trace, k) == CameBack
    ensures After(start, trace[..k + 1]) == Mem(None, Some(trace[k].now), 0)
  {
    StoredAbsenceKeepsItsClock(start, trace, from, least, i, k);
    AfterNext(start, trace, k);
  }

  /**
   * Flap spacing within one process whose returns are all stored and whose grace never rises:
   * once an absence it stored has its return stored at r, no offline change is stored, and
   * none announced, before r + 1800 s.
   */
  lemma FlapSpacing(start: Mem, trace: seq<Event>, from: int, least: int, i: nat, k: nat, j: nat)
    requires Steady(start, trace, from, least) && i < k < j < |trace|
    requires NewsAt(start, trace, i) == WentDown && NewsAt(start, trace, k) == CameBack
    requires NewsAt(start, trace, j) == WentDown
    ensures trace[j].now >= trace[k].now + FLAP_GRACE
  {
    StoredReturnIsRemembered(start, trace, from, least, i, k);
    AfterBetween(start, trace, k + 1, j);
    ContinuesAfter(trace, from, least, k, j);
    RemembersOn(After(start, trace[..k + 1]), trace[k + 1..j], trace[k].now, least);
    AlertIsLate(After(start, trace[..j]), trace[j], trace[k].now, least);
  }

  lemma AfterBetween(start: Mem, trace: seq<Event>, k: nat, j: nat)
    requires k <= j <= |trace|
    ensures After(start, trace[..j]) == After(After(start, trace[..k]), trace[k..j])
  {
    assert trace[..j][..k] == trace[..k] && trace[..j][k..] == trace[k..j];
    AfterSplit(start, trace[..j], k);
  }

  lemma ContinuesAfter(trace: seq<Event>, from: int, least: int, k: nat, j: nat)
    requires Continues(trace, from, least) && k < j <= |trace| && trace[k].Looked?
    ensures Continues(trace[k + 1..j], trace[k].now, least)
  {
  }

  /** After a restart the same claim fails: a return announced for the previous process is not remembered. */
  lemma SpacingNeedsTheSameProcess()
    ensures var m, cfg := Mem(None, None, 5), Config(60, true);
            var trace := [Looked(1_000, Online, cfg, true, true),
                          Looked(1_030, Away(1, true), cfg, true, true),
                          Looked(1_090, Away(1, true), cfg, true, true)];
            && NewsAt(m, trace, 0) == CameBack && NewsAt(m, trace, 2) == WentDown
            && trace[2].now < trace[0].now + FLAP_GRACE
  {
    var m, cfg := Mem(None, None, 5), Config(60, true);
    var trace := [Looked(1_000, Online, cfg, true, true),
                  Looked(1_030, Away(1, true), cfg, true, true),
                  Looked(1_090, Away(1, true), cfg, true, true)];
    assert trace[..0] == [];
    AfterNext(m, trace, 0);
    AfterNext(m, trace, 1);
  }

  /**
   * Nor does it hold after a return whose store failed: it is announced only when a later
   * look stores it, and by then the return remembered is an old one.
   */
  lemma SpacingNeedsTheReturnStored()
    ensures var m, cfg := Mem(None, None, 0), Config(60, true);
            var trace := [Looked(0, Away(1, true), cfg, true, true),
                          Looked(60, Away(1, true), cfg, true, true),
                          Looked(90, Online, cfg, false, false),
                          Looked(5_000, Online, cfg, true, true),
                          Looked(5_030, Away(1, true), cfg, true, true),
                          Looked(5_090, Away(1, true), cfg, true, true)];
            && Continues(trace, 0, 60) && GraceNeverRises(trace)
            && NewsAt(m, trace, 1) == WentDown && NewsAt(m, trace, 3) == CameBack && NewsAt(m, trace, 5) == WentDown
            && trace[5].now < trace[3].now + FLAP_GRACE
  {
    var m, cfg := Mem(None, None, 0), Config(60, true);
    var trace := [Looked(0, Away(1, true), cfg, true, true),
                  Looked(60, Away(1, true), cfg, true, true),
                  Looked(90, Online, cfg, false, false),
                  Looked(5_000, Online, cfg, true, true),
                  Looked(5_030, Away(1, true), cfg, true, true),
                  Looked(5_090, Away(1, true), cfg, true, true)];
    assert trace[..0] == [];
    AfterNext(m, trace, 0);
    AfterNext(m, trace, 1);
    AfterNext(m, trace, 2);
    AfterNext(m, trace, 3);
    AfterNext(m, trace, 4);
  }

  /** Nor after a return at which the grace had been raised above the absence. */
  lemma SpacingNeedsAGraceThatDoesNotRise()
    ensures var m := Mem(None, None, 0);
            var trace := [Looked(0, Away(1, true), Config(60, true), true, true),
                          Looked(60, Away(1, true), Config(60, true), true, true),
                          Looked(90, Online, Config(1_800, true), true, true),
                          Looked(120, Away(1, true), Config(60, true), true, true),
                          Looked(180, Away(1, true), Config(60, true), true, true)];
            && Continues(trace, 0, 60) && ReturnsStored(m, trace)
            && NewsAt(m, trace, 1) == WentDown && NewsAt(m, trace, 2) == CameBack && NewsAt(m, trace, 4) == WentDown
            && trace[4].now < trace[2].now + FLAP_GRACE
  {
    var m := Mem(None, None, 0);
    var trace := [Looked(0, Away(1, true), Config(60, true), true, true),
                  Looked(60, Away(1, true), Config(60, true), true, true),
                  Looked(90, Online, Config(1_800, true), true, true),
                  Looked(120, Away(1, true), Config(60, true), true, true),
                  Looked(180, Away(1, true), Config(60, true), true, true)];
    assert trace[..0] == [];
    AfterNext(m, trace, 0);
    AfterNext(m, trace, 1);
    AfterNext(m, trace, 2);
    AfterNext(m, trace, 3);
  }

  /** Offline changes of one process, by position; those announced are among them. */
  predicate AreAbsences(start: Mem, trace: seq<Event>, at: seq<nat>) {
    && (forall n :: 0 <= n < |at| ==> at[n] < |trace| && NewsAt(start, trace, at[n]) == WentDown)
    && (forall n, m :: 0 <= n < m < |at| ==> at[n] < at[m])
  }

  /** A window of T seconds holds at most 1 + T/1800 offline alerts of one node. */
  lemma {:induction false} AlertsPerWindow(
    start: Mem, trace: seq<Event>, from: int, least: int, at: seq<nat>, window: nat)
    requires Steady(start, trace, from, least) && PositiveLastSeen(trace)
    requires AreAbsences(start, trace, at) && at != []
    requires trace[at[|at| - 1]].now - trace[at[0]].now <= window
    ensures trace[at[|at| - 1]].now - trace[at[0]].now >= FLAP_GRACE * (|at| - 1)
    ensures |at| <= 1 + window / FLAP_GRACE
  {
    if |at| > 1 {
      var n := |at| - 1;
      var init := at[..n];
      var i, j := at[n - 1], at[n];
      var k := ReturnBetweenAbsences(start, trace, i, j);
      FlapSpacing(start, trace, from, least, i, k, j);
      assert trace[i].now <= trace[k].now;
      assert init[|init| - 1] == i && init[0] == at[0];
      AlertsPerWindow(start, trace, from, least, init, window);
    }
  }
}
