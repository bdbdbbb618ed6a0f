/**
 * The failure counter of the password endpoint (server/src/auth.rs).
 *
 * The map is swept: an entry past its window is dropped by whichever call meets
 * it first. The reference is a log nobody sweeps. The two must give the same
 * answers, whatever other addresses do in between.
 */
module Throttle {
  import opened Options

  type Address = nat

  const MAX_ATTEMPTS: nat := 5
  const LOCKOUT: nat := 900

  datatype Entry = Entry(failures: nat, since: int)

  /** One call on the counter, or a request that leaves without an outcome. A
    * failure reads the clock once per remembered address and once more for the
    * entry it may open. */
  datatype Event =
    | Check(who: Address, at: int)
    | Fail(who: Address, clock: Address -> int, stamp: int)
    | Clear(who: Address, at: int)
    | Leave(who: Address, at: int)

  // `Instant::elapsed` saturates at zero.
  function Elapsed(now: int, since: int): int {
    if now < since then 0 else now - since
  }

  predicate Live(e: Entry, now: int, window: nat) {
    Elapsed(now, e.since) < window
  }

  predicate Locks(seen: map<Address, Entry>, who: Address, now: int, window: nat) {
    who in seen && Live(seen[who], now, window) && seen[who].failures >= MAX_ATTEMPTS
  }

  function Swept(seen: map<Address, Entry>, clock: Address -> int, window: nat): map<Address, Entry> {
    map a | a in seen && Live(seen[a], clock(a), window) :: seen[a]
  }

  function Bumped(seen: map<Address, Entry>, who: Address, stamp: int): map<Address, Entry> {
    seen[who := if who in seen then Entry(seen[who].failures + 1, seen[who].since) else Entry(1, stamp)]
  }

  function After(seen: map<Address, Entry>, e: Event, window: nat): map<Address, Entry> {
    match e
    case Check(who, at) => if who in seen && !Live(seen[who], at, window) then seen - {who} else seen
    case Fail(who, clock, stamp) => Bumped(Swept(seen, clock, window), who, stamp)
    case Clear(who, _) => seen - {who}
    case Leave(_, _) => seen
  }

  class Counter {
    var seen: map<Address, Entry>
    const window: nat

    constructor (window: nat)
      ensures seen == map[] && this.window == window
    {
      seen := map[];
      this.window := window;
    }

    method Locked(who: Address, now: int) returns (locked: bool)
      modifies this`seen
      ensures locked == Locks(old(seen), who, now, window)
      ensures seen == After(old(seen), Check(who, now), window)
    {
      if who !in seen {
        return false;
      }
      if Live(seen[who], now, window) {
        return seen[who].failures >= MAX_ATTEMPTS;
      }
      seen := seen - {who};
      return false;
    }

    method RecordFailure(who: Address, clock: Address -> int, stamp: int)
      modifies this`seen
      ensures seen == After(old(seen), Fail(who, clock, stamp), window)
    {
      seen := map a | a in seen && Live(seen[a], clock(a), window) :: seen[a];
      if who !in seen {
        seen := seen[who := Entry(0, stamp)];
      }
      seen := seen[who := seen[who].(failures := seen[who].failures + 1)];
    }

    method Forget(who: Address, now: int)
      modifies this`seen
      ensures seen == After(old(seen), Clear(who, now), window)
    {
      seen := seen - {who};
    }
  }

  // ---------------------------------------------------------------- the log

  function Replay(log: seq<Event>, window: nat): map<Address, Entry> {
    if log == [] then map[] else After(Replay(log[..|log| - 1], window), log[|log| - 1], window)
  }

  /** What an unswept log of one address amounts to: its latest fixed window. */
  function Remembered(log: seq<Event>, who: Address, window: nat): Option<Entry> {
    if log == [] then None
    else
      var before := Remembered(log[..|log| - 1], who, window);
      var e := log[|log| - 1];
      if e.who != who then before
      else match e
        case Fail(_, clock, stamp) =>
          if before.Some? && Live(before.value, clock(who), window)
          then Some(Entry(before.value.failures + 1, before.value.since))
          else Some(Entry(1, stamp))
        case Clear(_, _) => None
        case _ => before
  }

  predicate LogLocks(log: seq<Event>, who: Address, now: int, window: nat) {
    var r := Remembered(log, who, window);
    r.Some? && Live(r.value, now, window) && r.value.failures >= MAX_ATTEMPTS
  }

  function Only(log: seq<Event>, who: Address): seq<Event> {
    if log == [] then []
    else Only(log[..|log| - 1], who) + (if log[|log| - 1].who == who then [log[|log| - 1]] else [])
  }

  function End(e: Event): int {
    match e
    case Check(_, at) => at
    case Fail(_, _, stamp) => stamp
    case Clear(_, at) => at
    case Leave(_, at) => at
  }

  function Latest(log: seq<Event>, start: int): int {
    if log == [] then start else End(log[|log| - 1])
  }

  ghost predicate Timely(e: Event, earliest: int) {
    match e
    case Fail(_, clock, stamp) => forall a: Address :: earliest <= clock(a) <= stamp
    case _ => earliest <= End(e)
  }

  // The clock is monotone, and a call holds the lock across all its readings.
  ghost predicate Orderly(log: seq<Event>, start: int) {
    log == [] || (Orderly(log[..|log| - 1], start) && Timely(log[|log| - 1], Latest(log[..|log| - 1], start)))
  }

  lemma {:induction false} SweptMapFollowsLog(log: seq<Event>, start: int, window: nat, who: Address)
    requires Orderly(log, start)
    ensures
      var seen, r := Replay(log, window), Remembered(log, who, window);
      if who in seen then r == Some(seen[who])
      else r.Some? ==> !Live(r.value, Latest(log, start), window)
  {
    if log != [] {
      SweptMapFollowsLog(log[..|log| - 1], start, window, who);
      var e := log[|log| - 1];
      if e.Fail? {
        assert Latest(log[..|log| - 1], start) <= e.clock(who) <= e.stamp;
      }
    }
  }

  lemma {:induction false} OtherAddressesDoNotMatter(log: seq<Event>, who: Address, window: nat)
    ensures Remembered(Only(log, who), who, window) == Remembered(log, who, window)
  {
    if log != [] {
      var front := log[..|log| - 1];
      OtherAddressesDoNotMatter(front, who, window);
      if log[|log| - 1].who == who {
        var only := Only(log, who);
        assert only == Only(front, who) + [log[|log| - 1]];
        assert only[..|only| - 1] == Only(front, who) && only[|only| - 1] == log[|log| - 1];
      } else {
        assert Only(log, who) == Only(front, who);
      }
    }
  }

  /** The swept map locks an address exactly when the unswept log of that address
    * alone would. */
  lemma LocksExactlyAsTheLogOfThatAddress(log: seq<Event>, start: int, window: nat, who: Address, now: int)
    requires Orderly(log, start) && Latest(log, start) <= now
    ensures Locks(Replay(log, window), who, now, window) == LogLocks(Only(log, who), who, now, window)
  {
    SweptMapFollowsLog(log, start, window, who);
    OtherAddressesDoNotMatter(log, who, window);
  }

  // --------------------------------------------------- what an entry stands for

  function Failures(log: seq<Event>, who: Address): nat {
    if log == [] then 0
    else Failures(log[..|log| - 1], who)
         + if log[|log| - 1].Fail? && log[|log| - 1].who == who then 1 else 0
  }

  // `i` opened the window, and every later failure of the address fell into it.
  predicate Opens(log: seq<Event>, who: Address, i: nat, e: Entry, window: nat) {
    && i < |log| && log[i].Fail? && log[i].who == who && log[i].stamp == e.since
    && Failures(log[i..], who) == e.failures
    && (forall k :: i <= k < |log| && log[k].who == who ==> !log[k].Clear?)
    && (forall k :: i < k < |log| && log[k].who == who && log[k].Fail? ==> Live(e, log[k].clock(who), window))
  }

  /** An entry counts exactly the failures from the one that opened its window. */
  lemma {:induction false} EntryCountsItsWindow(log: seq<Event>, who: Address, window: nat) returns (i: nat)
    requires Remembered(log, who, window).Some?
    ensures Opens(log, who, i, Remembered(log, who, window).value, window)
  {
    var n := |log| - 1;
    var front, e := log[..n], log[n];
    var before := Remembered(front, who, window);
    if e.who == who && e.Fail? && !(before.Some? && Live(before.value, e.clock(who), window)) {
      i := n;
      assert log[i..] == [e];
      assert Failures([e], who) == Failures([e][..0], who) + 1;
    } else {
      i := EntryCountsItsWindow(front, who, window);
      assert log[i..][..|log[i..]| - 1] == front[i..];
      assert forall k :: 0 <= k < n ==> log[k] == front[k];
    }
  }

  // ------------------------------------------------------- attempts per window

  /** Requests of an address that were told "not locked" and have no outcome yet. */
  function Outstanding(log: seq<Event>, who: Address, window: nat): int {
    if log == [] then 0
    else
      var front, e := log[..|log| - 1], log[|log| - 1];
      var before := Outstanding(front, who, window);
      if e.who != who then before
      else if e.Check? then (if LogLocks(front, who, e.at, window) then before else before + 1)
      else before - 1
  }

  /** Every outcome belongs to a request that was told "not locked", no more than
    * `k` of them are under way at once, and none of them succeeds. */
  predicate Guarded(log: seq<Event>, who: Address, window: nat, k: nat) {
    log == [] || (
      && Guarded(log[..|log| - 1], who, window, k)
      && !(log[|log| - 1].who == who && log[|log| - 1].Clear?)
      && 0 <= Outstanding(log, who, window) <= k)
  }

  predicate Within(e: Event, who: Address, from: int, window: nat) {
    e.Fail? && e.who == who && from <= e.clock(who) < from + window
  }

  function FailuresWithin(log: seq<Event>, who: Address, from: int, window: nat): nat {
    if log == [] then 0
    else FailuresWithin(log[..|log| - 1], who, from, window)
         + if Within(log[|log| - 1], who, from, window) then 1 else 0
  }

  // When the failure that opened the current window looked at the clock.
  function Opened(log: seq<Event>, who: Address, window: nat): int
    requires Remembered(log, who, window).Some?
  {
    var front, e := log[..|log| - 1], log[|log| - 1];
    var before := Remembered(front, who, window);
    if e.who == who && e.Fail? && !(before.Some? && Live(before.value, e.clock(who), window))
    then e.clock(who) else Opened(front, who, window)
  }

  /** What holds along a guarded run, for the interval starting at `from`. */
  predicate Bounded(log: seq<Event>, start: int, who: Address, from: int, window: nat, k: nat) {
    var r, n := Remembered(log, who, window), FailuresWithin(log, who, from, window);
    if r.None? then n == 0
    else
      var began := Opened(log, who, window);
      && began <= r.value.since <= Latest(log, start)
      && 1 <= r.value.failures <= 4 + k
      && (Live(r.value, Latest(log, start), window)
          ==> r.value.failures + Outstanding(log, who, window) <= 4 + k)
      && n <= 7 + 2 * k
      && (from > Latest(log, start) ==> n == 0)
      && (from > began ==> n <= r.value.failures - 1)
      && (from <= began < from + window ==> n <= r.value.failures + 3 + k)
  }

  lemma {:induction false} GuardedRunsAreBounded(
    log: seq<Event>, start: int, who: Address, from: int, window: nat, k: nat)
    requires Orderly(log, start) && Guarded(log, who, window, k) && window > 0
    ensures Bounded(log, start, who, from, window, k)
  {
    if log != [] {
      var front, e := log[..|log| - 1], log[|log| - 1];
      GuardedRunsAreBounded(front, start, who, from, window, k);
      if e.Fail? {
        assert Latest(front, start) <= e.clock(who) <= e.stamp;
      }
      assert 0 <= Outstanding(front, who, window) <= k;
    }
  }

  /** With at most `k` unlocked requests of an address under way at once and no
    * success, any interval as long as the lockout holds at most 7 + 2k failures:
    * 3 + k left over from one fixed window and 4 + k in the next. */
  lemma FailuresPerLockout(log: seq<Event>, start: int, who: Address, from: int, k: nat)
    requires Orderly(log, start) && Guarded(log, who, LOCKOUT, k)
    ensures FailuresWithin(log, who, from, LOCKOUT) <= 7 + 2 * k
  {
    GuardedRunsAreBounded(log, start, who, from, LOCKOUT, k);
  }

  /** Checking and recording as one step leaves nine. */
  lemma AtMostNineWhenAtomic(log: seq<Event>, start: int, who: Address, from: int)
    requires Orderly(log, start) && Guarded(log, who, LOCKOUT, 1)
    ensures FailuresWithin(log, who, from, LOCKOUT) <= 9
  {
    FailuresPerLockout(log, start, who, from, 1);
  }

  // ------------------------------------------------------ the bound is reached

  // `n` requests at `t` that are told "not locked" and stay under way.
  function Checks(log: seq<Event>, who: Address, t: int, n: nat): seq<Event> {
    if n == 0 then log else Checks(log, who, t, n - 1) + [Check(who, t)]
  }

  // `n` of them failing at `t`.
  function Fails(log: seq<Event>, who: Address, t: int, n: nat): seq<Event> {
    if n == 0 then log else Fails(log, who, t, n - 1) + [Fail(who, _ => t, t)]
  }

  // `n` sign-ins at `t`, each checked and failed before the next.
  function Attempts(log: seq<Event>, who: Address, t: int, n: nat): seq<Event> {
    if n == 0 then log else Fails(Checks(Attempts(log, who, t, n - 1), who, t, 1), who, t, 1)
  }

  /** Where a log stands: its entry, the requests under way, the failures since 1. */
  datatype Standing = Standing(entry: Option<Entry>, under: nat, failures: nat)

  ghost predicate Stands(log: seq<Event>, who: Address, k: nat, t: int, st: Standing) {
    && Orderly(log, 0) && Latest(log, 0) <= t && Guarded(log, who, LOCKOUT, k)
    && Outstanding(log, who, LOCKOUT) == st.under
    && Remembered(log, who, LOCKOUT) == st.entry
    && FailuresWithin(log, who, 1, LOCKOUT) == st.failures
  }

  // The entry after a failure at `t`.
  function Raised(e: Option<Entry>, t: int): Entry {
    if e.Some? && Live(e.value, t, LOCKOUT) then Entry(e.value.failures + 1, e.value.since) else Entry(1, t)
  }

  predicate Unlocked(e: Option<Entry>, t: int) {
    e.None? || !Live(e.value, t, LOCKOUT) || e.value.failures < MAX_ATTEMPTS
  }

  lemma CheckStands(log: seq<Event>, who: Address, k: nat, t: int, st: Standing)
    requires Stands(log, who, k, t, st) && Unlocked(st.entry, t) && st.under < k
    ensures Stands(log + [Check(who, t)], who, k, t, st.(under := st.under + 1))
  {
    var one := log + [Check(who, t)];
    assert one[..|one| - 1] == log && one[|one| - 1] == Check(who, t);
    assert !LogLocks(log, who, t, LOCKOUT);
    assert Orderly(one, 0) && Latest(one, 0) == t;
    assert Outstanding(one, who, LOCKOUT) == st.under + 1;
    assert Guarded(one, who, LOCKOUT, k);
  }

  lemma FailStands(log: seq<Event>, who: Address, k: nat, t: int, st: Standing, fail: Event)
    requires Stands(log, who, k, t, st) && st.under > 0
    requires fail.Fail? && fail.who == who && fail.stamp == t && forall a: Address :: fail.clock(a) == t
    ensures Stands(log + [fail], who, k, t, Standing(Some(Raised(st.entry, t)), st.under - 1,
                                                     st.failures + if 1 <= t <= LOCKOUT then 1 else 0))
  {
    var two := log + [fail];
    assert two[..|two| - 1] == log && two[|two| - 1] == fail;
    assert Timely(fail, Latest(log, 0));
    assert Orderly(two, 0) && Latest(two, 0) == t;
    assert Outstanding(two, who, LOCKOUT) == st.under - 1;
    assert Guarded(two, who, LOCKOUT, k);
  }

  lemma {:induction false} ChecksStand(log: seq<Event>, who: Address, k: nat, t: int, st: Standing, n: nat)
    requires Stands(log, who, k, t, st) && Unlocked(st.entry, t) && st.under + n <= k
    ensures Stands(Checks(log, who, t, n), who, k, t, st.(under := st.under + n))
  {
    if n > 0 {
      ChecksStand(log, who, k, t, st, n - 1);
      CheckStands(Checks(log, who, t, n - 1), who, k, t, st.(under := st.under + n - 1));
    }
  }

  function FailedBy(st: Standing, n: nat): Standing
    requires st.entry.Some? && n <= st.under
  {
    Standing(Some(Entry(st.entry.value.failures + n, st.entry.value.since)), st.under - n, st.failures + n)
  }

  lemma {:induction false} FailsStand(log: seq<Event>, who: Address, k: nat, t: int, st: Standing, n: nat)
    requires Stands(log, who, k, t, st) && n <= st.under && 1 <= t <= LOCKOUT
    requires st.entry.Some? && Live(st.entry.value, t, LOCKOUT)
    ensures Stands(Fails(log, who, t, n), who, k, t, FailedBy(st, n))
  {
    if n > 0 {
      FailsStand(log, who, k, t, st, n - 1);
      var before := Fails(log, who, t, n - 1);
      FailStands(before, who, k, t, FailedBy(st, n - 1), Fails(log, who, t, n)[|before|]);
    }
  }

  // The failure that opens a window.
  lemma FirstStands(log: seq<Event>, who: Address, k: nat, t: int, st: Standing)
    requires Stands(log, who, k, t, st) && st.under == 0 && k >= 1
    requires st.entry.None? || !Live(st.entry.value, t, LOCKOUT)
    ensures Stands(Attempts(log, who, t, 1), who, k, t,
                   Standing(Some(Entry(1, t)), 0, st.failures + if 1 <= t <= LOCKOUT then 1 else 0))
  {
    var one := Checks(log, who, t, 1);
    ChecksStand(log, who, k, t, st, 1);
    assert Attempts(log, who, t, 0) == log && Fails(one, who, t, 0) == one;
    FailStands(one, who, k, t, st.(under := 1), Fails(one, who, t, 1)[|one|]);
  }

  lemma {:induction false} AttemptsStand(log: seq<Event>, who: Address, k: nat, t: int, e: Entry, failures: nat, n: nat)
    requires Stands(log, who, k, t, Standing(Some(e), 0, failures)) && k >= 1
    requires Live(e, t, LOCKOUT) && e.failures + n <= MAX_ATTEMPTS && 1 <= t <= LOCKOUT
    ensures Stands(Attempts(log, who, t, n), who, k, t, Standing(Some(Entry(e.failures + n, e.since)), 0, failures + n))
  {
    if n > 0 {
      var before := Attempts(log, who, t, n - 1);
      var st := Standing(Some(Entry(e.failures + n - 1, e.since)), 0, failures + n - 1);
      AttemptsStand(log, who, k, t, e, failures, n - 1);
      ChecksStand(before, who, k, t, st, 1);
      FailsStand(Checks(before, who, t, 1), who, k, t, st.(under := 1), 1);
    }
  }

  // Fills a window that one failure opened: three sign-ins in turn, then `k` at once.
  function Filled(log: seq<Event>, who: Address, k: nat, t: int): seq<Event> {
    Fails(Checks(Attempts(log, who, t, 3), who, t, k), who, t, k)
  }

  lemma FilledStands(log: seq<Event>, who: Address, k: nat, t: int, since: int, failures: nat)
    requires Stands(log, who, k, t, Standing(Some(Entry(1, since)), 0, failures)) && k >= 1
    requires Live(Entry(1, since), t, LOCKOUT) && 1 <= t <= LOCKOUT
    ensures Stands(Filled(log, who, k, t), who, k, t, Standing(Some(Entry(4 + k, since)), 0, failures + 3 + k))
  {
    var three, st := Attempts(log, who, t, 3), Standing(Some(Entry(4, since)), 0, failures + 3);
    AttemptsStand(log, who, k, t, Entry(1, since), failures, 3);
    ChecksStand(three, who, k, t, st, k);
    FailsStand(Checks(three, who, t, k), who, k, t, st.(under := k), k);
  }

  /** The bound is exact for every `k`: a window opened at 0 and filled in its last
    * second, and the next one opened and filled in the second after. */
  lemma BoundIsReached(who: Address, k: nat)
    requires k >= 1
    ensures exists log :: Orderly(log, 0) && Guarded(log, who, LOCKOUT, k)
                       && FailuresWithin(log, who, 1, LOCKOUT) == 7 + 2 * k
  {
    assert Stands([], who, k, 0, Standing(None, 0, 0));
    FirstStands([], who, k, 0, Standing(None, 0, 0));
    var first := Attempts([], who, 0, 1);
    assert Stands(first, who, k, 899, Standing(Some(Entry(1, 0)), 0, 0));
    FilledStands(first, who, k, 899, 0, 0);
    var full := Filled(first, who, k, 899);
    assert Stands(full, who, k, 900, Standing(Some(Entry(4 + k, 0)), 0, 3 + k));
    FirstStands(full, who, k, 900, Standing(Some(Entry(4 + k, 0)), 0, 3 + k));
    var next := Attempts(full, who, 900, 1);
    FilledStands(next, who, k, 900, 900, 4 + k);
    assert Stands(Filled(next, who, k, 900), who, k, 900, Standing(Some(Entry(4 + k, 900)), 0, 7 + 2 * k));
  }

  /** Nine, then, is reached by requests that come one at a time. */
  lemma NineIsReached(who: Address)
    ensures exists log :: Orderly(log, 0) && Guarded(log, who, LOCKOUT, 1) && FailuresWithin(log, who, 1, LOCKOUT) == 9
  {
    BoundIsReached(who, 1);
  }

  // A run in which more than nine failures fall into one lockout.
  ghost predicate Overruns(log: seq<Event>, start: int, who: Address, from: int, k: nat) {
    Orderly(log, start) && Guarded(log, who, LOCKOUT, k) && FailuresWithin(log, who, from, LOCKOUT) > 9
  }

  /** Nine failures per lockout is the rule exactly while no two requests of an address
    * are between their check and their outcome at once. */
  lemma NineExactlyWhenOneAtATime(who: Address, k: nat)
    ensures (forall log, start, from :: !Overruns(log, start, who, from, k)) <==> k <= 1
  {
    if k <= 1 {
      forall log, start, from ensures !Overruns(log, start, who, from, k) {
        if Overruns(log, start, who, from, k) {
          FailuresPerLockout(log, start, who, from, k);
        }
      }
    } else {
      BoundIsReached(who, k);
      var log :| Orderly(log, 0) && Guarded(log, who, LOCKOUT, k) && FailuresWithin(log, who, 1, LOCKOUT) == 7 + 2 * k;
      assert Overruns(log, 0, who, 1, k);
    }
  }
}
