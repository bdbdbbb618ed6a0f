/**
 * Expiry dates of nodes that kept reporting (server/src/main.rs): the date is
 * rolled forward by whole billing cycles, month ends clamped on the way.
 */
module Expiry {
  import opened Options

  // The last year a `NaiveDate` can hold.
  const MAX_YEAR := 262142

  datatype Date = Date(year: int, month: int, day: int)

  predicate Leap(year: int) {
    year % 4 == 0 && (year % 100 != 0 || year % 400 == 0)
  }

  function DaysIn(year: int, month: int): int
    requires 1 <= month <= 12
  {
    if month == 2 then (if Leap(year) then 29 else 28)
    else if month == 4 || month == 6 || month == 9 || month == 11 then 30
    else 31
  }

  predicate Valid(d: Date) {
    d.year <= MAX_YEAR && 1 <= d.month <= 12 && 1 <= d.day <= DaysIn(d.year, d.month)
  }

  predicate Before(a: Date, b: Date) {
    a.year < b.year || (a.year == b.year && (a.month < b.month || (a.month == b.month && a.day < b.day)))
  }

  function MonthIndex(d: Date): int {
    d.year * 12 + d.month - 1
  }

  function DaysAt(index: int): int {
    DaysIn(index / 12, index % 12 + 1)
  }

  // `NaiveDate::checked_add_months`.
  function AddMonths(d: Date, months: nat): (r: Option<Date>)
    requires Valid(d)
    ensures r.None? <==> MonthIndex(d) + months >= 12 * (MAX_YEAR + 1)
    ensures r.Some? ==>
      && Valid(r.value) && MonthIndex(r.value) == MonthIndex(d) + months
      && r.value.day == (if d.day <= DaysAt(MonthIndex(r.value)) then d.day else DaysAt(MonthIndex(r.value)))
  {
    var index := MonthIndex(d) + months;
    var year, month := index / 12, index % 12 + 1;
    if year > MAX_YEAR then None
    else Some(Date(year, month, if d.day <= DaysIn(year, month) then d.day else DaysIn(year, month)))
  }

  function CycleMonths(cycle: string): (months: Option<nat>)
    ensures months.Some? ==> months.value > 0
  {
    match cycle
    case "monthly" => Some(1)
    case "quarterly" => Some(3)
    case "semiannual" => Some(6)
    case "yearly" => Some(12)
    case "biennial" => Some(24)
    case "triennial" => Some(36)
    case _ => None
  }

  /** How long the billing cycles are. */
  lemma CyclesByName()
    ensures CycleMonths("monthly") == Some(1) && CycleMonths("yearly") == Some(12)
    ensures CycleMonths("quarterly") == Some(12 / 4) && CycleMonths("semiannual") == Some(12 / 2)
    ensures CycleMonths("biennial") == Some(2 * 12) && CycleMonths("triennial") == Some(3 * 12)
  {
    assert "biennial"[0] != "triennial"[0];
  }

  /** The date after `k` cycles, each added to the clamped result of the last. */
  function Rolled(d: Date, months: nat, k: nat): (r: Option<Date>)
    requires Valid(d)
    ensures r.Some? ==> Valid(r.value)
  {
    if k == 0 then Some(d)
    else match Rolled(d, months, k - 1)
      case None => None
      case Some(p) => AddMonths(p, months)
  }

  lemma LaterMonthIsLater(a: Date, b: Date)
    requires Valid(a) && Valid(b) && MonthIndex(a) < MonthIndex(b)
    ensures Before(a, b)
  {
  }

  lemma BeforeMeansNoLaterMonth(a: Date, b: Date)
    requires Valid(a) && Valid(b) && Before(a, b)
    ensures MonthIndex(a) <= MonthIndex(b)
  {
  }

  lemma NotBeforeMeansNoEarlierMonth(a: Date, b: Date)
    requires Valid(a) && Valid(b) && !Before(a, b)
    ensures MonthIndex(a) >= MonthIndex(b)
  {
  }

  /** The day left of `d` after `k` cycles: its own, cut down to the shortest month met. */
  function CutDay(d: Date, months: nat, k: nat): int {
    if k == 0 then d.day
    else
      var day, last := CutDay(d, months, k - 1), DaysAt(MonthIndex(d) + k * months);
      if day <= last then day else last
  }

  lemma {:induction false} CutDayIsTheShortest(d: Date, months: nat, k: nat)
    ensures var day := CutDay(d, months, k);
            && day <= d.day
            && (forall j :: 1 <= j <= k ==> day <= DaysAt(MonthIndex(d) + j * months))
            && (day == d.day || exists j :: 1 <= j <= k && day == DaysAt(MonthIndex(d) + j * months))
  {
    if k > 0 {
      CutDayIsTheShortest(d, months, k - 1);
    }
  }

  lemma {:induction false} RolledCut(d: Date, months: nat, k: nat)
    requires Valid(d)
    ensures Rolled(d, months, k).Some? <==> k == 0 || MonthIndex(d) + k * months < 12 * (MAX_YEAR + 1)
    ensures Rolled(d, months, k).Some? ==>
      var r := Rolled(d, months, k).value;
      MonthIndex(r) == MonthIndex(d) + k * months && r.day == CutDay(d, months, k)
  {
    if k > 0 {
      RolledCut(d, months, k - 1);
      assert k * months == (k - 1) * months + months;
    }
  }

  /** After `k` cycles: `k` cycle lengths of months later, on the original day cut
    * down to the shortest month met on the way. */
  lemma RolledExactly(d: Date, months: nat, k: nat)
    requires Valid(d)
    ensures Rolled(d, months, k).Some? <==> k == 0 || MonthIndex(d) + k * months < 12 * (MAX_YEAR + 1)
    ensures Rolled(d, months, k).Some? ==>
      var r := Rolled(d, months, k).value;
      && MonthIndex(r) == MonthIndex(d) + k * months
      && r.day == CutDay(d, months, k) && r.day <= d.day
      && (forall j :: 1 <= j <= k ==> r.day <= DaysAt(MonthIndex(d) + j * months))
      && (r.day == d.day || exists j :: 1 <= j <= k && r.day == DaysAt(MonthIndex(d) + j * months))
  {
    RolledCut(d, months, k);
    CutDayIsTheShortest(d, months, k);
  }

  lemma SameDate(a: Date, b: Date)
    requires Valid(a) && Valid(b) && MonthIndex(a) == MonthIndex(b) && a.day == b.day
    ensures a == b
  {
  }

  /** `t` lies a whole number of cycles on, on the day cut down by then. */
  predicate Hits(d: Date, months: nat, t: Date, j: nat) {
    MonthIndex(t) == MonthIndex(d) + j * months && t.day == CutDay(d, months, j)
  }

  /** Which dates are iterates. */
  lemma IteratesExactly(d: Date, months: nat, t: Date, j: nat)
    requires Valid(d) && Valid(t)
    ensures Rolled(d, months, j) == Some(t) <==> Hits(d, months, t, j)
  {
    RolledCut(d, months, j);
    if Hits(d, months, t, j) {
      SameDate(Rolled(d, months, j).value, t);
    }
  }

  lemma {:induction false} RolledIncreases(d: Date, months: nat, j: nat, k: nat)
    requires Valid(d) && months > 0 && j < k && Rolled(d, months, k).Some?
    ensures Rolled(d, months, j).Some?
    ensures MonthIndex(Rolled(d, months, j).value) < MonthIndex(Rolled(d, months, k).value)
    ensures Before(Rolled(d, months, j).value, Rolled(d, months, k).value)
  {
    if j < k - 1 {
      RolledIncreases(d, months, j, k - 1);
    }
    LaterMonthIsLater(Rolled(d, months, j).value, Rolled(d, months, k).value);
  }

  /** `r` is the first date not before `today`, or there is none a date can hold. */
  predicate FirstNotBefore(d: Date, months: nat, today: Date, k: nat, r: Option<Date>)
    requires Valid(d)
  {
    && Rolled(d, months, k) == r
    && (r.Some? ==> !Before(r.value, today))
    && (forall j :: 0 <= j < k ==> Rolled(d, months, j).Some? && Before(Rolled(d, months, j).value, today))
  }

  // The loop has come to `next` after `k` cycles.
  predicate Comes(d: Date, months: nat, today: Date, k: nat, next: Date)
    requires Valid(d)
  {
    && Valid(next) && Rolled(d, months, k) == Some(next)
    && (forall j :: 0 <= j < k ==> Rolled(d, months, j).Some? && Before(Rolled(d, months, j).value, today))
  }

  lemma OneCycleOn(d: Date, months: nat, today: Date, k: nat, next: Date)
    requires Valid(d) && Comes(d, months, today, k, next) && Before(next, today)
    ensures AddMonths(next, months).None? ==> FirstNotBefore(d, months, today, k + 1, None)
    ensures AddMonths(next, months).Some? ==> Comes(d, months, today, k + 1, AddMonths(next, months).value)
  {
  }

  method Renewed(expires: Date, cycle: string, today: Date) returns (r: Option<Date>)
    requires Valid(expires) && Valid(today)
    ensures CycleMonths(cycle).None? || !Before(expires, today) ==> r.None?
    ensures CycleMonths(cycle).Some? && Before(expires, today) ==>
      exists k: nat :: k > 0 && FirstNotBefore(expires, CycleMonths(cycle).value, today, k, r)
  {
    var length := CycleMonths(cycle);
    if length.None? {
      return None;
    }
    var months := length.value;
    assert months > 0;
    var next := expires;
    ghost var k: nat := 0;
    while Before(next, today)
      invariant Comes(expires, months, today, k, next)
      decreases MonthIndex(today) + 1 - MonthIndex(next)
    {
      BeforeMeansNoLaterMonth(next, today);
      OneCycleOn(expires, months, today, k, next);
      var step := AddMonths(next, months);
      k := k + 1;
      if step.None? {
        assert FirstNotBefore(expires, months, today, k, None);
        return None;
      }
      next := step.value;
    }
    if k > 0 {
      RolledIncreases(expires, months, 0, k);
      assert FirstNotBefore(expires, months, today, k, Some(next));
    }
    r := if next != expires then Some(next) else None;
  }

  /** There is one such answer, so the method's contract leaves no choice. */
  lemma FirstIsUnique(d: Date, months: nat, today: Date, k: nat, l: nat, r: Option<Date>, q: Option<Date>)
    requires Valid(d) && FirstNotBefore(d, months, today, k, r) && FirstNotBefore(d, months, today, l, q)
    ensures k == l && r == q
  {
  }

  /** The date is rolled up to today and not past it: the answer is today exactly when today
    * lies a whole number of cycles on, on the original day cut down to the shortest month
    * met on the way. */
  lemma TodayExactlyWhenReached(d: Date, months: nat, today: Date, k: nat, r: Option<Date>)
    requires Valid(d) && Valid(today) && months > 0 && FirstNotBefore(d, months, today, k, r)
    ensures r == Some(today) <==> exists j: nat :: Hits(d, months, today, j)
  {
    if r == Some(today) {
      IteratesExactly(d, months, today, k);
    }
    if j: nat :| Hits(d, months, today, j) {
      IteratesExactly(d, months, today, j);
      if k < j {
        RolledIncreases(d, months, k, j);
      }
    }
  }

  /** What a renewal is: the last date of the cycle reached before today, plus one
    * cycle; a positive whole number of cycles on, and never on a later day. */
  lemma RenewalIsWholeCycles(d: Date, months: nat, today: Date, k: nat, r: Option<Date>)
    requires Valid(d) && Valid(today) && months > 0 && k > 0 && FirstNotBefore(d, months, today, k, r)
    ensures r.Some? ==>
      && MonthIndex(r.value) == MonthIndex(d) + k * months
      && r.value.day <= d.day && Before(d, r.value)
      && MonthIndex(r.value) - months <= MonthIndex(today) <= MonthIndex(r.value)
    ensures r.None? ==> MonthIndex(d) + k * months >= 12 * (MAX_YEAR + 1)
    ensures r.None? ==> MonthIndex(today) + months >= 12 * (MAX_YEAR + 1)
  {
    RolledExactly(d, months, k);
    RolledExactly(d, months, k - 1);
    assert k * months == (k - 1) * months + months;
    assert Rolled(d, months, k - 1).Some?;
    BeforeMeansNoLaterMonth(Rolled(d, months, k - 1).value, today);
    if r.Some? {
      RolledIncreases(d, months, 0, k);
      NotBeforeMeansNoEarlierMonth(r.value, today);
    }
  }
}
