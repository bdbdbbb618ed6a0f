/**
 * What one connected session makes of its reports (server/src/agent_ws.rs): the
 * running means of the minute in progress, one history row per minute, and rates
 * measured between rows.
 */
module Reports {
  import opened Options

  // ---- the clock ----

  function MinuteOf(now: int): int {
    now / 60
  }

  /** A history row is written by the first report past the minute already accounted for. */
  predicate Due(lastMinute: int, now: int) {
    lastMinute != MinuteOf(now)
  }

  const SECOND: int := 1_000_000_000

  /** Whole seconds between two monotonic readings, at least one. */
  function Elapsed(since: nat, tick: nat): (seconds: int)
    ensures seconds >= 1
    ensures tick >= since + SECOND ==> seconds * SECOND <= tick - since < (seconds + 1) * SECOND
    ensures tick < since + SECOND ==> seconds == 1
  {
    var whole := if tick > since then (tick - since) / SECOND else 0;
    if whole < 1 then 1 else whole
  }

  // ---- a report ----

  datatype Value = Number(r: real) | Null | Text(s: string) | List(items: seq<Option<real>>)

  /** A report's JSON object. */
  type Metrics = map<string, Value>

  const MEAN_KEYS: seq<string> := [
    "cpu",
    "mem_used", "swap_used", "disk_used", "tcp", "udp", "procs",
    "zram_used", "swap_disk_used", "swapfile_used", "swap_partition_used"
  ]

  const OPTIONAL: seq<string> := [
    "zram_used", "zram_total", "zram_devices",
    "swap_disk_used", "swap_disk_total", "swapfile_used", "swap_partition_used"
  ]

  const NUMERIC: seq<string> := [
    "net_rx_total", "net_tx_total",
    "zram_used", "zram_total", "swap_disk_used", "swap_disk_total", "swapfile_used",
    "swap_partition_used", "zram_devices", "uptime", "cpu", "mem_total", "mem_used",
    "swap_total", "swap_used", "disk_total", "disk_used", "net_rx", "net_tx", "tcp", "udp", "procs"
  ]

  predicate Sound(v: Value) {
    v.Number? && v.r >= 0.0
  }

  /** Missing fields are compatible with older agents; malformed ones are refused. */
  predicate Acceptable(m: Metrics) {
    && (forall key :: key in NUMERIC && key in m ==> Sound(m[key]) || (m[key].Null? && key in OPTIONAL))
    && ("load" in m ==>
          && m["load"].List? && |m["load"].items| == 3
          && forall i :: 0 <= i < 3 ==> m["load"].items[i].Some? && m["load"].items[i].value >= 0.0)
  }

  /** The hub's accumulated figures, folded into the live payload. */
  datatype Traffic = Traffic(totalRx: int, totalTx: int, monthRx: int, monthTx: int)

  function Live(m: Metrics, t: Traffic): Metrics {
    m["total_rx" := Number(t.totalRx as real)]["total_tx" := Number(t.totalTx as real)][
      "month_rx" := Number(t.monthRx as real)]["month_tx" := Number(t.monthTx as real)]
  }

  const RATES: set<string> := {"net_rx", "net_tx"}

  const FIGURES: set<string> := {"total_rx", "total_tx", "month_rx", "month_tx"}

  /** A report's fields with the four accumulated figures among them, and nothing else changed. */
  predicate FoldedIn(out: Metrics, m: Metrics, t: Traffic) {
    && out.Keys == m.Keys + FIGURES
    && out["total_rx"] == Number(t.totalRx as real) && out["total_tx"] == Number(t.totalTx as real)
    && out["month_rx"] == Number(t.monthRx as real) && out["month_tx"] == Number(t.monthTx as real)
    && forall key :: key in m && key !in FIGURES ==> out[key] == m[key]
  }

  lemma FiguresApart(a: string, b: string, c: string, d: string)
    requires a == "total_rx" && b == "total_tx" && c == "month_rx" && d == "month_tx"
    ensures a != b && a != c && a != d && b != c && b != d && c != d
  {
    assert a[6] != b[6] && c[6] != d[6] && a[0] == b[0] && c[0] == d[0] && a[0] != c[0];
  }

  /** The live payload is the report with the four figures the database answered. */
  lemma LiveIsTheReportAndItsFigures(m: Metrics, t: Traffic)
    ensures FoldedIn(Live(m, t), m, t)
  {
    FiguresApart("total_rx", "total_tx", "month_rx", "month_tx");
  }

  // ---- means ----

  predicate Carries(m: Metrics, key: string) {
    key in m && m[key].Number?
  }

  function Sum(batch: seq<Metrics>, key: string): real {
    if batch == [] then 0.0
    else
      var m := batch[|batch| - 1];
      Sum(batch[..|batch| - 1], key) + if Carries(m, key) then m[key].r else 0.0
  }

  function Count(batch: seq<Metrics>, key: string): nat {
    if batch == [] then 0
    else Count(batch[..|batch| - 1], key) + if Carries(batch[|batch| - 1], key) then 1 else 0
  }

  const MAX_I64: int := 0x7fff_ffff_ffff_ffff
  const MIN_I64: int := -0x8000_0000_0000_0000

  /** Half away from zero. */
  function Round(x: real): int {
    if x >= 0.0 then (x + 0.5).Floor else -((-x + 0.5).Floor)
  }

  /** A cast to i64 saturates. */
  function Clamp(n: int): int {
    if n > MAX_I64 then MAX_I64 else if n < MIN_I64 then MIN_I64 else n
  }

  /** What a field of the row becomes: `cpu` keeps its fraction, the rest stay integral. */
  function Mean(batch: seq<Metrics>, key: string): Value
    requires Count(batch, key) > 0
  {
    var mean := Sum(batch, key) / Count(batch, key) as real;
    if key == "cpu" then Number(mean) else Number(Clamp(Round(mean)) as real)
  }

  function Averaged(batch: seq<Metrics>, row: Metrics): Metrics {
    map key | key in row ::
      if key in MEAN_KEYS && Count(batch, key) > 0 then Mean(batch, key) else row[key]
  }

  /** An averaged field is within one half of the true mean of the reports that carried it,
    * or the nearest i64 when the mean lies outside that range. */
  lemma MeanWithinHalf(batch: seq<Metrics>, row: Metrics, key: string)
    requires key in row && key in MEAN_KEYS && Count(batch, key) > 0
    ensures Averaged(batch, row)[key].Number?
    ensures var exact := Sum(batch, key) / Count(batch, key) as real;
            var kept := Averaged(batch, row)[key].r;
            if key == "cpu" then kept == exact
            else
              && kept == kept.Floor as real && MIN_I64 as real <= kept <= MAX_I64 as real
              && (exact > MAX_I64 as real ==> kept == MAX_I64 as real)
              && (exact < MIN_I64 as real ==> kept == MIN_I64 as real)
              && (MIN_I64 as real <= exact <= MAX_I64 as real ==> exact - 0.5 <= kept <= exact + 0.5)
  {
    var exact := Sum(batch, key) / Count(batch, key) as real;
    assert exact - 0.5 <= Round(exact) as real <= exact + 0.5;
    if exact <= MAX_I64 as real {
      assert Round(exact) < MAX_I64 + 1;
    } else {
      assert Round(exact) > MAX_I64 - 1;
    }
    if exact >= MIN_I64 as real {
      assert Round(exact) > MIN_I64 - 1;
    } else {
      assert Round(exact) < MIN_I64 + 1;
    }
  }

  // A row with the first `slot` averaged fields replaced.
  ghost predicate AveragedUpTo(out: Metrics, row: Metrics, batch: seq<Metrics>, slot: nat)
    requires slot <= |MEAN_KEYS|
  {
    && out.Keys == row.Keys
    && forall key :: key in row ==>
         out[key] == if key in MEAN_KEYS[..slot] && Count(batch, key) > 0 then Mean(batch, key) else row[key]
  }

  lemma AverageSlot(out: Metrics, row: Metrics, batch: seq<Metrics>, slot: nat)
    requires slot < |MEAN_KEYS| && AveragedUpTo(out, row, batch, slot)
    ensures var key := MEAN_KEYS[slot];
            var next := if key in out && Count(batch, key) > 0 then out[key := Mean(batch, key)] else out;
            AveragedUpTo(next, row, batch, slot + 1)
  {
    assert MEAN_KEYS[..slot + 1] == MEAN_KEYS[..slot] + [MEAN_KEYS[slot]];
  }

  // Only the first averaged field keeps its fraction.
  lemma MeanOfSlot(batch: seq<Metrics>, slot: nat)
    requires slot < |MEAN_KEYS| && Count(batch, MEAN_KEYS[slot]) > 0
    ensures var mean := Sum(batch, MEAN_KEYS[slot]) / Count(batch, MEAN_KEYS[slot]) as real;
            Mean(batch, MEAN_KEYS[slot]) == if slot < 1 then Number(mean) else Number(Clamp(Round(mean)) as real)
  {
    assert MEAN_KEYS[0] == "cpu";
    assert slot > 0 ==> MEAN_KEYS[slot][0] != 'c';
  }

  /** What the reports since the last row add up to, field by field; `batch` is those reports. */
  class Minute {
    var sums: array<real>
    var counts: array<int>
    var reports: int
    ghost var batch: seq<Metrics>

    ghost predicate Valid()
      reads this, sums, counts
    {
      && sums.Length == |MEAN_KEYS| && counts.Length == |MEAN_KEYS|
      && (forall slot :: 0 <= slot < |MEAN_KEYS| ==> sums[slot] == Sum(batch, MEAN_KEYS[slot]))
      && (forall slot :: 0 <= slot < |MEAN_KEYS| ==> counts[slot] == Count(batch, MEAN_KEYS[slot]))
      && reports == |batch|
    }

    constructor ()
      ensures Valid() && fresh(sums) && fresh(counts) && batch == []
    {
      sums := new real[|MEAN_KEYS|](_ => 0.0);
      counts := new int[|MEAN_KEYS|](_ => 0);
      reports := 0;
      batch := [];
    }

    method Add(metrics: Metrics)
      requires Valid()
      modifies this`reports, this`batch, sums, counts
      ensures Valid() && batch == old(batch) + [metrics]
    {
      ghost var before := batch;
      assert (before + [metrics])[..|before|] == before;
      for slot := 0 to |MEAN_KEYS|
        invariant batch == before && reports == |before|
        invariant forall s :: 0 <= s < slot ==>
                    sums[s] == Sum(before + [metrics], MEAN_KEYS[s])
                    && counts[s] == Count(before + [metrics], MEAN_KEYS[s])
        invariant forall s :: slot <= s < |MEAN_KEYS| ==>
                    sums[s] == Sum(before, MEAN_KEYS[s]) && counts[s] == Count(before, MEAN_KEYS[s])
      {
        var key := MEAN_KEYS[slot];
        if key in metrics && metrics[key].Number? {
          sums[slot] := sums[slot] + metrics[key].r;
          counts[slot] := counts[slot] + 1;
        }
      }
      reports := reports + 1;
      batch := batch + [metrics];
    }

    /** Puts the means of the reports added so far into the row's averaged fields. */
    method WriteInto(row: Metrics) returns (out: Metrics)
      requires Valid()
      ensures out == Averaged(batch, row)
    {
      out := row;
      if reports == 0 {
        return;
      }
      for slot := 0 to |MEAN_KEYS|
        invariant AveragedUpTo(out, row, batch, slot)
      {
        var key := MEAN_KEYS[slot];
        AverageSlot(out, row, batch, slot);
        if key in out && counts[slot] != 0 {
          MeanOfSlot(batch, slot);
          var mean := sums[slot] / counts[slot] as real;
          out := out[key := if slot < 1 then Number(mean) else Number(Clamp(Round(mean)) as real)];
        }
      }
      assert MEAN_KEYS[..|MEAN_KEYS|] == MEAN_KEYS;
    }
  }

  // ---- the session's report state ----

  /** A reading of the monotonic clock and the lifetime totals at that instant. */
  datatype Mark = Mark(tick: nat, rx: int, tx: int)

  /** The report state as a value; `batch` is the minute in progress. */
  datatype View = View(lastSeen: int, lastMinute: int, mark: Option<Mark>, batch: seq<Metrics>)

  /** One accepted report: the two clocks, the accumulated traffic, and its figures. */
  datatype Input = Input(now: int, tick: nat, traffic: Traffic, metrics: Metrics)

  datatype Row = Row(stamp: int, fields: Metrics)

  function Opened(now: int): View {
    View(0, MinuteOf(now), None, [])
  }

  function MarkAt(i: Input): Mark {
    Mark(i.tick, i.traffic.totalRx, i.traffic.totalTx)
  }

  function Rate(before: int, after: int, seconds: int): (rate: int)
    requires seconds >= 1
    ensures after <= before ==> rate == 0
    ensures after > before ==> 0 <= rate && rate * seconds <= after - before <= rate * seconds + seconds - 1
  {
    (if after > before then after - before else 0) / seconds
  }

  function Rated(mark: Option<Mark>, i: Input, row: Metrics): Metrics {
    if mark.None? then row
    else
      var seconds := Elapsed(mark.value.tick, i.tick);
      row["net_rx" := Number(Rate(mark.value.rx, i.traffic.totalRx, seconds) as real)][
          "net_tx" := Number(Rate(mark.value.tx, i.traffic.totalTx, seconds) as real)]
  }

  function After(v: View, i: Input): View {
    if Due(v.lastMinute, i.now) then View(i.now, MinuteOf(i.now), Some(MarkAt(i)), [])
    else View(i.now, v.lastMinute, if v.mark.None? then Some(MarkAt(i)) else v.mark,
              v.batch + [Live(i.metrics, i.traffic)])
  }

  function RowOf(v: View, i: Input): Option<Row> {
    if !Due(v.lastMinute, i.now) then None
    else
      var live := Live(i.metrics, i.traffic);
      Some(Row(MinuteOf(i.now) * 60, Rated(v.mark, i, Averaged(v.batch + [live], live))))
  }

  lemma NoMeanOfRates(key: string)
    requires key in MEAN_KEYS
    ensures key !in RATES && key !in FIGURES
  {
    assert forall k :: 0 <= k < |MEAN_KEYS| ==> MEAN_KEYS[k][0] != 'n' && MEAN_KEYS[k][1] != 'o';
    SecondLetters("total_rx", "total_tx", "month_rx", "month_tx");
    assert "net_rx"[0] == 'n' && "net_tx"[0] == 'n';
  }

  lemma SecondLetters(a: string, b: string, c: string, d: string)
    requires a == "total_rx" && b == "total_tx" && c == "month_rx" && d == "month_tx"
    ensures a[1] == b[1] == c[1] == d[1] == 'o' && a[0] != 'n' && b[0] != 'n' && c[0] != 'n' && d[0] != 'n'
  {
  }

  lemma FiguresAreNoRates()
    ensures FIGURES !! RATES
  {
    SecondLetters("total_rx", "total_tx", "month_rx", "month_tx");
    assert "net_rx"[0] == 'n' && "net_tx"[0] == 'n';
  }

  /** What a row says beside means and rates: the fields of its report as they were sent, and
    * the four figures the database answered. */
  predicate KeptIn(fields: Metrics, m: Metrics, t: Traffic, changed: set<string>) {
    && fields.Keys == m.Keys + FIGURES + changed
    && fields["total_rx"] == Number(t.totalRx as real) && fields["total_tx"] == Number(t.totalTx as real)
    && fields["month_rx"] == Number(t.monthRx as real) && fields["month_tx"] == Number(t.monthTx as real)
    && forall key :: key in m && key !in FIGURES && key !in changed && key !in MEAN_KEYS ==> fields[key] == m[key]
  }

  /** The first row of a session changes no rate; every later one puts both in. */
  lemma RowKeepsTheRest(v: View, i: Input)
    requires Due(v.lastMinute, i.now)
    ensures KeptIn(RowOf(v, i).value.fields, i.metrics, i.traffic, if v.mark.None? then {} else RATES)
  {
    var live := Live(i.metrics, i.traffic);
    LiveIsTheReportAndItsFigures(i.metrics, i.traffic);
    var averaged := Averaged(v.batch + [live], live);
    forall key | key in live ensures key in FIGURES ==> averaged[key] == live[key] {
      if key in MEAN_KEYS { NoMeanOfRates(key); }
    }
    FiguresAreNoRates();
  }

  class AgentState {
    var metrics: Option<Metrics>
    var lastSeen: int
    var lastMinute: int
    var mark: Option<Mark>
    var minute: Minute

    ghost predicate Valid()
      reads this, minute, minute.sums, minute.counts
    {
      minute.Valid()
    }

    ghost function Contents(): View
      reads this, minute
    {
      View(lastSeen, lastMinute, mark, minute.batch)
    }

    /** Opens on the minute in progress, whose row the replaced session wrote. */
    constructor (now: int)
      ensures Valid() && Contents() == Opened(now)
      ensures fresh(minute) && fresh(minute.sums) && fresh(minute.counts)
    {
      metrics := None;
      lastSeen := 0;
      lastMinute := MinuteOf(now);
      mark := None;
      minute := new Minute();
    }

    // Folding in a report whose counters are stored.
    method Take(now: int, tick: nat, report: Metrics, traffic: Traffic) returns (row: Option<Row>)
      requires Valid()
      modifies this, minute, minute.sums, minute.counts
      ensures Valid() && (fresh(minute) || minute == old(minute))
      ensures fresh(minute) ==> fresh(minute.sums) && fresh(minute.counts)
      ensures minute == old(minute) ==> minute.sums == old(minute.sums) && minute.counts == old(minute.counts)
      ensures var i := Input(now, tick, traffic, report);
              && Contents() == After(old(Contents()), i) && row == RowOf(old(Contents()), i)
              && metrics == Some(Live(report, traffic))
    {
      row := None;
      var live := Live(report, traffic);
      var store := lastMinute != MinuteOf(now);
      metrics := Some(live);
      lastSeen := now;
      minute.Add(live);
      if store {
        var fields := minute.WriteInto(live);
        if mark.Some? {
          var elapsed := Elapsed(mark.value.tick, tick);
          fields := fields["net_rx" := Number(Rate(mark.value.rx, traffic.totalRx, elapsed) as real)][
                           "net_tx" := Number(Rate(mark.value.tx, traffic.totalTx, elapsed) as real)];
        }
        lastMinute := MinuteOf(now);
        mark := Some(Mark(tick, traffic.totalRx, traffic.totalTx));
        minute := new Minute();
        row := Some(Row(MinuteOf(now) * 60, fields));
      }
      if mark.None? {
        mark := Some(Mark(tick, traffic.totalRx, traffic.totalTx));
      }
    }

    /**
     * One report. `accumulated` is what the database answered for its counters, None
     * when that failed; a refused or failed report leaves the state untouched.
     */
    method Report(now: int, tick: nat, report: Option<Metrics>, accumulated: Option<Traffic>)
      returns (accepted: bool, row: Option<Row>)
      requires Valid()
      modifies this, minute, minute.sums, minute.counts
      ensures Valid() && (fresh(minute) || minute == old(minute))
      ensures fresh(minute) ==> fresh(minute.sums) && fresh(minute.counts)
      ensures minute == old(minute) ==> minute.sums == old(minute.sums) && minute.counts == old(minute.counts)
      ensures accepted <==> report.Some? && Acceptable(report.value) && accumulated.Some?
      ensures accepted ==>
                var i := Input(now, tick, accumulated.value, report.value);
                Contents() == After(old(Contents()), i) && row == RowOf(old(Contents()), i)
      ensures accepted ==> lastSeen == now && (row.Some? <==> now / 60 != old(lastMinute))
      ensures accepted ==> metrics.Some? && FoldedIn(metrics.value, report.value, accumulated.value)
      ensures accepted && row.Some? ==>
                KeptIn(row.value.fields, report.value, accumulated.value, if old(mark).None? then {} else RATES)
      ensures !accepted ==> row == None && Contents() == old(Contents()) && metrics == old(metrics)
    {
      row := None;
      accepted := report.Some? && Acceptable(report.value) && accumulated.Some?;
      if !accepted {
        return;
      }
      ghost var before := Contents();
      row := Take(now, tick, report.value, accumulated.value);
      LiveIsTheReportAndItsFigures(report.value, accumulated.value);
      if row.Some? {
        RowKeepsTheRest(before, Input(now, tick, accumulated.value, report.value));
      }
    }
  }

  // ---- whole sessions ----

  function Run(start: View, inputs: seq<Input>): View {
    if inputs == [] then start else After(Run(start, inputs[..|inputs| - 1]), inputs[|inputs| - 1])
  }

  /** The reports each row of a session averages, in order. */
  function Batches(start: View, inputs: seq<Input>): seq<seq<Metrics>> {
    if inputs == [] then []
    else
      var (before, i) := (Run(start, inputs[..|inputs| - 1]), inputs[|inputs| - 1]);
      Batches(start, inputs[..|inputs| - 1])
      + if Due(before.lastMinute, i.now) then [before.batch + [Live(i.metrics, i.traffic)]] else []
  }

  function Concat(batches: seq<seq<Metrics>>): seq<Metrics> {
    if batches == [] then [] else Concat(batches[..|batches| - 1]) + batches[|batches| - 1]
  }

  function Lives(inputs: seq<Input>): seq<Metrics> {
    seq(|inputs|, k requires 0 <= k < |inputs| => Live(inputs[k].metrics, inputs[k].traffic))
  }

  /** The node was last seen at its latest accepted report. */
  lemma SeenAtTheLatestReport(start: View, inputs: seq<Input>)
    requires inputs != []
    ensures Run(start, inputs).lastSeen == inputs[|inputs| - 1].now
  {
    var before := Run(start, inputs[..|inputs| - 1]);
    assert Run(start, inputs) == After(before, inputs[|inputs| - 1]);
  }

  /** Every accepted report falls in exactly one row's interval or in the pending tail. */
  lemma {:induction false} EveryReportCountedOnce(now: int, inputs: seq<Input>)
    ensures Concat(Batches(Opened(now), inputs)) + Run(Opened(now), inputs).batch == Lives(inputs)
  {
    if inputs != [] {
      var init, i := inputs[..|inputs| - 1], inputs[|inputs| - 1];
      EveryReportCountedOnce(now, init);
      var before := Run(Opened(now), init);
      var live := Live(i.metrics, i.traffic);
      var done := Batches(Opened(now), init);
      assert Lives(inputs) == Lives(init) + [live];
      Joined(Concat(done), before.batch, [live]);
      if Due(before.lastMinute, i.now) {
        ConcatAppend(done, before.batch + [live]);
      } else {
        assert done + [] == done;
      }
    }
  }

  lemma Joined(a: seq<Metrics>, b: seq<Metrics>, c: seq<Metrics>)
    ensures a + (b + c) == (a + b) + c
    ensures a + (b + c) + [] == (a + b) + c
  {
  }

  lemma ConcatAppend(batches: seq<seq<Metrics>>, last: seq<Metrics>)
    ensures Concat(batches + [last]) == Concat(batches) + last
  {
    assert (batches + [last])[..|batches|] == batches;
  }

  datatype Way = Rx | Tx

  function Total(t: Traffic, way: Way): int {
    if way.Rx? then t.totalRx else t.totalTx
  }

  function Marked(m: Mark, way: Way): int {
    if way.Rx? then m.rx else m.tx
  }

  /** The rate a stored row carries for one direction. */
  function NetRate(row: Row, way: Way): int {
    var key := if way.Rx? then "net_rx" else "net_tx";
    if Carries(row.fields, key) then row.fields[key].r.Floor else 0
  }

  lemma RowCarriesItsRates(v: View, i: Input, way: Way)
    requires Due(v.lastMinute, i.now) && v.mark.Some?
    ensures NetRate(RowOf(v, i).value, way)
         == Rate(Marked(v.mark.value, way), Total(i.traffic, way), Elapsed(v.mark.value.tick, i.tick))
  {
    assert "net_rx"[4] != "net_tx"[4];
  }

  /** A row is stamped with its minute and carries the means of exactly its own batch. */
  lemma RowDescribesItsBatch(start: View, inputs: seq<Input>, key: string)
    requires inputs != [] && key in MEAN_KEYS
    ensures var i := inputs[|inputs| - 1];
            var row := RowOf(Run(start, inputs[..|inputs| - 1]), i);
            row.Some? ==>
              var batches := Batches(start, inputs);
              && batches != [] && row.value.stamp == MinuteOf(i.now) * 60
              && (key in row.value.fields <==> key in i.metrics)
              && (key in row.value.fields ==>
                    var batch := batches[|batches| - 1];
                    row.value.fields[key] == if Count(batch, key) > 0 then Mean(batch, key) else i.metrics[key])
  {
    NoMeanOfRates(key);
    LiveIsTheReportAndItsFigures(inputs[|inputs| - 1].metrics, inputs[|inputs| - 1].traffic);
  }

  /** Bytes the rows of a session account for: each rate they carry times the interval it covers. */
  function BookedByRows(start: View, inputs: seq<Input>, way: Way): int {
    if inputs == [] then 0
    else
      var (before, i) := (Run(start, inputs[..|inputs| - 1]), inputs[|inputs| - 1]);
      BookedByRows(start, inputs[..|inputs| - 1], way)
      + if Due(before.lastMinute, i.now) && before.mark.Some? then
          NetRate(RowOf(before, i).value, way) * Elapsed(before.mark.value.tick, i.tick)
        else 0
  }

  lemma {:induction false} RowsBook(start: View, inputs: seq<Input>, way: Way)
    ensures BookedByRows(start, inputs, way) == Booked(start, inputs, way)
  {
    if inputs != [] {
      var (before, i) := (Run(start, inputs[..|inputs| - 1]), inputs[|inputs| - 1]);
      RowsBook(start, inputs[..|inputs| - 1], way);
      if Due(before.lastMinute, i.now) && before.mark.Some? {
        RowCarriesItsRates(before, i, way);
      }
    }
  }

  function Booked(start: View, inputs: seq<Input>, way: Way): int {
    if inputs == [] then 0
    else
      var (before, i) := (Run(start, inputs[..|inputs| - 1]), inputs[|inputs| - 1]);
      Booked(start, inputs[..|inputs| - 1], way)
      + if Due(before.lastMinute, i.now) && before.mark.Some? then
          var seconds := Elapsed(before.mark.value.tick, i.tick);
          Rate(Marked(before.mark.value, way), Total(i.traffic, way), seconds) * seconds
        else 0
  }

  /** What whole-number rates may leave out: under one byte per second of each interval. */
  function Slack(start: View, inputs: seq<Input>): int {
    if inputs == [] then 0
    else
      var (before, i) := (Run(start, inputs[..|inputs| - 1]), inputs[|inputs| - 1]);
      Slack(start, inputs[..|inputs| - 1])
      + if Due(before.lastMinute, i.now) && before.mark.Some?
        then Elapsed(before.mark.value.tick, i.tick) - 1 else 0
  }

  /** The report the last rate was measured up to: the last row's, or the first of the session. */
  function LastMark(start: View, inputs: seq<Input>): nat
    requires inputs != []
    ensures LastMark(start, inputs) < |inputs|
  {
    if |inputs| == 1 || Due(Run(start, inputs[..|inputs| - 1]).lastMinute, inputs[|inputs| - 1].now)
    then |inputs| - 1
    else LastMark(start, inputs[..|inputs| - 1])
  }

  predicate TotalsNeverFall(inputs: seq<Input>, way: Way) {
    forall j, k :: 0 <= j <= k < |inputs| ==> Total(inputs[j].traffic, way) <= Total(inputs[k].traffic, way)
  }

  /**
   * Conservation. Between the first report of a session and the last row's, the rates the
   * rows carry integrate to the bytes the lifetime total climbed, less under one byte per
   * second.
   */
  lemma RowsIntegrateToTotals(now: int, inputs: seq<Input>, way: Way)
    requires inputs != [] && TotalsNeverFall(inputs, way)
    ensures var climbed :=
              Total(inputs[LastMark(Opened(now), inputs)].traffic, way) - Total(inputs[0].traffic, way);
            0 <= climbed - BookedByRows(Opened(now), inputs, way) <= Slack(Opened(now), inputs)
  {
    RowsBook(Opened(now), inputs, way);
    RatesIntegrateToTotals(now, inputs, way);
  }

  // The first report of a session sets the mark and books nothing.
  lemma FirstReportBooksNothing(start: View, inputs: seq<Input>, way: Way)
    requires |inputs| == 1 && start.mark.None?
    ensures LastMark(start, inputs) == 0 && Run(start, inputs).mark == Some(MarkAt(inputs[0]))
    ensures Booked(start, inputs, way) == 0 && Slack(start, inputs) == 0
  {
    var none := inputs[..0];
    assert none == [] && Run(start, none) == start;
    assert Booked(start, none, way) == 0 && Slack(start, none) == 0;
  }

  // A further report that is not due moves nothing.
  lemma ReportWithinItsMinute(start: View, inputs: seq<Input>, way: Way)
    requires |inputs| > 1
    requires var init := inputs[..|inputs| - 1];
             Run(start, init).mark.Some? && !Due(Run(start, init).lastMinute, inputs[|inputs| - 1].now)
    ensures var init := inputs[..|inputs| - 1];
            && LastMark(start, inputs) == LastMark(start, init) && Run(start, inputs).mark == Run(start, init).mark
            && Booked(start, inputs, way) == Booked(start, init, way) && Slack(start, inputs) == Slack(start, init)
  {
  }

  // One that is due moves the mark to itself and books what it can of the climb since.
  lemma ReportThatIsDue(start: View, inputs: seq<Input>, way: Way)
    requires |inputs| > 1
    requires var init, i := inputs[..|inputs| - 1], inputs[|inputs| - 1];
             var before := Run(start, init);
             && before.mark.Some? && Due(before.lastMinute, i.now)
             && Marked(before.mark.value, way) <= Total(i.traffic, way)
    ensures LastMark(start, inputs) == |inputs| - 1
    ensures Run(start, inputs).mark == Some(MarkAt(inputs[|inputs| - 1]))
    ensures var init, i := inputs[..|inputs| - 1], inputs[|inputs| - 1];
            0 <= Total(i.traffic, way) - Marked(Run(start, init).mark.value, way)
                 - (Booked(start, inputs, way) - Booked(start, init, way))
              <= Slack(start, inputs) - Slack(start, init)
  {
    var init, i := inputs[..|inputs| - 1], inputs[|inputs| - 1];
    var mark := Run(start, init).mark.value;
    var seconds := Elapsed(mark.tick, i.tick);
    var rate := Rate(Marked(mark, way), Total(i.traffic, way), seconds);
    assert Booked(start, inputs, way) == Booked(start, init, way) + rate * seconds;
    assert Slack(start, inputs) == Slack(start, init) + seconds - 1;
  }

  /**
   * Between the first report of a session and the last row's, the rates
   * integrate to the bytes the lifetime total climbed, less under one byte per second.
   */
  lemma {:induction false} RatesIntegrateToTotals(now: int, inputs: seq<Input>, way: Way)
    requires inputs != [] && TotalsNeverFall(inputs, way)
    ensures Run(Opened(now), inputs).mark == Some(MarkAt(inputs[LastMark(Opened(now), inputs)]))
    ensures var climbed :=
              Total(inputs[LastMark(Opened(now), inputs)].traffic, way) - Total(inputs[0].traffic, way);
            0 <= climbed - Booked(Opened(now), inputs, way) <= Slack(Opened(now), inputs)
  {
    var start := Opened(now);
    if |inputs| == 1 {
      FirstReportBooksNothing(start, inputs, way);
    } else {
      var init, i := inputs[..|inputs| - 1], inputs[|inputs| - 1];
      RatesIntegrateToTotals(now, init, way);
      assert inputs[LastMark(start, init)] == init[LastMark(start, init)];
      if Due(Run(start, init).lastMinute, i.now) {
        ReportThatIsDue(start, inputs, way);
      } else {
        ReportWithinItsMinute(start, inputs, way);
      }
    }
  }

  predicate ClockNeverFalls(now: int, inputs: seq<Input>) {
    && (forall k :: 0 <= k < |inputs| ==> now <= inputs[k].now)
    && (forall j, k :: 0 <= j <= k < |inputs| ==> inputs[j].now <= inputs[k].now)
  }

  /** Under a nondecreasing clock a row is stored exactly by the first report past each minute. */
  lemma {:induction false} RowIsFirstPastItsMinute(now: int, inputs: seq<Input>)
    requires inputs != [] && ClockNeverFalls(now, inputs)
    ensures RowOf(Run(Opened(now), inputs[..|inputs| - 1]), inputs[|inputs| - 1]).Some? <==>
              MinuteOf(inputs[|inputs| - 1].now)
              > if |inputs| == 1 then MinuteOf(now) else MinuteOf(inputs[|inputs| - 2].now)
    ensures Run(Opened(now), inputs).lastMinute == MinuteOf(inputs[|inputs| - 1].now)
  {
    if |inputs| > 1 {
      RowIsFirstPastItsMinute(now, inputs[..|inputs| - 1]);
    }
  }
  // ---- what no row carries ----

  // A field a browser is given is a number that is not negative, or an absent optional one.
  predicate SoundIn(m: Metrics, key: string) {
    key in m ==> Sound(m[key]) || (m[key].Null? && key in OPTIONAL)
  }

  predicate GoodLoad(v: Value) {
    v.List? && |v.items| == 3 && forall i :: 0 <= i < 3 ==> v.items[i].Some? && v.items[i].value >= 0.0
  }

  /** What keeps a report acceptable: a field missing, another non-negative number in a numeric
    * field, null in an optional one, a load of three non-negative numbers, or anything in a
    * field the hub does not check. */
  lemma AcceptableStaysSo(m: Metrics, key: string, v: Value)
    requires Acceptable(m)
    ensures Acceptable(map[]) && Acceptable(m - {key})
    ensures key in NUMERIC && v.Number? && v.r >= 0.0 ==> Acceptable(m[key := v])
    ensures key in OPTIONAL && key in NUMERIC && v.Null? ==> Acceptable(m[key := v])
    ensures key == "load" && GoodLoad(v) ==> Acceptable(m[key := v])
    ensures key !in NUMERIC && key != "load" ==> Acceptable(m[key := v])
  {
    if key in NUMERIC {
      NumberIsNoLoad(key);
      NumberStaysAcceptable(m, key, v);
    } else {
      OtherStaysAcceptable(m, key, v);
    }
  }

  lemma NumberIsNoLoad(key: string)
    requires key in NUMERIC
    ensures key != "load"
  {
    NumericSecondLetters();
  }

  lemma NumberStaysAcceptable(m: Metrics, key: string, v: Value)
    requires Acceptable(m) && key != "load"
    ensures Sound(v) || (v.Null? && key in OPTIONAL) ==> Acceptable(m[key := v])
  {
  }

  lemma OtherStaysAcceptable(m: Metrics, key: string, v: Value)
    requires Acceptable(m) && key !in NUMERIC
    ensures key != "load" || GoodLoad(v) ==> Acceptable(m[key := v])
  {
  }

  predicate AllAcceptable(inputs: seq<Input>) {
    forall k :: 0 <= k < |inputs| ==> Acceptable(inputs[k].metrics)
  }

  lemma NumericSecondLetters()
    ensures forall k :: 0 <= k < |NUMERIC| ==> |NUMERIC[k]| > 1 && NUMERIC[k][1] != 'o'
  {
  }

  lemma FigureSecondLetters(key: string)
    requires key in FIGURES
    ensures |key| > 1 && key[1] == 'o'
  {
    SecondLetters("total_rx", "total_tx", "month_rx", "month_tx");
  }

  lemma NumericIsNoFigure(key: string)
    requires key in NUMERIC
    ensures key !in FIGURES
  {
    NumericSecondLetters();
    var k :| 0 <= k < |NUMERIC| && NUMERIC[k] == key;
    if key in FIGURES { FigureSecondLetters(key); }
  }

  lemma OtherFieldsStay(m: Metrics, t: Traffic, key: string)
    requires key !in FIGURES
    ensures key in Live(m, t) <==> key in m
    ensures key in m ==> Live(m, t)[key] == m[key]
  {
    LiveIsTheReportAndItsFigures(m, t);
  }

  lemma LiveIsSound(i: Input, key: string)
    requires Acceptable(i.metrics) && key in NUMERIC && key !in FIGURES
    ensures SoundIn(Live(i.metrics, i.traffic), key)
  {
    OtherFieldsStay(i.metrics, i.traffic, key);
  }

  lemma {:induction false} SumIsNotNegative(batch: seq<Metrics>, key: string)
    requires forall m :: m in batch ==> SoundIn(m, key)
    ensures Sum(batch, key) >= 0.0
  {
    if batch != [] {
      SumIsNotNegative(batch[..|batch| - 1], key);
      assert batch[|batch| - 1] in batch;
    }
  }

  lemma MeanIsSound(batch: seq<Metrics>, key: string)
    requires Count(batch, key) > 0 && forall m :: m in batch ==> SoundIn(m, key)
    ensures Sound(Mean(batch, key))
  {
    SumIsNotNegative(batch, key);
    var mean := Sum(batch, key) / Count(batch, key) as real;
    QuotientIsNotNegative(Sum(batch, key), Count(batch, key));
    RoundedIsNotNegative(mean);
  }

  lemma QuotientIsNotNegative(sum: real, count: nat)
    requires sum >= 0.0 && count > 0
    ensures sum / count as real >= 0.0
  {
  }

  lemma RoundedIsNotNegative(x: real)
    requires x >= 0.0
    ensures Clamp(Round(x)) >= 0
  {
    assert (x + 0.5).Floor >= 0;
  }

  lemma {:induction false} BatchIsSound(now: int, inputs: seq<Input>, key: string)
    requires AllAcceptable(inputs) && key in NUMERIC && key !in FIGURES
    ensures forall m :: m in Run(Opened(now), inputs).batch ==> SoundIn(m, key)
  {
    if inputs != [] {
      BatchIsSound(now, inputs[..|inputs| - 1], key);
      LiveIsSound(inputs[|inputs| - 1], key);
    }
  }

  /** Whatever reports were accepted, every figure of a stored row that an agent measures is a
    * number that is not negative, or null where the field is optional. */
  lemma StoredRowsAreSound(now: int, inputs: seq<Input>, key: string)
    requires inputs != [] && AllAcceptable(inputs) && key in NUMERIC
    ensures var row := RowOf(Run(Opened(now), inputs[..|inputs| - 1]), inputs[|inputs| - 1]);
            row.Some? ==> SoundIn(row.value.fields, key)
  {
    var init, i := inputs[..|inputs| - 1], inputs[|inputs| - 1];
    NumericIsNoFigure(key);
    BatchIsSound(now, init, key);
    LiveIsSound(i, key);
    RowIsSound(Run(Opened(now), init), i, key);
  }

  lemma RowIsSound(v: View, i: Input, key: string)
    requires SoundIn(Live(i.metrics, i.traffic), key) && forall m :: m in v.batch ==> SoundIn(m, key)
    ensures RowOf(v, i).Some? ==> SoundIn(RowOf(v, i).value.fields, key)
  {
    var live := Live(i.metrics, i.traffic);
    if Due(v.lastMinute, i.now) {
      var row := Averaged(v.batch + [live], live);
      if Count(v.batch + [live], key) > 0 {
        MeanIsSound(v.batch + [live], key);
      }
      assert SoundIn(row, key);
      RatesAreSound(v.mark, i, row, key);
    }
  }

  lemma RatesAreSound(mark: Option<Mark>, i: Input, row: Metrics, key: string)
    requires SoundIn(row, key)
    ensures SoundIn(Rated(mark, i, row), key)
  {
  }
}
