/**
 * The loop that sweeps (server/src/notify.rs), and for each node the run of traffic events
 * its sweeps amount to: what is recorded and announced of its traffic is what `TrafficRuns`
 * says of that run.
 */
module TrafficWatch {
  import opened Options
  import opened AlertSweep
  import opened TrafficRuns
  import AlertWatch

  /** What one sweep is for the traffic of one node. */
  function EventOf(nodes: seq<Node>, p: Pass, ok: bool, id: Id): Event {
    match AlertWatch.Place(nodes, id)
    case None => Unlisted(ok)
    case Some(k) =>
      if !ok then StoreFailed
      else if Metered(nodes[k], p) then Examined(p.usage[id].period, Used(nodes[k].mode, p.usage[id]))
      else Unexamined
  }

  /** The allowance and percentage a node is examined with are the fixed ones. */
  predicate Fixed(nodes: seq<Node>, p: Pass, id: Id, cfg: Settings) {
    && Sound(cfg)
    && match AlertWatch.Place(nodes, id)
       case Some(k) => Metered(nodes[k], p) ==> nodes[k].limit == cfg.limit && p.percent == cfg.percent
       case None => true
  }

  lemma {:induction false} UnlistedDoNotCross(
    primed: bool, steps: seq<Option<Recorded>>, nodes: seq<Node>, p: Pass, id: Id)
    requires |steps| == |nodes| && !Listed(nodes, id)
    ensures id !in Crossed(primed, steps, nodes, p)
  {
    if nodes != [] {
      var k := |nodes| - 1;
      assert forall i :: 0 <= i < k ==> nodes[..k][i] == nodes[i];
      UnlistedDoNotCross(primed, steps[..k], nodes[..k], p, id);
    }
  }

  /** The list names exactly the nodes whose step is announced. */
  lemma {:induction false} CrossedExactly(
    primed: bool, steps: seq<Option<Recorded>>, nodes: seq<Node>, p: Pass, k: nat)
    requires |steps| == |nodes| && k < |nodes| && Distinct(nodes)
    ensures nodes[k].id in Crossed(primed, steps, nodes, p)
       <==> Metered(nodes[k], p) && Announces(primed, steps[k], Reached(nodes[k], p))
  {
    var last := |nodes| - 1;
    if k < last {
      CrossedExactly(primed, steps[..last], nodes[..last], p, k);
    } else {
      AlertWatch.LastIsApart(nodes);
      UnlistedDoNotCross(primed, steps[..last], nodes[..last], p, nodes[k].id);
    }
  }

  /** What the list of a sweep says of one node. */
  function NewsIn(nodes: seq<Node>, p: Pass, metered: seq<Id>, id: Id): seq<Recorded> {
    match AlertWatch.Place(nodes, id)
    case Some(k) => if id in metered && id in p.usage then [Reached(nodes[k], p)] else []
    case None => []
  }

  // What `steps` and the flag have of a node before a sweep.
  predicate Knows(steps: seq<Option<Recorded>>, nodes: seq<Node>, id: Id, before: Memory, primed: bool)
    requires |steps| == |nodes|
  {
    && before.primed == primed
    && match AlertWatch.Place(nodes, id)
       case Some(k) => steps[k] == before.last
       case None => true
  }

  /** One sweep is one event for the traffic of each node: what is recorded moves by that
    * event, and the node is named exactly when the event is announced. */
  lemma SweepIsOneEvent(w: Watch, steps: seq<Option<Recorded>>, nodes: seq<Node>, p: Pass, ok: bool,
                        metered: seq<Id>, id: Id, before: Memory, primed: bool, cfg: Settings)
    requires Distinct(nodes) && |steps| == |nodes| && Fixed(nodes, p, id, cfg)
    requires Knows(steps, nodes, id, before, primed)
    requires w.TookSteps(steps, nodes, p, if ok then |nodes| else 0) && w.primed == (ok || primed)
    requires if ok then metered == Crossed(primed, steps, nodes, p) else metered == []
    requires !Listed(nodes, id) ==> id !in w.traffic
    ensures var e := EventOf(nodes, p, ok, id);
            && Memory(w.primed, Get(w.traffic, id)) == Next(before, e, cfg)
            && NewsIn(nodes, p, metered, id) == NewsOf(before, e, cfg)
  {
    match AlertWatch.Place(nodes, id)
    case Some(k) =>
      assert Listed(nodes, id);
      if ok {
        CrossedExactly(primed, steps, nodes, p, k);
      }
    case None =>
      if ok {
        UnlistedDoNotCross(primed, steps, nodes, p, id);
      }
  }

  /** The rows give a node the fixed allowance, and alerts use the fixed percentage or none. */
  predicate Settled(rows: seq<AlertWatch.Row>, p: Pass, id: Id, cfg: Settings) {
    && AlertWatch.Apart(rows) && Sound(cfg)
    && (p.percent <= 0 || p.percent == cfg.percent)
    && forall k :: 0 <= k < |rows| && rows[k].id == id ==> rows[k].limit <= 0 || rows[k].limit == cfg.limit
  }

  /** The usage counted is the one the node's mode asks for, or the largest i64. */
  predicate Counts(mode: Mode, u: Usage, used: int) {
    Counters(u) ==> used == if TrueUse(mode, u) > MAX_I64 then MAX_I64 else TrueUse(mode, u)
  }

  predicate HasAllowance(r: AlertWatch.Row, p: Pass) {
    r.limit > 0 && p.percent > 0 && p.cfg.armed && r.id in p.usage
  }

  /** What a sweep over `rows` is for the traffic of one node: its usage is examined exactly
    * when the sweep gets there, the node has an allowance and counters, alerts are on and a
    * channel is set up. */
  predicate Describes(e: Event, rows: seq<AlertWatch.Row>, p: Pass, ok: bool, id: Id) {
    match e
    case Examined(period, used) =>
      && ok && exists k :: 0 <= k < |rows| && rows[k].id == id && HasAllowance(rows[k], p)
                           && period == p.usage[id].period && Counts(rows[k].mode, p.usage[id], used)
    case Unexamined => ok && exists k :: 0 <= k < |rows| && rows[k].id == id && !HasAllowance(rows[k], p)
    case StoreFailed => !ok && exists k :: 0 <= k < |rows| && rows[k].id == id
    case Unlisted(done) => done == ok && forall k :: 0 <= k < |rows| ==> rows[k].id != id
    case Restart => false
  }

  lemma EventIsOfItsRow(rows: seq<AlertWatch.Row>, nodes: seq<Node>, p: Pass, ok: bool, id: Id)
    requires |nodes| == |rows| && forall k :: 0 <= k < |rows| ==> AlertWatch.FromRow(nodes[k], rows[k])
    ensures Describes(EventOf(nodes, p, ok, id), rows, p, ok, id)
  {
    AlertWatch.PlaceInRows(rows, nodes, id);
    match AlertWatch.Place(nodes, id)
    case Some(k) => assert AlertWatch.FromRow(nodes[k], rows[k]) && rows[k].id == id;
    case None =>
  }

  method SweepOnce(w: Watch, rows: seq<AlertWatch.Row>, p: Pass, id: Id, cfg: Settings)
    returns (ok: bool, told: seq<Recorded>, ghost e: Event)
    requires Settled(rows, p, id, cfg)
    modifies w
    ensures Describes(e, rows, p, ok, id)
    ensures var before := Memory(old(w.primed), Get(old(w.traffic), id));
            && Memory(w.primed, Get(w.traffic, id)) == Next(before, e, cfg)
            && told == NewsOf(before, e, cfg)
  {
    ghost var before, primed := Memory(w.primed, Get(w.traffic, id)), w.primed;
    var nodes := Read(w, rows, p, id, cfg);
    ghost var steps, marks := w.Steps(nodes), w.downSince;
    var down, up, metered; ghost var looked;
    ok, down, up, metered, looked := w.Sweep(nodes, p);
    e := EventOf(nodes, p, ok, id);
    told := NewsIn(nodes, p, metered, id);
    assert !Listed(nodes, id) ==> id !in w.traffic by {
      assert w.Forgotten(nodes, marks);
    }
    SweepIsOneEvent(w, steps, nodes, p, ok, metered, id, before, primed, cfg);
  }

  // Reading the rows touches nothing of the traffic.
  method Read(w: Watch, rows: seq<AlertWatch.Row>, p: Pass, id: Id, cfg: Settings) returns (nodes: seq<Node>)
    requires Settled(rows, p, id, cfg)
    modifies w`downSince
    ensures Distinct(nodes) && w.Read(nodes) && Fixed(nodes, p, id, cfg)
    ensures Knows(w.Steps(nodes), nodes, id, Memory(w.primed, Get(w.traffic, id)), w.primed)
    ensures forall ok :: Describes(EventOf(nodes, p, ok, id), rows, p, ok, id)
  {
    nodes := AlertWatch.Read(w, rows, id);
    FixedBySettled(rows, nodes, p, id, cfg);
    EventIsOfItsRow(rows, nodes, p, false, id);
    EventIsOfItsRow(rows, nodes, p, true, id);
  }

  lemma FixedBySettled(rows: seq<AlertWatch.Row>, nodes: seq<Node>, p: Pass, id: Id, cfg: Settings)
    requires Settled(rows, p, id, cfg)
    requires |nodes| == |rows| && forall k :: 0 <= k < |rows| ==> AlertWatch.FromRow(nodes[k], rows[k])
    ensures Fixed(nodes, p, id, cfg)
    ensures AlertWatch.Place(nodes, id).None? <==> forall k :: 0 <= k < |rows| ==> rows[k].id != id
  {
    AlertWatch.PlaceInRows(rows, nodes, id);
    match AlertWatch.Place(nodes, id)
    case Some(k) => assert AlertWatch.FromRow(nodes[k], rows[k]);
    case None =>
  }

  /** Sweeps one after another. What is announced of a node's traffic is exactly what its run
    * of events announces, and what is recorded is what that run leaves. */
  method Follow(w: Watch, rows: seq<seq<AlertWatch.Row>>, passes: seq<Pass>, id: Id, cfg: Settings)
    returns (told: seq<Recorded>, ghost trace: seq<Event>, ghost completed: seq<bool>)
    requires |rows| == |passes| && Sound(cfg)
    requires forall i :: 0 <= i < |rows| ==> Settled(rows[i], passes[i], id, cfg)
    modifies w
    ensures var start := Memory(old(w.primed), Get(old(w.traffic), id));
            && |trace| == |passes| && told == Announced(start, trace, cfg)
            && Memory(w.primed, Get(w.traffic, id)) == After(start, trace, cfg)
    ensures |completed| == |passes|
    ensures forall i :: 0 <= i < |trace| ==> Describes(trace[i], rows[i], passes[i], completed[i], id)
  {
    told, trace, completed := [], [], [];
    ghost var start := Memory(w.primed, Get(w.traffic, id));
    for i := 0 to |passes|
      invariant |trace| == |completed| == i && told == Announced(start, trace, cfg)
      invariant Memory(w.primed, Get(w.traffic, id)) == After(start, trace, cfg)
      invariant forall k :: 0 <= k < i ==> Describes(trace[k], rows[k], passes[k], completed[k], id)
    {
      var ok, news; ghost var e;
      ok, news, e := SweepOnce(w, rows[i], passes[i], id, cfg);
      assert (trace + [e])[..i] == trace;
      trace, completed := trace + [e], completed + [ok];
      told := told + news;
    }
  }
}
