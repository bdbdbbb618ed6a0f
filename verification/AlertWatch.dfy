/**
 * The loop that sweeps (server/src/notify.rs), and for each node the run of events its
 * sweeps amount to: what is remembered of it, and what is announced of it, is what
 * `AlertRuns` says of that run.
 */
module AlertWatch {
  import opened Options
  import opened AlertSweep
  import opened AlertRuns

  /** A node row but for its stored mark. */
  datatype Row = Row(id: Id, notify: bool, lastSeen: int, limit: int, mode: Mode)

  predicate Apart(rows: seq<Row>) {
    forall i, j :: 0 <= i < j < |rows| ==> rows[i].id != rows[j].id
  }

  /** The stored marks once rows have been created and deleted: a new row starts unmarked. */
  function Synced(rows: seq<Row>, stored: map<Id, int>): (marks: map<Id, int>)
    ensures forall id :: id in marks <==> exists k :: 0 <= k < |rows| && rows[k].id == id
    ensures forall id :: id in marks ==> marks[id] == if id in stored then stored[id] else 0
  {
    if rows == [] then map[]
    else
      var r := rows[|rows| - 1];
      Synced(rows[..|rows| - 1], stored)[r.id := if r.id in stored then stored[r.id] else 0]
  }

  predicate FromRow(n: Node, r: Row) {
    n.id == r.id && n.notify == r.notify && n.lastSeen == r.lastSeen && n.limit == r.limit && n.mode == r.mode
  }

  // Reading the rows.
  function Nodes(rows: seq<Row>, marks: map<Id, int>): (nodes: seq<Node>)
    ensures |nodes| == |rows|
    ensures forall k :: 0 <= k < |rows| ==>
              && FromRow(nodes[k], rows[k])
              && nodes[k].downSince == if rows[k].id in marks then marks[rows[k].id] else 0
  {
    if rows == [] then []
    else
      var r := rows[|rows| - 1];
      Nodes(rows[..|rows| - 1], marks)
      + [Node(r.id, r.notify, r.lastSeen, if r.id in marks then marks[r.id] else 0, r.limit, r.mode)]
  }

  function Place(nodes: seq<Node>, id: Id): (k: Option<nat>)
    ensures match k
            case Some(n) => n < |nodes| && nodes[n].id == id
            case None => !Listed(nodes, id)
  {
    if nodes == [] then None
    else if nodes[|nodes| - 1].id == id then Some(|nodes| - 1)
    else Place(nodes[..|nodes| - 1], id)
  }

  /** What one sweep is for one node, when `looked` nodes were looked at and `ok` says whether
    * it completed. */
  function EventOf(nodes: seq<Node>, p: Pass, looked: nat, ok: bool, id: Id): Event {
    match Place(nodes, id)
    case None => Unlisted
    case Some(k) =>
      if k < looked then Looked(p.now, SeenAs(nodes[k], p.online), p.cfg, id !in p.broken, ok) else Skipped
  }

  lemma {:induction false} UnlistedAreNotNamed(mems: seq<Mem>, nodes: seq<Node>, p: Pass, news: News, id: Id)
    requires |mems| == |nodes| && !Listed(nodes, id)
    ensures id !in Named(mems, nodes, p, news)
  {
    if nodes != [] {
      var k := |nodes| - 1;
      assert forall i :: 0 <= i < k ==> nodes[..k][i] == nodes[i];
      UnlistedAreNotNamed(mems[..k], nodes[..k], p, news, id);
    }
  }

  /** A list names exactly the nodes whose turn brought its news. */
  lemma {:induction false} NamedExactly(mems: seq<Mem>, nodes: seq<Node>, p: Pass, news: News, k: nat)
    requires |mems| == |nodes| && k < |nodes| && Distinct(nodes)
    ensures nodes[k].id in Named(mems, nodes, p, news) <==> Turn(mems[k], nodes[k], p).news == news
  {
    var last := |nodes| - 1;
    if k < last {
      NamedExactly(mems[..last], nodes[..last], p, news, k);
      assert nodes[k].id != nodes[last].id;
    } else {
      LastIsApart(nodes);
      UnlistedAreNotNamed(mems[..last], nodes[..last], p, news, nodes[k].id);
    }
  }

  lemma LastIsApart(nodes: seq<Node>)
    requires nodes != [] && Distinct(nodes)
    ensures !Listed(nodes[..|nodes| - 1], nodes[|nodes| - 1].id)
  {
  }

  /** What the lists of a completed sweep say of one node. */
  function NewsIn(down: seq<Id>, up: seq<Id>, id: Id): seq<News> {
    (if id in down then [WentDown] else []) + (if id in up then [CameBack] else [])
  }

  /** One sweep is one event for each node: its memory moves by that event, and it is named
    * exactly when the event changes its mark and the sweep completes. */
  lemma SweepIsOneEvent(w: Watch, mems: seq<Mem>, nodes: seq<Node>, p: Pass, looked: nat, ok: bool,
                        down: seq<Id>, up: seq<Id>, id: Id, before: Mem)
    requires Distinct(nodes) && |mems| == |nodes| && looked <= |nodes| && (ok ==> looked == |nodes|)
    requires w.TookTurns(mems, nodes, p, looked, ok)
    requires ok ==> down == Named(mems, nodes, p, WentDown) && up == Named(mems, nodes, p, CameBack)
    requires !ok ==> down == up == []
    requires match Place(nodes, id)
             case Some(k) => mems[k] == before
             case None => w.Memory(id) == Mem(None, None, 0)
    ensures var e := EventOf(nodes, p, looked, ok, id);
            && w.Memory(id) == Next(before, e)
            && NewsIn(down, up, id) == if NewsOf(before, e) != Silent && e.Looked? && e.done
                                       then [NewsOf(before, e)] else []
  {
    match Place(nodes, id)
    case Some(k) =>
      if ok {
        NamedExactly(mems, nodes, p, WentDown, k);
        NamedExactly(mems, nodes, p, CameBack, k);
      }
    case None =>
      if ok {
        UnlistedAreNotNamed(mems, nodes, p, WentDown, id);
        UnlistedAreNotNamed(mems, nodes, p, CameBack, id);
      }
  }

  // `before` is what `mems` has of `id`, or `id` is not listed and its mark is gone.
  predicate Knows(mems: seq<Mem>, nodes: seq<Node>, marks: map<Id, int>, id: Id, before: Mem)
    requires |mems| == |nodes|
  {
    match Place(nodes, id)
    case Some(k) => mems[k] == before
    case None => id !in marks
  }

  // The rows are read; marks of rows that are gone go with them.
  method Read(w: Watch, rows: seq<Row>, id: Id) returns (nodes: seq<Node>)
    requires Apart(rows)
    modifies w`downSince
    ensures Distinct(nodes) && w.Read(nodes) && Knows(w.Memories(nodes), nodes, w.downSince, id, old(w.Memory(id)))
    ensures |nodes| == |rows| && forall k :: 0 <= k < |rows| ==> FromRow(nodes[k], rows[k])
  {
    w.downSince := Synced(rows, w.downSince);
    nodes := Nodes(rows, w.downSince);
  }

  lemma PlaceInRows(rows: seq<Row>, nodes: seq<Node>, id: Id)
    requires |nodes| == |rows| && forall k :: 0 <= k < |rows| ==> FromRow(nodes[k], rows[k])
    ensures Place(nodes, id).None? <==> forall k :: 0 <= k < |rows| ==> rows[k].id != id
  {
    if Place(nodes, id).None? {
      forall k | 0 <= k < |rows| ensures rows[k].id != id {
        assert FromRow(nodes[k], rows[k]);
      }
    } else {
      assert FromRow(nodes[Place(nodes, id).value], rows[Place(nodes, id).value]);
    }
  }

  /** What a sweep over `rows` can be for one node: a look at its row as the database has it,
    * at the sweep's clock and settings; or no such row; or a row the sweep did not reach. */
  predicate Describes(e: Event, rows: seq<Row>, p: Pass, id: Id) {
    match e
    case Looked(now, seen, cfg, stores, _) =>
      && now == p.now && cfg == p.cfg && stores == (id !in p.broken)
      && exists k :: 0 <= k < |rows| && rows[k].id == id
                     && seen == if id in p.online then Online else Away(rows[k].lastSeen, rows[k].notify)
    case Unlisted => forall k :: 0 <= k < |rows| ==> rows[k].id != id
    case Skipped => exists k :: 0 <= k < |rows| && rows[k].id == id
    case Restart => false
  }

  lemma EventIsOfItsRow(rows: seq<Row>, nodes: seq<Node>, p: Pass, looked: nat, ok: bool, id: Id)
    requires |nodes| == |rows| && forall k :: 0 <= k < |rows| ==> FromRow(nodes[k], rows[k])
    requires looked <= |nodes| && (ok ==> looked == |nodes|)
    ensures var e := EventOf(nodes, p, looked, ok, id);
            Describes(e, rows, p, id) && (e.Looked? ==> e.done == ok) && (e.Skipped? ==> !ok)
  {
    PlaceInRows(rows, nodes, id);
    match Place(nodes, id)
    case Some(k) => assert FromRow(nodes[k], rows[k]) && rows[k].id == id;
    case None =>
  }

  /** The sweep, with what it is for one node; one that completes skips no node. */
  method SweepOnce(w: Watch, rows: seq<Row>, p: Pass, id: Id) returns (ok: bool, news: seq<News>, ghost e: Event)
    requires Apart(rows)
    modifies w
    ensures Describes(e, rows, p, id) && (e.Looked? ==> e.done == ok) && (e.Skipped? ==> !ok)
    ensures w.Memory(id) == Next(old(w.Memory(id)), e)
    ensures news == if NewsOf(old(w.Memory(id)), e) != Silent && e.Looked? && e.done
                    then [NewsOf(old(w.Memory(id)), e)] else []
  {
    ghost var before := w.Memory(id);
    var nodes := Read(w, rows, id);
    ghost var mems, marks := w.Memories(nodes), w.downSince;
    var down, up, metered; ghost var looked;
    ok, down, up, metered, looked := w.Sweep(nodes, p);
    e := EventOf(nodes, p, looked, ok, id);
    news := NewsIn(down, up, id);
    EventIsOfItsRow(rows, nodes, p, looked, ok, id);
    assert w.Forgotten(nodes, marks);
    SweepIsOneEvent(w, mems, nodes, p, looked, ok, down, up, id, before);
  }

  /** Sweeps one after another. What is announced of a node is exactly what its run of events
    * announces, and what is remembered of it is what that run leaves. */
  method Follow(w: Watch, rows: seq<seq<Row>>, passes: seq<Pass>, id: Id)
    returns (told: seq<News>, ghost trace: seq<Event>)
    requires |rows| == |passes| && forall i :: 0 <= i < |rows| ==> Apart(rows[i])
    modifies w
    ensures |trace| == |passes| && w.Memory(id) == After(old(w.Memory(id)), trace)
    ensures told == Announced(old(w.Memory(id)), trace)
    ensures forall i :: 0 <= i < |trace| ==> Describes(trace[i], rows[i], passes[i], id)
  {
    told, trace := [], [];
    ghost var start := w.Memory(id);
    for i := 0 to |passes|
      invariant |trace| == i && w.Memory(id) == After(start, trace) && told == Announced(start, trace)
      invariant forall k :: 0 <= k < i ==> Describes(trace[k], rows[k], passes[k], id)
    {
      var ok, news; ghost var e;
      ok, news, e := SweepOnce(w, rows[i], passes[i], id);
      assert (trace + [e])[..i] == trace;
      trace := trace + [e];
      told := told + news;
    }
  }
}
