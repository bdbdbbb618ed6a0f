/**
 * The alert sweep of server/src/notify.rs: what one pass over the nodes does to the
 * sweep's memory and to the stored `down_since`, and which nodes it names.
 */
module AlertSweep {
  import opened Options

  type Id = int

  const FLAP_WINDOW: int := 3_600
  const FLAP_GRACE: int := 1_800

  // ---- numeric settings ----

  datatype Setting = Setting(min: int, max: int, standard: int)

  const GRACE := Setting(1, FLAP_GRACE / 60, 3)

  /** A stored setting counts only when it parses and lies in its range. */
  function Number(s: Setting, parsed: Option<int>): int {
    if parsed.Some? && s.min <= parsed.value <= s.max then parsed.value else s.standard
  }

  /** Whatever is stored, the grace in force is positive and capped at the flapping grace: the
    * minutes stored, from one to thirty, and three otherwise. */
  lemma GraceIsCapped(parsed: Option<int>)
    ensures 60 <= Number(GRACE, parsed) * 60 <= FLAP_GRACE
    ensures forall minutes :: 1 <= minutes <= 30 ==> Number(GRACE, Some(minutes)) == minutes
    ensures (forall minutes :: 1 <= minutes <= 30 ==> parsed != Some(minutes)) ==> Number(GRACE, parsed) == 3
  {
  }

  // ---- one node in one sweep ----

  /** What the sweep remembers of a node, and the stored mark of its announced absence. */
  datatype Mem = Mem(absent: Option<int>, returned: Option<int>, down: int)

  datatype Seen = Online | Away(lastSeen: int, notify: bool)

  datatype News = Silent | WentDown | CameBack

  datatype Config = Config(grace: int, armed: bool)

  datatype Outcome = Outcome(mem: Mem, news: News, ok: bool)

  /** How long an absence that began at `since` must last before it is announced. */
  function Wait(returned: Option<int>, since: int, grace: int): int {
    if returned.Some? && since - returned.value < FLAP_WINDOW then FLAP_GRACE else grace
  }

  /** One node's turn. `stores` says whether `down_since` can be written. */
  function Look(m: Mem, seen: Seen, now: int, cfg: Config, stores: bool): Outcome {
    match seen
    case Online =>
      var long := m.absent.Some? && now - m.absent.value >= cfg.grace;
      var kept := Mem(None, if long then Some(now) else m.returned, m.down);
      if m.down > 0 then
        if stores then Outcome(kept.(down := 0), CameBack, true) else Outcome(kept, Silent, false)
      else Outcome(kept, Silent, true)
    case Away(lastSeen, notify) =>
      // A node that has never reported is not tracked.
      if lastSeen == 0 then Outcome(m, Silent, true)
      else
        var since := if m.absent.Some? then m.absent.value else now;
        var kept := m.(absent := Some(since));
        if cfg.armed && notify && m.down == 0 && now - since >= Wait(m.returned, since, cfg.grace) then
          if stores then Outcome(kept.(down := lastSeen), WentDown, true) else Outcome(kept, Silent, false)
        else Outcome(kept, Silent, true)
  }

  // ---- traffic steps ----

  const MAX_I64: int := 0x7fff_ffff_ffff_ffff

  datatype Mode = Up | Down | Larger | Both

  datatype Usage = Usage(rx: int, tx: int, period: string)

  function Max(a: int, b: int): int {
    if a > b then a else b
  }

  function Used(mode: Mode, u: Usage): int {
    match mode
    case Up => u.tx
    case Down => u.rx
    case Larger => Max(u.rx, u.tx)
    // A saturating addition.
    case Both => if u.rx + u.tx > MAX_I64 then MAX_I64 else u.rx + u.tx
  }

  function Step(used: int, limit: int, percent: int): int {
    if used * 100 >= limit * 100 then 100
    else if used * 100 >= limit * percent then percent
    else 0
  }

  /** The last step recorded for a node, with the billing period it was reached in. */
  datatype Recorded = Recorded(period: string, step: int)

  predicate Announces(primed: bool, last: Option<Recorded>, now: Recorded) {
    && primed && now.step != 0
    && !(last.Some? && last.value.period == now.period && last.value.step >= now.step)
  }

  // ---- one sweep over every node ----

  datatype Node = Node(id: Id, notify: bool, lastSeen: int, downSince: int, limit: int, mode: Mode)

  predicate Distinct(nodes: seq<Node>) {
    forall i, j :: 0 <= i < j < |nodes| ==> nodes[i].id != nodes[j].id
  }

  function SeenAs(n: Node, online: set<Id>): Seen {
    if n.id in online then Online else Away(n.lastSeen, n.notify)
  }

  function Get<T>(m: map<Id, T>, id: Id): Option<T> {
    if id in m then Some(m[id]) else None
  }

  /** What a sweep is given besides the node rows. */
  datatype Pass = Pass(now: int, online: set<Id>, cfg: Config, percent: int, usage: map<Id, Usage>, broken: set<Id>)

  function Turn(m: Mem, n: Node, p: Pass): Outcome {
    Look(m, SeenAs(n, p.online), p.now, p.cfg, n.id !in p.broken)
  }

  /** Traffic is examined for a node with an allowance, while alerts can be sent. */
  predicate Metered(n: Node, p: Pass) {
    n.limit > 0 && p.percent > 0 && p.cfg.armed && n.id in p.usage
  }

  function Reached(n: Node, p: Pass): Recorded
    requires n.id in p.usage
  {
    Recorded(p.usage[n.id].period, Step(Used(n.mode, p.usage[n.id]), n.limit, p.percent))
  }

  class Watch {
    var primed: bool
    var traffic: map<Id, Recorded>
    var absent: map<Id, int>
    var returned: map<Id, int>
    /** The stored `down_since` column. */
    var downSince: map<Id, int>

    constructor (stored: map<Id, int>)
      ensures !primed && traffic == map[] && absent == map[] && returned == map[] && downSince == stored
    {
      primed := false;
      traffic, absent, returned := map[], map[], map[];
      downSince := stored;
    }

    ghost function Memory(id: Id): Mem
      reads this`absent, this`returned, this`downSince
    {
      Mem(Get(absent, id), Get(returned, id), if id in downSince then downSince[id] else 0)
    }

    /** The rows were read from the store at the start of the sweep. */
    ghost predicate Read(nodes: seq<Node>)
      reads this`downSince
    {
      forall i :: 0 <= i < |nodes| ==> nodes[i].id in downSince && downSince[nodes[i].id] == nodes[i].downSince
    }

    /** The first `looked` nodes have taken their own turn from `mems`, and only the last of
      * them may have failed to store; the others are as they were. */
    ghost predicate TookTurns(mems: seq<Mem>, nodes: seq<Node>, p: Pass, looked: nat, ok: bool)
      requires |mems| == |nodes| && looked <= |nodes|
      reads this`absent, this`returned, this`downSince
    {
      && (forall k :: 0 <= k < looked ==>
            && Turn(mems[k], nodes[k], p).ok == (ok || k < looked - 1)
            && Memory(nodes[k].id) == Turn(mems[k], nodes[k], p).mem)
      && forall k :: looked <= k < |nodes| ==> Memory(nodes[k].id) == mems[k]
    }

    /** Of the first `n` nodes the metered ones have their step recorded; the others are as
      * they were. */
    ghost predicate TookSteps(steps: seq<Option<Recorded>>, nodes: seq<Node>, p: Pass, n: nat)
      requires |steps| == |nodes| && n <= |nodes|
      reads this`traffic
    {
      && (forall k :: 0 <= k < n ==>
            Get(traffic, nodes[k].id) == if Metered(nodes[k], p) then Some(Reached(nodes[k], p)) else steps[k])
      && forall k :: n <= k < |nodes| ==> Get(traffic, nodes[k].id) == steps[k]
    }

    /** Of a node that is not listed nothing is remembered but the stored mark. */
    ghost predicate Forgotten(nodes: seq<Node>, stored: map<Id, int>)
      reads this`absent, this`returned, this`downSince, this`traffic
    {
      forall id :: !Listed(nodes, id) ==>
        Memory(id) == Mem(None, None, if id in stored then stored[id] else 0) && id !in traffic
    }

    /** Forgets nodes that are no longer listed. */
    method Retain(nodes: seq<Node>)
      modifies this`absent, this`returned, this`traffic
      ensures Forgotten(nodes, old(downSince))
      ensures Memories(nodes) == old(Memories(nodes)) && Steps(nodes) == old(Steps(nodes))
    {
      var ids := set n | n in nodes :: n.id;
      absent := map id | id in absent && id in ids :: absent[id];
      returned := map id | id in returned && id in ids :: returned[id];
      traffic := map id | id in traffic && id in ids :: traffic[id];
      assert forall k :: 0 <= k < |nodes| ==> nodes[k].id in ids;
    }

    /** One node's turn, exactly as `Look` says, and nothing else. */
    method Visit(n: Node, p: Pass) returns (ok: bool, news: News)
      requires n.id in downSince && downSince[n.id] == n.downSince
      modifies this`absent, this`returned, this`downSince
      ensures Outcome(Memory(n.id), news, ok) == Turn(old(Memory(n.id)), n, p)
      ensures forall id :: id != n.id ==> Memory(id) == old(Memory(id))
      ensures downSince.Keys == old(downSince.Keys)
      ensures forall id :: id != n.id && id in downSince ==> downSince[id] == old(downSince)[id]
    {
      ok, news := true, Silent;
      if n.id in p.online {
        if n.id in absent {
          var since := absent[n.id];
          absent := absent - {n.id};
          if p.now - since >= p.cfg.grace {
            returned := returned[n.id := p.now];
          }
        }
        if n.downSince > 0 {
          if n.id in p.broken { return false, Silent; }
          downSince := downSince[n.id := 0];
          news := CameBack;
        }
        return;
      }
      if n.lastSeen == 0 {
        return;
      }
      if n.id !in absent {
        absent := absent[n.id := p.now];
      }
      var since := absent[n.id];
      var flapping := n.id in returned && since - returned[n.id] < FLAP_WINDOW;
      var wait := if flapping then FLAP_GRACE else p.cfg.grace;
      if p.cfg.armed && n.notify && n.downSince == 0 && p.now - since >= wait {
        if n.id in p.broken { return false, Silent; }
        downSince := downSince[n.id := n.lastSeen];
        news := WentDown;
      }
    }

    // The same, within a list.
    method VisitAt(nodes: seq<Node>, i: nat, p: Pass, ghost mems: seq<Mem>) returns (ok: bool, news: News)
      requires i < |nodes| == |mems| && Distinct(nodes) && Read(nodes[i..]) && TookTurns(mems, nodes, p, i, true)
      modifies this`absent, this`returned, this`downSince
      ensures Read(nodes[i + 1..]) && TookTurns(mems, nodes, p, i + 1, ok)
      ensures news == Turn(mems[i], nodes[i], p).news
      ensures forall id :: !Listed(nodes, id) ==> Memory(id) == old(Memory(id))
    {
      assert nodes[i..][0] == nodes[i] && nodes[i + 1..] == nodes[i..][1..];
      assert Listed(nodes, nodes[i].id);
      ok, news := Visit(nodes[i], p);
    }

    /** Nodes going offline and returning, in list order, until a store fails. */
    method Connectivity(nodes: seq<Node>, p: Pass) returns (ok: bool, down: seq<Id>, up: seq<Id>, ghost looked: nat)
      requires Distinct(nodes) && Read(nodes)
      modifies this`absent, this`returned, this`downSince
      ensures looked <= |nodes| && (ok ==> looked == |nodes|) && (!ok ==> looked > 0)
      ensures TookTurns(old(Memories(nodes)), nodes, p, looked, ok)
      ensures forall id :: !Listed(nodes, id) ==> Memory(id) == old(Memory(id))
      ensures ok ==> down == Named(old(Memories(nodes)), nodes, p, WentDown)
      ensures ok ==> up == Named(old(Memories(nodes)), nodes, p, CameBack)
    {
      ok, down, up, looked := true, [], [], 0;
      ghost var mems := Memories(nodes);
      for i := 0 to |nodes|
        invariant ok && looked == i && Read(nodes[i..])
        invariant TookTurns(mems, nodes, p, i, true)
        invariant forall id :: !Listed(nodes, id) ==> Memory(id) == old(Memory(id))
        invariant AreNamed(down, up, mems, nodes, p, i)
      {
        var fine, news := VisitAt(nodes, i, p, mems);
        looked := i + 1;
        if !fine {
          return false, [], [], looked;
        }
        NamedNext(down, up, mems, nodes, p, i);
        if news == WentDown { down := down + [nodes[i].id]; }
        if news == CameBack { up := up + [nodes[i].id]; }
      }
      assert mems[..|nodes|] == mems && nodes[..|nodes|] == nodes;
    }

    // One node's turn in the traffic loop.
    method Meter(n: Node, p: Pass) returns (tell: bool)
      modifies this`traffic
      ensures tell == (Metered(n, p) && Announces(primed, Get(old(traffic), n.id), Reached(n, p)))
      ensures traffic == if Metered(n, p) then old(traffic)[n.id := Reached(n, p)] else old(traffic)
    {
      tell := false;
      if n.limit > 0 && p.percent > 0 && p.cfg.armed && n.id in p.usage {
        var reached := Recorded(p.usage[n.id].period, Step(Used(n.mode, p.usage[n.id]), n.limit, p.percent));
        var last := Get(traffic, n.id);
        traffic := traffic[n.id := reached];
        var told := last.Some? && last.value.period == reached.period && last.value.step >= reached.step;
        tell := reached.step != 0 && !told && primed;
      }
    }

    /** Records every metered node's step, and names those whose step is announced. */
    method Crossings(nodes: seq<Node>, p: Pass) returns (metered: seq<Id>)
      requires Distinct(nodes)
      modifies this`traffic
      ensures metered == Crossed(primed, old(Steps(nodes)), nodes, p)
      ensures TookSteps(old(Steps(nodes)), nodes, p, |nodes|)
      ensures forall id :: !Listed(nodes, id) ==> (id in traffic <==> id in old(traffic))
    {
      metered := [];
      ghost var steps := Steps(nodes);
      for i := 0 to |nodes|
        invariant TookSteps(steps, nodes, p, i)
        invariant forall id :: !Listed(nodes, id) ==> (id in traffic <==> id in old(traffic))
        invariant metered == Crossed(primed, steps[..i], nodes[..i], p)
      {
        assert Listed(nodes, nodes[i].id);
        var told := Meter(nodes[i], p);
        CrossedStep(primed, steps, nodes, p, i);
        if told {
          metered := metered + [nodes[i].id];
        }
      }
      assert steps[..|nodes|] == steps && nodes[..|nodes|] == nodes;
    }

    /**
     * One pass. Every node looked at takes exactly its own turn from what was remembered
     * of it, in list order; a failed store ends the pass before the nodes behind it and
     * before any traffic is examined, and nothing is announced then.
     */
    method Sweep(nodes: seq<Node>, p: Pass)
      returns (ok: bool, down: seq<Id>, up: seq<Id>, metered: seq<Id>, ghost looked: nat)
      requires Distinct(nodes) && Read(nodes)
      modifies this
      ensures looked <= |nodes| && (ok ==> looked == |nodes|) && (!ok ==> looked > 0)
      ensures TookTurns(old(Memories(nodes)), nodes, p, looked, ok)
      ensures Forgotten(nodes, old(downSince))
      ensures ok ==> down == Named(old(Memories(nodes)), nodes, p, WentDown)
      ensures ok ==> up == Named(old(Memories(nodes)), nodes, p, CameBack)
      ensures ok ==> metered == Crossed(old(primed), old(Steps(nodes)), nodes, p)
      ensures TookSteps(old(Steps(nodes)), nodes, p, if ok then |nodes| else 0)
      ensures primed == (ok || old(primed))
      ensures !ok ==> down == up == metered == []
    {
      metered := [];
      ok, down, up, looked := Connect(nodes, p);
      if !ok {
        down, up := [], [];
        return;
      }
      metered := Crossings(nodes, p);
      primed := true;
    }

    // The part of a pass before the traffic.
    method Connect(nodes: seq<Node>, p: Pass) returns (ok: bool, down: seq<Id>, up: seq<Id>, ghost looked: nat)
      requires Distinct(nodes) && Read(nodes)
      modifies this`absent, this`returned, this`downSince, this`traffic
      ensures looked <= |nodes| && (ok ==> looked == |nodes|) && (!ok ==> looked > 0)
      ensures TookTurns(old(Memories(nodes)), nodes, p, looked, ok)
      ensures Forgotten(nodes, old(downSince)) && Steps(nodes) == old(Steps(nodes))
      ensures ok ==> down == Named(old(Memories(nodes)), nodes, p, WentDown)
      ensures ok ==> up == Named(old(Memories(nodes)), nodes, p, CameBack)
    {
      Retain(nodes);
      ok, down, up, looked := Connectivity(nodes, p);
    }

    ghost function Memories(nodes: seq<Node>): (r: seq<Mem>)
      reads this`absent, this`returned, this`downSince
      ensures |r| == |nodes| && forall k :: 0 <= k < |nodes| ==> r[k] == Memory(nodes[k].id)
    {
      if nodes == [] then [] else Memories(nodes[..|nodes| - 1]) + [Memory(nodes[|nodes| - 1].id)]
    }

    ghost function Steps(nodes: seq<Node>): (r: seq<Option<Recorded>>)
      reads this`traffic
      ensures |r| == |nodes| && forall k :: 0 <= k < |nodes| ==> r[k] == Get(traffic, nodes[k].id)
    {
      if nodes == [] then [] else Steps(nodes[..|nodes| - 1]) + [Get(traffic, nodes[|nodes| - 1].id)]
    }
  }

  predicate Listed(nodes: seq<Node>, id: Id) {
    exists i :: 0 <= i < |nodes| && nodes[i].id == id
  }

  /** The nodes, in list order, whose turn brings this news. */
  function Named(mems: seq<Mem>, nodes: seq<Node>, p: Pass, news: News): seq<Id>
    requires |mems| == |nodes|
  {
    if nodes == [] then []
    else
      var k := |nodes| - 1;
      Named(mems[..k], nodes[..k], p, news)
      + if Turn(mems[k], nodes[k], p).news == news then [nodes[k].id] else []
  }

  /** The nodes, in list order, whose traffic step is announced. */
  function Crossed(primed: bool, steps: seq<Option<Recorded>>, nodes: seq<Node>, p: Pass): seq<Id>
    requires |steps| == |nodes|
  {
    if nodes == [] then []
    else
      var k := |nodes| - 1;
      Crossed(primed, steps[..k], nodes[..k], p)
      + if Metered(nodes[k], p) && Announces(primed, steps[k], Reached(nodes[k], p)) then [nodes[k].id] else []
  }

  // `down` and `up` name the first `i` nodes that have such news.
  predicate AreNamed(down: seq<Id>, up: seq<Id>, mems: seq<Mem>, nodes: seq<Node>, p: Pass, i: nat)
    requires i <= |mems| == |nodes|
  {
    down == Named(mems[..i], nodes[..i], p, WentDown) && up == Named(mems[..i], nodes[..i], p, CameBack)
  }

  lemma NamedNext(down: seq<Id>, up: seq<Id>, mems: seq<Mem>, nodes: seq<Node>, p: Pass, i: nat)
    requires i < |mems| == |nodes| && AreNamed(down, up, mems, nodes, p, i)
    ensures var news, id := Turn(mems[i], nodes[i], p).news, nodes[i].id;
            AreNamed(down + (if news == WentDown then [id] else []), up + (if news == CameBack then [id] else []),
                     mems, nodes, p, i + 1)
  {
    NamedStep(mems, nodes, p, WentDown, i);
    NamedStep(mems, nodes, p, CameBack, i);
  }

  lemma NamedStep(mems: seq<Mem>, nodes: seq<Node>, p: Pass, news: News, i: nat)
    requires |mems| == |nodes| && i < |nodes|
    ensures Named(mems[..i + 1], nodes[..i + 1], p, news)
         == Named(mems[..i], nodes[..i], p, news)
            + if Turn(mems[i], nodes[i], p).news == news then [nodes[i].id] else []
  {
    assert mems[..i + 1][..i] == mems[..i] && nodes[..i + 1][..i] == nodes[..i];
  }

  lemma CrossedStep(primed: bool, steps: seq<Option<Recorded>>, nodes: seq<Node>, p: Pass, i: nat)
    requires |steps| == |nodes| && i < |nodes|
    ensures Crossed(primed, steps[..i + 1], nodes[..i + 1], p)
         == Crossed(primed, steps[..i], nodes[..i], p)
            + if Metered(nodes[i], p) && Announces(primed, steps[i], Reached(nodes[i], p)) then [nodes[i].id] else []
  {
    assert steps[..i + 1][..i] == steps[..i] && nodes[..i + 1][..i] == nodes[..i];
  }
}
