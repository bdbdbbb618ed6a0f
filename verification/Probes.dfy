/**
 * The probe loops of one hub connection (agent/src/main.rs). A push replaces the
 * wanted list; the reconciler aborts what is no longer wanted, starts what is
 * new, and leaves an unchanged probe on the handle it has.
 */
module Probes {

  const MAX_PING_TASKS: nat := 64

  datatype Task = Task(id: int, target: string, interval: nat)

  type Handle = nat
  datatype Probe = Probe(task: Task, handle: Handle)

  function Ids(running: seq<Probe>): set<int> { set p <- running :: p.task.id }

  function TaskIds(wanted: seq<Task>): set<int> { set t <- wanted :: t.id }

  function Handles(running: seq<Probe>): set<Handle> { set p <- running :: p.handle }

  ghost function Upto(n: nat): (s: set<Handle>)
    ensures forall h: Handle :: h in s <==> h < n
  {
    if n == 0 then {} else Upto(n - 1) + {n - 1}
  }

  /** The first 64 wanted tasks. */
  function Kept(wanted: seq<Task>): (kept: seq<Task>)
    ensures kept <= wanted && (|kept| == 64 || (|kept| < 64 && kept == wanted))
  {
    if |wanted| > MAX_PING_TASKS then wanted[..MAX_PING_TASKS] else wanted
  }

  // Of several wanted tasks with one id, the one that is started.
  predicate First(task: Task, wanted: seq<Task>) {
    exists i: nat :: i < |wanted| && wanted[i] == task && forall j :: 0 <= j < i ==> wanted[j].id != task.id
  }

  /** No two loops share an id or a handle. */
  predicate Distinct(running: seq<Probe>) {
    forall i, j :: 0 <= i < j < |running| ==>
      running[i].task.id != running[j].task.id && running[i].handle != running[j].handle
  }

  class Session {
    var running: seq<Probe>
    // Handles spawned so far are 0, 1, ..., spawned - 1.
    var spawned: nat
    var aborted: set<Handle>

    /** Every handle ever spawned is running or aborted, and none is both. */
    ghost predicate Accounted()
      reads this
    {
      && Distinct(running)
      && Handles(running) !! aborted
      && Handles(running) + aborted == Upto(spawned)
    }

    ghost predicate Valid()
      reads this
    {
      Accounted() && |running| <= MAX_PING_TASKS
    }

    constructor ()
      ensures Valid() && running == [] && aborted == {}
    {
      running := [];
      spawned := 0;
      aborted := {};
    }

    // Keeps the probes the list still asks for and aborts the others.
    method Retain(wanted: seq<Task>)
      requires Valid()
      modifies this`running, this`aborted
      ensures Valid()
      ensures forall p :: p in running <==> p in old(running) && p.task in wanted
      ensures old(aborted) <= aborted
    {
      ghost var was := running;
      var kept: seq<Probe> := [];
      var dropped: set<Handle> := {};
      for i := 0 to |running|
        invariant running == was
        invariant forall p :: p in kept <==> p in was[..i] && p.task in wanted
        invariant |kept| <= i && Distinct(kept)
        invariant Handles(kept) + dropped == Handles(was[..i])
        invariant Handles(kept) !! dropped
      {
        assert was[..i + 1] == was[..i] + [was[i]];
        assert was[i].handle !in Handles(was[..i]);
        if running[i].task in wanted {
          assert forall k :: 0 <= k < |kept| ==> kept[k] in was[..i];
          kept := kept + [running[i]];
        } else {
          dropped := dropped + {running[i].handle};
        }
      }
      assert was[..|was|] == was;
      running := kept;
      aborted := aborted + dropped;
    }

    // One turn of the loop over the wanted list.
    method Start(task: Task)
      requires Accounted()
      modifies this`running, this`spawned
      ensures Accounted()
      ensures running == old(running) + if task.id in Ids(old(running)) then [] else [Probe(task, old(spawned))]
      ensures old(spawned) <= spawned
      ensures Ids(running) == Ids(old(running)) + {task.id}
    {
      if task.id !in Ids(running) {
        Appended(running, Probe(task, spawned));
        assert spawned !in Upto(spawned);
        running := running + [Probe(task, spawned)];
        spawned := spawned + 1;
      }
    }

    method Respawn(pushed: seq<Task>)
      requires Valid()
      modifies this
      ensures Valid()
      ensures Ids(running) == TaskIds(Kept(pushed))
      ensures forall p <- running :: p.task in Kept(pushed)
      ensures forall p <- old(running) :: p.task in Kept(pushed) <==> p in running
      ensures forall p <- running :: p in old(running) || (old(spawned) <= p.handle && First(p.task, Kept(pushed)))
      ensures old(aborted) <= aborted && old(spawned) <= spawned
    {
      var wanted := Kept(pushed);
      Retain(wanted);
      ghost var retained, once := running, aborted;
      for i := 0 to |wanted|
        invariant Accounted() && aborted == once && old(spawned) <= spawned
        invariant Ids(running) == Ids(retained) + TaskIds(wanted[..i])
        invariant forall p <- running :: p.task in wanted
        invariant forall p <- retained :: p in running
        invariant forall p <- running :: p in retained || (old(spawned) <= p.handle && First(p.task, wanted))
      {
        Extended(wanted, i);
        FirstAt(wanted, i);
        Start(wanted[i]);
      }
      assert wanted[..|wanted|] == wanted;
      DistinctIdsFit(running, wanted);
    }

    // The loop that ends a session.
    method AbortAll()
      requires Valid()
      modifies this`aborted
      ensures aborted == Upto(spawned)
    {
      ghost var before := aborted;
      for i := 0 to |running|
        invariant aborted == before + Handles(running[..i])
      {
        assert running[..i + 1] == running[..i] + [running[i]];
        aborted := aborted + {running[i].handle};
      }
      assert running[..|running|] == running;
    }
  }

  lemma Appended(running: seq<Probe>, p: Probe)
    ensures Ids(running + [p]) == Ids(running) + {p.task.id}
    ensures Handles(running + [p]) == Handles(running) + {p.handle}
  {
  }

  lemma Extended(wanted: seq<Task>, i: nat)
    requires i < |wanted|
    ensures TaskIds(wanted[..i + 1]) == TaskIds(wanted[..i]) + {wanted[i].id}
  {
    assert wanted[..i + 1] == wanted[..i] + [wanted[i]];
  }

  lemma FirstAt(wanted: seq<Task>, i: nat)
    requires i < |wanted|
    ensures wanted[i].id !in TaskIds(wanted[..i]) ==> First(wanted[i], wanted)
  {
    assert forall j :: 0 <= j < i ==> wanted[j] in wanted[..i];
  }

  lemma {:induction false} TaskIdsFit(wanted: seq<Task>)
    ensures |TaskIds(wanted)| <= |wanted|
  {
    if wanted != [] {
      var n := |wanted| - 1;
      Extended(wanted, n);
      assert wanted[..n + 1] == wanted;
      TaskIdsFit(wanted[..n]);
    }
  }

  lemma {:induction false} DistinctIdsCount(running: seq<Probe>)
    requires Distinct(running)
    ensures |Ids(running)| == |running|
  {
    if running != [] {
      var n := |running| - 1;
      assert running == running[..n] + [running[n]];
      Appended(running[..n], running[n]);
      DistinctIdsCount(running[..n]);
    }
  }

  lemma DistinctIdsFit(running: seq<Probe>, wanted: seq<Task>)
    requires Distinct(running) && Ids(running) <= TaskIds(wanted) && |wanted| <= MAX_PING_TASKS
    ensures |running| <= MAX_PING_TASKS
  {
    DistinctIdsCount(running);
    TaskIdsFit(wanted);
    Within(Ids(running), TaskIds(wanted));
  }

  lemma {:induction false} Within(a: set<int>, b: set<int>)
    requires a <= b
    ensures |a| <= |b|
  {
    assert b == a + (b - a) && a !! (b - a);
  }

  /** A whole session: the pushed lists in order, then the end of the connection. */
  method Serve(pushes: seq<seq<Task>>) returns (s: Session)
    ensures s.aborted == Upto(s.spawned)
    ensures Handles(s.running) <= s.aborted
    ensures pushes != [] ==> Ids(s.running) == TaskIds(Kept(pushes[|pushes| - 1]))
  {
    s := new Session();
    for i := 0 to |pushes|
      invariant fresh(s) && s.Valid()
      invariant i > 0 ==> Ids(s.running) == TaskIds(Kept(pushes[i - 1]))
    {
      s.Respawn(pushes[i]);
    }
    s.AbortAll();
  }
}
