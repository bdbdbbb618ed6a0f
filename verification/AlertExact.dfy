/**
 * When exactly a sweep changes what is announced of a node (server/src/notify.rs), by what
 * happened to it before: restarts, rows that came and went and failed stores included.
 */
module AlertExact {
  import opened Options
  import opened AlertSweep
  import opened AlertRuns

  /** The hub's memory of a node does not outlive its process, nor the node's row. */
  predicate Forgets(e: Event) {
    e.Restart? || e.Unlisted?
  }

  /** The latest return from a long absence that the process can know of. */
  ghost predicate LatestReturn(trace: seq<Event>, q: nat) {
    LongReturn(trace, q) && forall k: nat :: q < k < |trace| ==> !Forgets(trace[k]) && !LongReturn(trace, k)
  }

  lemma OneLatestReturn(trace: seq<Event>, p: nat, q: nat)
    requires LatestReturn(trace, p) && LatestReturn(trace, q)
    ensures p == q
  {
  }

  lemma LatestReturnNext(trace: seq<Event>, q: nat)
    requires trace != []
    ensures var last := |trace| - 1;
            LatestReturn(trace, q) <==>
              if LongReturn(trace, last) then q == last
              else LatestReturn(trace[..last], q) && !Forgets(trace[last])
  {
    var last := |trace| - 1;
    forall k: nat | k < last ensures LongReturn(trace[..last], k) == LongReturn(trace, k) {
      LongReturnInPrefix(trace, k);
    }
  }

  /** What is remembered as returned is the latest return from a long absence. */
  lemma {:induction false} RemembersTheLatestReturn(start: Mem, trace: seq<Event>)
    requires start.absent == None && start.returned == None
    ensures var m := After(start, trace).returned;
            && (m.None? ==> forall q: nat :: !LatestReturn(trace, q))
            && (m.Some? ==> exists q: nat :: LatestReturn(trace, q) && trace[q].now == m.value)
  {
    if trace != [] {
      var last := |trace| - 1;
      var init, e := trace[..last], trace[last];
      RemembersTheLatestReturn(start, init);
      forall q: nat ensures LatestReturn(trace, q) <==>
        if LongReturn(trace, last) then q == last else LatestReturn(init, q) && !Forgets(e)
      {
        LatestReturnNext(trace, q);
      }
      if !Forgets(e) {
        ReturnRemembered(start, trace);
        var m := After(start, init).returned;
        if !LongReturn(trace, last) && m.Some? {
          var q: nat :| LatestReturn(init, q) && init[q].now == m.value;
          assert LatestReturn(trace, q);
        }
      }
    }
  }

  /** The absence that opened at `o` follows a return from a long one by less than an hour. */
  ghost predicate Flapping(trace: seq<Event>, o: nat)
    requires o < |trace| && trace[o].Looked?
  {
    exists q: nat :: LatestReturn(trace, q) && trace[o].now - trace[q].now < 3_600
  }

  /** Every condition but the store: the node is away, has reported and has alerts on, a
    * channel is set up, no absence is on record, and this one has lasted half an hour when
    * it follows a long one by less than an hour, and the grace otherwise. */
  ghost predicate OfflineDue(start: Mem, trace: seq<Event>, i: nat)
    requires i < |trace|
  {
    && trace[i].Looked? && trace[i].seen.Away? && trace[i].seen.lastSeen != 0
    && trace[i].seen.notify && trace[i].cfg.armed
    && After(start, trace[..i]).down == 0
    && exists o: nat ::
         && Opens(trace[..i + 1], o)
         && trace[i].now - trace[o].now >= if Flapping(trace[..i + 1], o) then 1_800 else trace[i].cfg.grace
  }

  lemma WaitInForce(start: Mem, trace: seq<Event>, i: nat, o: nat)
    requires start.absent == None && start.returned == None
    requires i < |trace| && trace[i].Looked? && trace[i].seen.Away? && Opens(trace[..i + 1], o)
    ensures Wait(After(start, trace[..i]).returned, trace[o].now, trace[i].cfg.grace)
         == if Flapping(trace[..i + 1], o) then 1_800 else trace[i].cfg.grace
  {
    var run := trace[..i + 1];
    AfterNext(start, trace, i);
    assert After(start, run).returned == After(start, trace[..i]).returned;
    RemembersTheLatestReturn(start, run);
    if q: nat :| LatestReturn(run, q) && run[o].now - run[q].now < 3_600 {
      var p: nat :| LatestReturn(run, p) && run[p].now == After(start, run).returned.value;
      OneLatestReturn(run, p, q);
    }
  }

  lemma OpenedWhenRemembered(start: Mem, trace: seq<Event>, i: nat) returns (o: nat)
    requires start.absent == None && i < |trace| && Tracks(trace[i])
    ensures Opens(trace[..i + 1], o)
    ensures var m := After(start, trace[..i]);
            trace[o].now == if m.absent.Some? then m.absent.value else trace[i].now
  {
    AfterNext(start, trace, i);
    AbsentHasOpening(start, trace[..i + 1]);
    o :| Opens(trace[..i + 1], o) && trace[..i + 1][o].now == After(start, trace[..i + 1]).absent.value;
  }

  // The same by what is remembered.
  lemma DueAsRemembered(start: Mem, trace: seq<Event>, i: nat)
    requires start.absent == None && start.returned == None && i < |trace| && Tracks(trace[i])
    ensures var e, m := trace[i], After(start, trace[..i]);
            var since := if m.absent.Some? then m.absent.value else e.now;
            OfflineDue(start, trace, i) <==>
              e.seen.notify && e.cfg.armed && m.down == 0 && e.now - since >= Wait(m.returned, since, e.cfg.grace)
  {
    var run := trace[..i + 1];
    var o := OpenedWhenRemembered(start, trace, i);
    WaitInForce(start, trace, i, o);
    forall p: nat | Opens(run, p) ensures p == o {
      OneOpening(run, p, o);
    }
  }

  /**
   * An offline change is stored exactly when it is due and the store works, over any run:
   * with restarts, rows that come and go, and failed stores.
   */
  lemma OfflineExactlyWhenDue(start: Mem, trace: seq<Event>, i: nat)
    requires start.absent == None && start.returned == None && i < |trace|
    ensures NewsAt(start, trace, i) == WentDown <==> OfflineDue(start, trace, i) && trace[i].stores
  {
    if Tracks(trace[i]) {
      DueAsRemembered(start, trace, i);
    }
  }

  /** A return is due whenever the node is online and its absence is on record. */
  predicate OnlineDue(start: Mem, trace: seq<Event>, i: nat)
    requires i < |trace|
  {
    trace[i].Looked? && trace[i].seen.Online? && After(start, trace[..i]).down > 0
  }

  /** A return is stored exactly when it is due and the store works. */
  lemma OnlineExactlyWhenDue(start: Mem, trace: seq<Event>, i: nat)
    requires i < |trace|
    ensures NewsAt(start, trace, i) == CameBack <==> OnlineDue(start, trace, i) && trace[i].stores
  {
  }

  /** A look fails, and so ends its sweep, exactly when a change is due and its store does not work. */
  lemma FailsExactlyAtAStore(start: Mem, trace: seq<Event>, i: nat)
    requires start.absent == None && start.returned == None && i < |trace| && trace[i].Looked?
    ensures var e := trace[i];
            !Look(After(start, trace[..i]), e.seen, e.now, e.cfg, e.stores).ok <==>
              !e.stores && (OfflineDue(start, trace, i) || OnlineDue(start, trace, i))
  {
    if Tracks(trace[i]) {
      DueAsRemembered(start, trace, i);
    }
  }

  /** The latest event that wrote the mark: a stored change, or the row's end. */
  predicate LastWrite(start: Mem, trace: seq<Event>, k: nat) {
    && k < |trace| && (Stored(start, trace, k) || trace[k].Unlisted?)
    && forall j: nat :: k < j < |trace| ==> !Stored(start, trace, j) && !trace[j].Unlisted?
  }

  /** The mark is the node's last report at the offline change that wrote it, and nothing after
    * a return or on a new row. */
  lemma {:induction false} MarkIsTheLastReport(start: Mem, trace: seq<Event>, k: nat)
    requires LastWrite(start, trace, k)
    ensures After(start, trace).down == if NewsAt(start, trace, k) == WentDown then trace[k].seen.lastSeen else 0
  {
    var last := |trace| - 1;
    LastWriteNext(start, trace, k);
    if k < last {
      MarkIsTheLastReport(start, trace[..last], k);
      assert trace[..last][..k] == trace[..k];
      assert !Stored(start, trace, last);
    }
  }

  /** Where nothing has written it, it is the one the run began with. */
  lemma {:induction false} MarkUntouched(start: Mem, trace: seq<Event>)
    requires forall k: nat :: k < |trace| ==> !Stored(start, trace, k) && !trace[k].Unlisted?
    ensures After(start, trace).down == start.down
  {
    if trace != [] {
      var last := |trace| - 1;
      var init := trace[..last];
      forall k: nat | k < last ensures !Stored(start, init, k) && !init[k].Unlisted? {
        assert init[..k] == trace[..k] && !Stored(start, trace, k);
      }
      MarkUntouched(start, init);
      assert !Stored(start, trace, last);
    }
  }

  lemma LastWriteNext(start: Mem, trace: seq<Event>, k: nat)
    requires trace != []
    ensures var last := |trace| - 1;
            LastWrite(start, trace, k) <==>
              if Stored(start, trace, last) || trace[last].Unlisted? then k == last
              else LastWrite(start, trace[..last], k)
  {
    var last := |trace| - 1;
    var init := trace[..last];
    forall j: nat | j < last ensures Stored(start, init, j) == Stored(start, trace, j) {
      assert init[..j] == trace[..j];
    }
  }
}
