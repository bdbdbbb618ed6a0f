/**
 * Updating the country database (server/src/geo.rs): a download that may be
 * cancelled, and a commit that must not be. Each step is one access to shared
 * state; a lock taken and dropped around a single access is that one step, and a
 * lock held across several is explicit.
 */
module GeoUpdate {
  import opened Options

  const MAX_BYTES: nat := 32 * 1024 * 1024

  /** A database as bytes: how many, whether they verify, and which they are. */
  datatype Bytes = Bytes(size: nat, verifies: bool, content: nat)

  // What `Geo::new` makes of the file.
  function Load(file: Option<Bytes>): Option<Bytes> {
    match file
    case Some(b) => if b.size <= MAX_BYTES && b.verifies then Some(b) else None
    case None => None
  }

  datatype Install = Got | Validated | Checked | Written | Locked | Renaming | Swapping | Swapped | Cleaning
  datatype Close = Judged | Marked | Reporting

  /** Where one update is, from its request to its end. `flag` is what the token
    * said before a failure cancels it. */
  datatype Phase =
    | Fresh | Rejected | Claimed | Fetching
    | Installing(bytes: Bytes, at: Install)
    | Failed | Committed
    | Closing(ok: bool, flag: bool, to: Close)
    | Done(ok: bool, flag: bool)

  datatype Report = Idle | Downloading | Complete | Cancelled | Error

  datatype State = State(
    active: Option<nat>,          // the token of the update under way
    activeLock: Option<nat>,      // held across the commit section
    statusLock: Option<nat>,      // held while an ending update clears `active`
    report: Report,
    configured: bool,
    reader: Option<Bytes>,
    readers: nat,                 // lookups holding the reader lock
    file: Option<Bytes>,
    temp: Option<Bytes>,
    cancelled: set<nat>,
    committed: set<nat>,          // updates whose database became the reader's
    last: Option<nat>,            // the update that ended last
    updates: map<nat, Phase>,
    cancels: map<nat, Option<Option<nat>>>)  // pending, or the token it met

  predicate IsInit(s: State) {
    && s.active.None? && s.activeLock.None? && s.statusLock.None? && s.report.Idle?
    && s.reader == Load(s.file) && s.configured == s.reader.Some? && s.last.None?
    && s.cancelled == {} && s.committed == {}
    && (forall u <- s.updates :: s.updates[u].Fresh?)
    && (forall c <- s.cancels :: s.cancels[c].None?)
  }

  datatype FetchEnd = Arrives(bytes: Bytes) | Breaks | SeesCancel

  datatype Label =
    | Claim(u: nat)
    | Announce(u: nat)
    | FetchEnds(u: nat, how: FetchEnd)
    | Prepare(u: nat, works: bool)    // validate, first check, temporary file
    | Enter(u: nat)                   // take the active lock
    | Check(u: nat)                   // the check under the lock
    | Rename(u: nat, works: bool)
    | Swap(u: nat)
    | Leave(u: nat)                   // drop the lock after the swap
    | Clean(u: nat)
    | Close(u: nat)
    | Cancel(c: nat)
    | LookupStarts | LookupEnds

  // The update `u` moves on to `p`.
  function To(s: State, u: nat, p: Phase): State {
    s.(updates := s.updates[u := p])
  }

  predicate StartNext(s: State, t: State, l: Label) {
    match l
    case Claim(u) =>
      u in s.updates && s.updates[u].Fresh? && s.activeLock.None?
      && t == if s.active.Some? then To(s, u, Rejected) else To(s, u, Claimed).(active := Some(u))
    case Announce(u) =>
      u in s.updates && s.updates[u].Claimed? && s.statusLock.None?
      && t == To(s, u, Fetching).(report := Downloading)
    case FetchEnds(u, how) =>
      u in s.updates && s.updates[u].Fetching?
      && (match how
          case Arrives(bytes) => bytes.size <= MAX_BYTES && t == To(s, u, Installing(bytes, Got))
          case Breaks => t == To(s, u, Failed)
          case SeesCancel => u in s.cancelled && t == To(s, u, Failed))
    case _ => false
  }

  predicate PrepareNext(s: State, t: State, u: nat, works: bool) {
    && u in s.updates && s.updates[u].Installing?
    && var b := s.updates[u].bytes;
       match s.updates[u].at
       case Got => t == To(s, u, if b.verifies then Installing(b, Validated) else Failed)
       case Validated => t == To(s, u, if u in s.cancelled then Failed else Installing(b, Checked))
       case Checked =>
         if works then t == To(s, u, Installing(b, Written)).(temp := Some(b))
         else t == To(s, u, Failed) || t == To(s, u, Installing(b, Cleaning)).(temp := t.temp)
       case _ => false
  }

  predicate CommitNext(s: State, t: State, l: Label) {
    match l
    case Enter(u) =>
      u in s.updates && s.updates[u].Installing? && s.updates[u].at.Written? && s.activeLock.None?
      && t == To(s, u, Installing(s.updates[u].bytes, Locked)).(activeLock := Some(u))
    case Check(u) =>
      u in s.updates && s.updates[u].Installing? && s.updates[u].at.Locked?
      && var b := s.updates[u].bytes;
         t == if u in s.cancelled then To(s, u, Installing(b, Cleaning)).(activeLock := None)
              else To(s, u, Installing(b, Renaming))
    case Rename(u, works) =>
      u in s.updates && s.updates[u].Installing? && s.updates[u].at.Renaming?
      && var b := s.updates[u].bytes;
         t == if works then To(s, u, Installing(b, Swapping)).(file := s.temp, temp := None)
              else To(s, u, Installing(b, Cleaning)).(activeLock := None)
    case Swap(u) =>
      u in s.updates && s.updates[u].Installing? && s.updates[u].at.Swapping? && s.readers == 0
      && var b := s.updates[u].bytes;
         t == To(s, u, Installing(b, Swapped)).(reader := Some(b), committed := s.committed + {u})
    case Leave(u) =>
      u in s.updates && s.updates[u].Installing? && s.updates[u].at.Swapped?
      && t == To(s, u, Committed).(activeLock := None)
    case Clean(u) =>
      u in s.updates && s.updates[u].Installing? && s.updates[u].at.Cleaning?
      && t == To(s, u, Failed).(temp := None)
    case _ => false
  }

  predicate CloseNext(s: State, t: State, u: nat) {
    && u in s.updates
    && match s.updates[u]
       case Committed => t == To(s, u, Closing(true, u in s.cancelled, Judged))
       case Failed => t == To(s, u, Closing(false, u in s.cancelled, Judged))
       case Closing(ok, flag, Judged) =>
         t == To(s, u, Closing(ok, flag, Marked)).(cancelled := if ok then s.cancelled else s.cancelled + {u})
       case Closing(ok, flag, Marked) =>
         s.statusLock.None?
         && t == To(s, u, Closing(ok, flag, Reporting)).(
                   statusLock := Some(u), report := Verdict(ok, flag), configured := ok || s.configured)
       case Closing(ok, flag, Reporting) =>
         s.activeLock.None?
         && t == To(s, u, Done(ok, flag)).(active := None, statusLock := None, last := Some(u))
       case _ => false
  }

  function Verdict(ok: bool, flag: bool): Report {
    if ok then Complete else if flag then Cancelled else Error
  }

  predicate OtherNext(s: State, t: State, l: Label) {
    match l
    case Cancel(c) =>
      c in s.cancels && s.cancels[c].None? && s.activeLock.None?
      && t == s.(cancels := s.cancels[c := Some(s.active)],
                 cancelled := if s.active.Some? then s.cancelled + {s.active.value} else s.cancelled)
    // The writer waits for lookups and they for it; its own swap is one step.
    case LookupStarts => t == s.(readers := s.readers + 1)
    case LookupEnds => s.readers > 0 && t == s.(readers := s.readers - 1)
    case _ => false
  }

  predicate Next(s: State, t: State, l: Label) {
    || StartNext(s, t, l)
    || (l.Prepare? && PrepareNext(s, t, l.u, l.works))
    || CommitNext(s, t, l)
    || (l.Close? && CloseNext(s, t, l.u))
    || OtherNext(s, t, l)
  }

  predicate IsRun(run: seq<State>, labels: seq<Label>) {
    && |run| == |labels| + 1
    && forall i :: 0 <= i < |labels| ==> Next(run[i], run[i + 1], labels[i])
  }

  // -------------------------------------------------------------- invariant

  // From the claim to the end.
  predicate Underway(p: Phase) {
    !p.Fresh? && !p.Rejected? && !p.Done?
  }

  // Inside the commit section, with the active lock.
  predicate Inside(p: Phase) {
    p.Installing? && (p.at.Locked? || p.at.Renaming? || p.at.Swapping? || p.at.Swapped?)
  }

  // Past the check that decides.
  predicate Decided(p: Phase) {
    || (p.Installing? && (p.at.Renaming? || p.at.Swapping? || p.at.Swapped?))
    || p.Committed? || (p.Closing? && p.ok) || (p.Done? && p.ok)
  }

  predicate HasCommitted(p: Phase) {
    (p.Installing? && p.at.Swapped?) || p.Committed? || (p.Closing? && p.ok) || (p.Done? && p.ok)
  }

  predicate Held(p: Phase) {
    p.Closing? && p.to.Reporting?
  }

  /** One update at a time, holding the locks its phase says. */
  predicate Owns(s: State, u: nat)
    requires u in s.updates
  {
    var p := s.updates[u];
    && (Underway(p) <==> s.active == Some(u))
    && (Inside(p) <==> s.activeLock == Some(u))
    && (Held(p) <==> s.statusLock == Some(u))
    && (HasCommitted(p) <==> u in s.committed)
    && (p.Fresh? || p.Rejected? ==> u !in s.cancelled)
    && (s.last == Some(u) ==> p.Done?)
  }

  predicate Owners(s: State) {
    && (s.active.Some? ==> s.active.value in s.updates)
    && (s.activeLock.Some? ==> s.activeLock == s.active)
    && (s.statusLock.Some? ==> s.statusLock == s.active)
    && (s.last.Some? ==> s.last.value in s.updates)
    && forall u <- s.updates :: Owns(s, u)
  }

  /** The bytes an update works on, and where they are by now. */
  predicate Bytewise(s: State, p: Phase) {
    p.Installing? ==>
      && p.bytes.size <= MAX_BYTES
      && (!p.at.Got? ==> p.bytes.verifies)
      && (p.at.Written? || p.at.Locked? || p.at.Renaming? ==> s.temp == Some(p.bytes))
      && (p.at.Swapping? || p.at.Swapped? ==> s.file == Some(p.bytes))
  }

  predicate Current(s: State): (b: bool) {
    s.active.Some? ==> s.active.value in s.updates && Bytewise(s, s.updates[s.active.value])
  }

  predicate MidCommit(s: State) {
    && s.active.Some? && s.active.value in s.updates
    && s.updates[s.active.value].Installing? && s.updates[s.active.value].at.Swapping?
  }

  /** The reader holds the database of the file, but between rename and swap. */
  predicate InStep(s: State) {
    && (!MidCommit(s) ==> s.reader == Load(s.file))
    && (s.committed != {} ==> s.reader.Some?)
  }

  // What the status says, whatever the moment.
  predicate Reported(s: State) {
    && (s.configured ==> s.reader.Some?)
    && match s.active
       case Some(u) =>
         u in s.updates
         && (match s.updates[u]
             case Claimed => ReportsLast(s)
             case Closing(ok, flag, to) => s.report == if to.Reporting? then Verdict(ok, flag) else Downloading
             case _ => s.report == Downloading)
       case None => ReportsLast(s)
  }

  predicate ReportsLast(s: State) {
    match s.last
    case None => s.report.Idle?
    case Some(u) => u in s.updates && s.updates[u].Done? && s.report == Verdict(s.updates[u].ok, s.updates[u].flag)
  }

  predicate Inv(s: State) {
    Owners(s) && Current(s) && InStep(s) && Reported(s)
  }

  lemma InitKeepsInv(s: State)
    requires IsInit(s)
    ensures Inv(s)
  {
  }

  predicate Moved(before: Option<nat>, after: Option<nat>, u: nat) {
    after == before || ((before == None || before == Some(u)) && (after == None || after == Some(u)))
  }

  // Only the phase of `u`, and what belongs to `u`, differs.
  predicate OnlyAbout(s: State, t: State, u: nat) {
    && u in s.updates && u in t.updates && t.updates == s.updates[u := t.updates[u]]
    && Moved(s.active, t.active, u) && Moved(s.activeLock, t.activeLock, u) && Moved(s.statusLock, t.statusLock, u)
    && (t.last == s.last || t.last == Some(u))
    && (t.committed == s.committed || t.committed == s.committed + {u})
    && (t.cancelled == s.cancelled || t.cancelled == s.cancelled + {u})
  }

  lemma OwnersKept(s: State, t: State, u: nat)
    requires Owners(s) && OnlyAbout(s, t, u) && Owns(t, u)
    requires t.activeLock.Some? ==> t.activeLock == t.active
    requires t.statusLock.Some? ==> t.statusLock == t.active
    ensures Owners(t)
  {
    forall v | v in t.updates
      ensures Owns(t, v)
    {
      assert Owns(s, v);
    }
  }

  lemma StartKeepsOwners(s: State, t: State, l: Label)
    requires Inv(s) && StartNext(s, t, l)
    ensures Owners(t)
  {
    assert Owns(s, l.u);
    OwnersKept(s, t, l.u);
  }

  lemma StartKeepsFiles(s: State, t: State, l: Label)
    requires Inv(s) && StartNext(s, t, l)
    ensures Current(t) && InStep(t)
  {
  }

  lemma StartKeepsReport(s: State, t: State, l: Label)
    requires Inv(s) && StartNext(s, t, l)
    ensures Reported(t)
  {
  }

  lemma StartKeepsInv(s: State, t: State, l: Label)
    requires Inv(s) && StartNext(s, t, l)
    ensures Inv(t)
  {
    StartKeepsOwners(s, t, l);
    StartKeepsFiles(s, t, l);
    StartKeepsReport(s, t, l);
  }

  lemma PrepareKeepsOwners(s: State, t: State, u: nat, works: bool)
    requires Inv(s) && PrepareNext(s, t, u, works)
    ensures Owners(t)
  {
    assert Owns(s, u);
    OwnersKept(s, t, u);
  }

  lemma PrepareKeepsFiles(s: State, t: State, u: nat, works: bool)
    requires Inv(s) && PrepareNext(s, t, u, works)
    ensures Current(t) && InStep(t)
  {
  }

  lemma PrepareKeepsReport(s: State, t: State, u: nat, works: bool)
    requires Inv(s) && PrepareNext(s, t, u, works)
    ensures Reported(t)
  {
  }

  lemma PrepareKeepsInv(s: State, t: State, u: nat, works: bool)
    requires Inv(s) && PrepareNext(s, t, u, works)
    ensures Inv(t)
  {
    PrepareKeepsOwners(s, t, u, works);
    PrepareKeepsFiles(s, t, u, works);
    PrepareKeepsReport(s, t, u, works);
  }

  lemma EntryIsAboutOne(s: State, t: State, l: Label)
    requires Inv(s) && CommitNext(s, t, l) && (l.Enter? || l.Check? || l.Clean?)
    ensures OnlyAbout(s, t, l.u) && Owns(t, l.u)
  {
    assert Owns(s, l.u);
  }

  lemma SwapIsAboutOne(s: State, t: State, l: Label)
    requires Inv(s) && CommitNext(s, t, l) && (l.Rename? || l.Swap? || l.Leave?)
    ensures OnlyAbout(s, t, l.u) && Owns(t, l.u)
  {
    assert Owns(s, l.u);
  }

  lemma CommitIsAboutOne(s: State, t: State, l: Label)
    requires Inv(s) && CommitNext(s, t, l)
    ensures OnlyAbout(s, t, l.u) && Owns(t, l.u)
  {
    if l.Enter? || l.Check? || l.Clean? {
      EntryIsAboutOne(s, t, l);
    } else {
      SwapIsAboutOne(s, t, l);
    }
  }

  lemma CommitKeepsOwners(s: State, t: State, l: Label)
    requires Inv(s) && CommitNext(s, t, l)
    ensures Owners(t)
  {
    CommitIsAboutOne(s, t, l);
    OwnersKept(s, t, l.u);
  }

  lemma CommitKeepsFiles(s: State, t: State, l: Label)
    requires Inv(s) && CommitNext(s, t, l)
    ensures Current(t) && InStep(t)
  {
  }

  lemma CommitKeepsReport(s: State, t: State, l: Label)
    requires Inv(s) && CommitNext(s, t, l)
    ensures Reported(t)
  {
  }

  lemma CommitKeepsInv(s: State, t: State, l: Label)
    requires Inv(s) && CommitNext(s, t, l)
    ensures Inv(t)
  {
    CommitKeepsOwners(s, t, l);
    CommitKeepsFiles(s, t, l);
    CommitKeepsReport(s, t, l);
  }

  lemma CloseKeepsOwners(s: State, t: State, u: nat)
    requires Inv(s) && CloseNext(s, t, u)
    ensures Owners(t)
  {
    assert Owns(s, u);
    OwnersKept(s, t, u);
  }

  lemma CloseKeepsFiles(s: State, t: State, u: nat)
    requires Inv(s) && CloseNext(s, t, u)
    ensures Current(t) && InStep(t)
  {
  }

  lemma CloseKeepsReport(s: State, t: State, u: nat)
    requires Inv(s) && CloseNext(s, t, u)
    ensures Reported(t)
  {
  }

  lemma CloseKeepsInv(s: State, t: State, u: nat)
    requires Inv(s) && CloseNext(s, t, u)
    ensures Inv(t)
  {
    CloseKeepsOwners(s, t, u);
    CloseKeepsFiles(s, t, u);
    CloseKeepsReport(s, t, u);
  }

  lemma OtherKeepsOwners(s: State, t: State, l: Label)
    requires Inv(s) && OtherNext(s, t, l)
    ensures Owners(t)
  {
    forall v | v in t.updates
      ensures Owns(t, v)
    {
      assert Owns(s, v);
    }
  }

  lemma OtherKeepsFiles(s: State, t: State, l: Label)
    requires Inv(s) && OtherNext(s, t, l)
    ensures Current(t) && InStep(t)
  {
  }

  lemma OtherKeepsReport(s: State, t: State, l: Label)
    requires Inv(s) && OtherNext(s, t, l)
    ensures Reported(t)
  {
  }

  lemma OtherKeepsInv(s: State, t: State, l: Label)
    requires Inv(s) && OtherNext(s, t, l)
    ensures Inv(t)
  {
    OtherKeepsOwners(s, t, l);
    OtherKeepsFiles(s, t, l);
    OtherKeepsReport(s, t, l);
  }

  lemma NextKeepsInv(s: State, t: State, l: Label)
    requires Inv(s) && Next(s, t, l)
    ensures Inv(t)
  {
    if StartNext(s, t, l) {
      StartKeepsInv(s, t, l);
    } else if l.Prepare? && PrepareNext(s, t, l.u, l.works) {
      PrepareKeepsInv(s, t, l.u, l.works);
    } else if CommitNext(s, t, l) {
      CommitKeepsInv(s, t, l);
    } else if l.Close? && CloseNext(s, t, l.u) {
      CloseKeepsInv(s, t, l.u);
    } else {
      OtherKeepsInv(s, t, l);
    }
  }

  // --------------------------------------------------------------- theorems

  lemma {:induction false} RunKeepsInv(run: seq<State>, labels: seq<Label>, i: nat)
    requires IsRun(run, labels) && IsInit(run[0]) && i < |run|
    ensures Inv(run[i])
  {
    if i == 0 {
      InitKeepsInv(run[0]);
    } else {
      RunKeepsInv(run, labels, i - 1);
      assert Next(run[i - 1], run[i - 1 + 1], labels[i - 1]);
      NextKeepsInv(run[i - 1], run[i], labels[i - 1]);
    }
  }

  /** At most one update is between its claim and its end. */
  lemma OneUpdateAtATime(run: seq<State>, labels: seq<Label>, i: nat, u: nat, v: nat)
    requires IsRun(run, labels) && IsInit(run[0]) && i < |run|
    requires u in run[i].updates && Underway(run[i].updates[u])
    requires v in run[i].updates && Underway(run[i].updates[v])
    ensures u == v
  {
    RunKeepsInv(run, labels, i);
    assert Owns(run[i], u) && Owns(run[i], v);
  }

  // Cancelled before the check that decides.
  predicate Doomed(s: State, u: nat) {
    u in s.updates && u in s.cancelled && !Decided(s.updates[u])
  }

  lemma CommitLeavesDoomed(s: State, t: State, l: Label, u: nat)
    requires CommitNext(s, t, l) && Doomed(s, u)
    ensures Doomed(t, u)
  {
  }

  lemma DoomedStays(s: State, t: State, l: Label, u: nat)
    requires Next(s, t, l) && Doomed(s, u)
    ensures Doomed(t, u)
  {
    if StartNext(s, t, l) {
    } else if l.Prepare? && PrepareNext(s, t, l.u, l.works) {
    } else if CommitNext(s, t, l) {
      CommitLeavesDoomed(s, t, l, u);
    }
  }

  lemma CommittedStays(s: State, t: State, l: Label, u: nat)
    requires Next(s, t, l) && u in s.committed
    ensures u in t.committed
  {
  }

  lemma {:induction false} DoomedForGood(run: seq<State>, labels: seq<Label>, i: nat, j: nat, u: nat)
    requires IsRun(run, labels) && IsInit(run[0]) && i <= j < |run| && Doomed(run[i], u)
    ensures Doomed(run[j], u)
  {
    if i < j {
      DoomedForGood(run, labels, i, j - 1, u);
      RunKeepsInv(run, labels, j - 1);
      assert Next(run[j - 1], run[j - 1 + 1], labels[j - 1]);
      DoomedStays(run[j - 1], run[j], labels[j - 1], u);
    }
  }

  lemma {:induction false} CommittedForGood(run: seq<State>, labels: seq<Label>, i: nat, j: nat, u: nat)
    requires IsRun(run, labels) && i <= j < |run| && u in run[i].committed
    ensures u in run[j].committed
  {
    if i < j {
      CommittedForGood(run, labels, i, j - 1, u);
      assert Next(run[j - 1], run[j - 1 + 1], labels[j - 1]);
      CommittedStays(run[j - 1], run[j], labels[j - 1], u);
    }
  }

  lemma CancelMeets(s: State, t: State, c: nat, u: nat)
    requires Inv(s) && Next(s, t, Cancel(c)) && s.active == Some(u)
    ensures u in s.committed || Doomed(t, u)
    ensures t.committed == s.committed
  {
    assert Owns(s, u);
  }

  /** A cancel falls before the commit section of the update it meets or after it:
    * once it has been answered, that update has committed already or never will. */
  lemma CancelDecides(run: seq<State>, labels: seq<Label>, i: nat, j: nat, c: nat, u: nat)
    requires IsRun(run, labels) && IsInit(run[0]) && i < j < |run|
    requires labels[i] == Cancel(c) && run[i].active == Some(u)
    ensures u in run[j].committed <==> u in run[i].committed
    ensures u !in run[i].committed ==> u in run[j].updates && !Decided(run[j].updates[u])
  {
    RunKeepsInv(run, labels, i);
    RunKeepsInv(run, labels, j);
    assert Next(run[i], run[i + 1], labels[i]);
    CancelMeets(run[i], run[i + 1], c, u);
    if u in run[i].committed {
      CommittedForGood(run, labels, i, j, u);
    } else {
      DoomedForGood(run, labels, i + 1, j, u);
      assert Owns(run[j], u);
    }
  }

  /** Outside the swap, reader and file hold the same verified database. */
  lemma ReaderHoldsTheFile(run: seq<State>, labels: seq<Label>, i: nat)
    requires IsRun(run, labels) && IsInit(run[0]) && i < |run|
    ensures run[i].activeLock.None? ==> run[i].reader == Load(run[i].file)
    ensures run[i].reader != Load(run[i].file) ==>
      exists u :: u in run[i].updates && run[i].active == Some(u)
               && run[i].updates[u].Installing? && run[i].updates[u].at.Swapping?
               && run[i].file == Some(run[i].updates[u].bytes) == Load(run[i].file)
  {
    RunKeepsInv(run, labels, i);
    var s := run[i];
    if MidCommit(s) {
      assert Owns(s, s.active.value);
    }
  }

  lemma OnlyRenameWrites(s: State, t: State, l: Label)
    requires Next(s, t, l) && t.file != s.file
    ensures l.Rename? && CommitNext(s, t, l)
  {
  }

  lemma RenameLoads(s: State, t: State, l: Label)
    requires Inv(s) && l.Rename? && CommitNext(s, t, l)
    ensures t.file == s.file || Load(t.file).Some?
  {
    assert Owns(s, l.u);
  }

  lemma StepKeepsLoadable(s: State, t: State, l: Label)
    requires Inv(s) && Next(s, t, l)
    ensures t.file == s.file || Load(t.file).Some?
  {
    if t.file != s.file {
      OnlyRenameWrites(s, t, l);
      RenameLoads(s, t, l);
    }
  }

  /** Stopping the hub at any moment leaves a database that loads, if there was
    * one, or once an update has committed. */
  lemma {:induction false} FileStaysLoadable(run: seq<State>, labels: seq<Label>, i: nat, j: nat)
    requires IsRun(run, labels) && IsInit(run[0]) && i <= j < |run|
    requires Load(run[i].file).Some? || run[i].committed != {}
    ensures Load(run[j].file).Some?
  {
    RunKeepsInv(run, labels, i);
    if i == j {
      ReaderHoldsTheFile(run, labels, i);
    } else {
      FileStaysLoadable(run, labels, i, j - 1);
      RunKeepsInv(run, labels, j - 1);
      assert Next(run[j - 1], run[j - 1 + 1], labels[j - 1]);
      StepKeepsLoadable(run[j - 1], run[j], labels[j - 1]);
    }
  }

  // The token of `u` says "cancelled", or said so when the verdict was taken.
  predicate Flagged(s: State, u: nat)
    requires u in s.updates
  {
    match s.updates[u]
    case Closing(_, flag, _) => flag
    case Done(_, flag) => flag
    case _ => u in s.cancelled
  }

  /** Step `a` is a cancel that met `u` while its verdict was still to be taken. */
  predicate Met(run: seq<State>, labels: seq<Label>, a: nat, u: nat) {
    && a < |labels| && a < |run| && labels[a].Cancel?
    && run[a].active == Some(u) && u in run[a].updates && !run[a].updates[u].Closing?
  }

  lemma StartKeepsFlags(s: State, t: State, l: Label, u: nat)
    requires StartNext(s, t, l)
    ensures u in t.updates <==> u in s.updates
    ensures u in s.updates ==> (Flagged(t, u) <==> Flagged(s, u))
  {
  }

  lemma PrepareKeepsFlags(s: State, t: State, v: nat, works: bool, u: nat)
    requires PrepareNext(s, t, v, works)
    ensures u in t.updates <==> u in s.updates
    ensures u in s.updates ==> (Flagged(t, u) <==> Flagged(s, u))
  {
  }

  lemma CommitKeepsFlags(s: State, t: State, l: Label, u: nat)
    requires CommitNext(s, t, l)
    ensures u in t.updates <==> u in s.updates
    ensures u in s.updates ==> (Flagged(t, u) <==> Flagged(s, u))
  {
  }

  lemma CloseKeepsFlags(s: State, t: State, v: nat, u: nat)
    requires CloseNext(s, t, v)
    ensures u in t.updates <==> u in s.updates
    ensures u in s.updates ==> (Flagged(t, u) <==> Flagged(s, u))
  {
  }

  lemma CancelFlags(s: State, t: State, l: Label, u: nat)
    requires Inv(s) && OtherNext(s, t, l)
    ensures u in t.updates <==> u in s.updates
    ensures u in s.updates ==>
      (Flagged(t, u) <==> Flagged(s, u) || (l.Cancel? && s.active == Some(u) && !s.updates[u].Closing?))
  {
    assert u in s.updates ==> Owns(s, u);
  }

  lemma StepFlags(s: State, t: State, l: Label, u: nat)
    requires Inv(s) && Next(s, t, l)
    ensures u in t.updates <==> u in s.updates
    ensures u in s.updates ==>
      (Flagged(t, u) <==> Flagged(s, u) || (l.Cancel? && s.active == Some(u) && !s.updates[u].Closing?))
  {
    if StartNext(s, t, l) {
      StartKeepsFlags(s, t, l, u);
    } else if l.Prepare? && PrepareNext(s, t, l.u, l.works) {
      PrepareKeepsFlags(s, t, l.u, l.works, u);
    } else if CommitNext(s, t, l) {
      CommitKeepsFlags(s, t, l, u);
    } else if l.Close? && CloseNext(s, t, l.u) {
      CloseKeepsFlags(s, t, l.u, u);
    } else {
      CancelFlags(s, t, l, u);
    }
  }

  lemma FlagsAt(run: seq<State>, labels: seq<Label>, i: nat, u: nat)
    requires IsRun(run, labels) && IsInit(run[0]) && i < |labels|
    ensures u in run[i + 1].updates <==> u in run[i].updates
    ensures u in run[i].updates ==> (Flagged(run[i + 1], u) <==> Flagged(run[i], u) || Met(run, labels, i, u))
  {
    RunKeepsInv(run, labels, i);
    StepFlags(run[i], run[i + 1], labels[i], u);
  }

  /** At any moment an update is flagged exactly when some cancel met it in time. */
  lemma {:induction false} FlaggedExactlyWhenMet(run: seq<State>, labels: seq<Label>, i: nat, u: nat)
    requires IsRun(run, labels) && IsInit(run[0]) && i < |run| && u in run[i].updates
    ensures Flagged(run[i], u) <==> exists a :: 0 <= a < i && Met(run, labels, a, u)
  {
    if i > 0 {
      FlagsAt(run, labels, i - 1, u);
      FlaggedExactlyWhenMet(run, labels, i - 1, u);
    }
  }

  /** Between updates the status reads `complete` exactly when the last one
    * committed, and `cancelled` exactly when it did not and a cancel had met it
    * before its verdict was taken. */
  lemma StatusTellsTheOutcome(run: seq<State>, labels: seq<Label>, i: nat, u: nat)
    requires IsRun(run, labels) && IsInit(run[0]) && i < |run|
    requires run[i].active.None? && run[i].last == Some(u)
    ensures run[i].report.Complete? <==> u in run[i].committed
    ensures u in run[i].updates && run[i].updates[u].Done?
    ensures run[i].report.Cancelled? <==>
      u !in run[i].committed && exists a :: 0 <= a < i && Met(run, labels, a, u)
    ensures run[i].report.Complete? ==> run[i].reader.Some? && run[i].reader == Load(run[i].file)
  {
    RunKeepsInv(run, labels, i);
    assert Owns(run[i], u);
    FlaggedExactlyWhenMet(run, labels, i, u);
  }

  predicate Unfinished(s: State) {
    || (exists u <- s.updates :: !s.updates[u].Done? && !s.updates[u].Rejected?)
    || (exists c <- s.cancels :: s.cancels[c].None?)
  }

  ghost predicate CanGoOn(s: State) {
    exists t, l :: Next(s, t, l) && !l.LookupStarts?
  }

  lemma GoesOn(s: State, t: State, l: Label)
    requires Next(s, t, l) && !l.LookupStarts?
    ensures CanGoOn(s)
  {
  }

  lemma InsideGoesOn(s: State, u: nat)
    requires Inv(s) && s.activeLock == Some(u)
    ensures CanGoOn(s)
  {
    assert Owns(s, u);
    var b := s.updates[u].bytes;
    match s.updates[u].at
    case Locked =>
      GoesOn(s, if u in s.cancelled then To(s, u, Installing(b, Cleaning)).(activeLock := None)
                else To(s, u, Installing(b, Renaming)), Check(u));
    case Renaming => GoesOn(s, To(s, u, Installing(b, Swapping)).(file := s.temp, temp := None), Rename(u, true));
    case Swapping =>
      if s.readers > 0 {
        GoesOn(s, s.(readers := s.readers - 1), LookupEnds);
      } else {
        GoesOn(s, To(s, u, Installing(b, Swapped)).(reader := Some(b), committed := s.committed + {u}), Swap(u));
      }
    case _ => GoesOn(s, To(s, u, Committed).(activeLock := None), Leave(u));
  }

  lemma ClosingGoesOn(s: State, u: nat)
    requires Inv(s) && s.activeLock.None? && u in s.updates
    requires s.updates[u].Committed? || s.updates[u].Failed? || s.updates[u].Closing?
    requires s.statusLock.None? || s.statusLock == Some(u)
    ensures CanGoOn(s)
  {
    assert Owns(s, u);
    match s.updates[u]
    case Closing(ok, flag, Judged) =>
      var t := To(s, u, Closing(ok, flag, Marked)).(cancelled := if ok then s.cancelled else s.cancelled + {u});
      GoesOn(s, t, Close(u));
    case Closing(ok, flag, Marked) =>
      GoesOn(s, To(s, u, Closing(ok, flag, Reporting)).(
               statusLock := Some(u), report := Verdict(ok, flag), configured := ok || s.configured), Close(u));
    case Closing(ok, flag, Reporting) =>
      GoesOn(s, To(s, u, Done(ok, flag)).(active := None, statusLock := None, last := Some(u)), Close(u));
    case Committed => GoesOn(s, To(s, u, Closing(true, u in s.cancelled, Judged)), Close(u));
    case Failed => GoesOn(s, To(s, u, Closing(false, u in s.cancelled, Judged)), Close(u));
  }

  lemma InstallingGoesOn(s: State, u: nat)
    requires Inv(s) && s.activeLock.None? && u in s.updates && s.updates[u].Installing?
    ensures CanGoOn(s)
  {
    assert Owns(s, u);
    var b := s.updates[u].bytes;
    match s.updates[u].at
    case Got => GoesOn(s, To(s, u, if b.verifies then Installing(b, Validated) else Failed), Prepare(u, true));
    case Validated =>
      GoesOn(s, To(s, u, if u in s.cancelled then Failed else Installing(b, Checked)), Prepare(u, true));
    case Checked => GoesOn(s, To(s, u, Installing(b, Written)).(temp := Some(b)), Prepare(u, true));
    case Written => GoesOn(s, To(s, u, Installing(b, Locked)).(activeLock := Some(u)), Enter(u));
    case _ => GoesOn(s, To(s, u, Failed).(temp := None), Clean(u));
  }

  /** The nested locks never deadlock: while an update or a cancel is unfinished,
    * some step other than a new lookup is possible. */
  lemma NeverStuck(run: seq<State>, labels: seq<Label>, i: nat)
    requires IsRun(run, labels) && IsInit(run[0]) && i < |run| && Unfinished(run[i])
    ensures CanGoOn(run[i])
  {
    RunKeepsInv(run, labels, i);
    var s := run[i];
    if s.activeLock.Some? {
      InsideGoesOn(s, s.activeLock.value);
    } else if s.statusLock.Some? {
      assert Owns(s, s.statusLock.value);
      ClosingGoesOn(s, s.statusLock.value);
    } else if c :| c in s.cancels && s.cancels[c].None? {
      GoesOn(s, s.(cancels := s.cancels[c := Some(s.active)],
                   cancelled := if s.active.Some? then s.cancelled + {s.active.value} else s.cancelled), Cancel(c));
    } else {
      var u :| u in s.updates && !s.updates[u].Done? && !s.updates[u].Rejected?;
      match s.updates[u]
      case Fresh =>
        GoesOn(s, if s.active.Some? then To(s, u, Rejected) else To(s, u, Claimed).(active := Some(u)), Claim(u));
      case Claimed => GoesOn(s, To(s, u, Fetching).(report := Downloading), Announce(u));
      case Fetching => GoesOn(s, To(s, u, Failed), FetchEnds(u, Breaks));
      case Installing(_, _) => InstallingGoesOn(s, u);
      case _ => ClosingGoesOn(s, u);
    }
  }
  // -------------------------------------------------- what an update can achieve

  // The bytes an update under installation works on are `b`.
  predicate WorksOn(s: State, u: nat, b: Bytes) {
    u in s.updates && (s.updates[u].Installing? ==> s.updates[u].bytes == b)
  }

  predicate Working(p: Phase) {
    p.Installing? || p.Failed? || p.Committed? || p.Closing? || p.Done?
  }

  lemma StartWorksOn(s: State, t: State, l: Label, u: nat, b: Bytes)
    requires StartNext(s, t, l) && WorksOn(s, u, b) && Working(s.updates[u])
    ensures WorksOn(t, u, b) && Working(t.updates[u])
  {
  }

  lemma PrepareWorksOn(s: State, t: State, v: nat, works: bool, u: nat, b: Bytes)
    requires PrepareNext(s, t, v, works) && WorksOn(s, u, b) && Working(s.updates[u])
    ensures WorksOn(t, u, b) && Working(t.updates[u])
  {
  }

  lemma CommitWorksOn(s: State, t: State, l: Label, u: nat, b: Bytes)
    requires CommitNext(s, t, l) && WorksOn(s, u, b) && Working(s.updates[u])
    ensures WorksOn(t, u, b) && Working(t.updates[u])
  {
  }

  lemma CloseWorksOn(s: State, t: State, v: nat, u: nat, b: Bytes)
    requires CloseNext(s, t, v) && WorksOn(s, u, b) && Working(s.updates[u])
    ensures WorksOn(t, u, b) && Working(t.updates[u])
  {
  }

  lemma StepWorksOn(s: State, t: State, l: Label, u: nat, b: Bytes)
    requires Next(s, t, l) && WorksOn(s, u, b) && Working(s.updates[u])
    ensures WorksOn(t, u, b) && Working(t.updates[u])
  {
    if StartNext(s, t, l) {
      StartWorksOn(s, t, l, u, b);
    } else if l.Prepare? && PrepareNext(s, t, l.u, l.works) {
      PrepareWorksOn(s, t, l.u, l.works, u, b);
    } else if CommitNext(s, t, l) {
      CommitWorksOn(s, t, l, u, b);
    } else if l.Close? && CloseNext(s, t, l.u) {
      CloseWorksOn(s, t, l.u, u, b);
    }
  }

  lemma {:induction false} KeepsItsBytes(run: seq<State>, labels: seq<Label>, a: nat, i: nat, u: nat, b: Bytes)
    requires IsRun(run, labels) && a < i < |run| && labels[a] == FetchEnds(u, Arrives(b))
    ensures WorksOn(run[i], u, b) && Working(run[i].updates[u])
  {
    if i == a + 1 {
      assert Next(run[a], run[a + 1], labels[a]);
    } else {
      KeepsItsBytes(run, labels, a, i - 1, u, b);
      assert Next(run[i - 1], run[i - 1 + 1], labels[i - 1]);
      StepWorksOn(run[i - 1], run[i], labels[i - 1], u, b);
    }
  }

  /** What an update commits is what it downloaded: with its swap, reader and file hold just that. */
  lemma InstallsWhatArrived(run: seq<State>, labels: seq<Label>, a: nat, i: nat, u: nat, b: Bytes)
    requires IsRun(run, labels) && IsInit(run[0]) && a < i < |labels|
    requires labels[a] == FetchEnds(u, Arrives(b)) && labels[i] == Swap(u)
    ensures run[i + 1].reader == Some(b) && run[i + 1].file == Some(b) && u in run[i + 1].committed
  {
    KeepsItsBytes(run, labels, a, i, u, b);
    RunKeepsInv(run, labels, i);
    assert Next(run[i], run[i + 1], labels[i]);
    assert Owns(run[i], u);
  }

  /** Steps one after another, from one state to another. */
  ghost predicate Leads(s: State, t: State) {
    exists run: seq<State>, labels: seq<Label> :: IsRun(run, labels) && run[0] == s && run[|run| - 1] == t
  }

  lemma LeadsOn(s: State, t: State, t': State, l: Label)
    requires Leads(s, t) && Next(t, t', l)
    ensures Leads(s, t')
  {
    var run: seq<State>, labels: seq<Label> :| IsRun(run, labels) && run[0] == s && run[|run| - 1] == t;
    var more, more' := run + [t'], labels + [l];
    forall i | 0 <= i < |more'| ensures Next(more[i], more[i + 1], more'[i]) {
      if i < |labels| { assert Next(run[i], run[i + 1], labels[i]); }
    }
    assert IsRun(more, more') && more[0] == s && more[|more| - 1] == t';
  }

  lemma StartLeadsOn(s: State, t: State, t': State, l: Label)
    requires Leads(s, t) && StartNext(t, t', l)
    ensures Leads(s, t')
  {
    LeadsOn(s, t, t', l);
  }

  lemma PrepareLeadsOn(s: State, t: State, t': State, u: nat)
    requires Leads(s, t) && PrepareNext(t, t', u, true)
    ensures Leads(s, t')
  {
    LeadsOn(s, t, t', Prepare(u, true));
  }

  lemma CommitLeadsOn(s: State, t: State, t': State, l: Label)
    requires Leads(s, t) && CommitNext(t, t', l)
    ensures Leads(s, t')
  {
    LeadsOn(s, t, t', l);
  }

  lemma CloseLeadsOn(s: State, t: State, t': State, u: nat)
    requires Leads(s, t) && CloseNext(t, t', u)
    ensures Leads(s, t')
  {
    LeadsOn(s, t, t', Close(u));
  }

  // No update under way, no lock held, no lookup.
  predicate Quiet(s: State) {
    s.active.None? && s.activeLock.None? && s.statusLock.None? && s.readers == 0
  }

  lemma CanDownload(s: State, u: nat, b: Bytes) returns (t: State)
    requires Quiet(s) && u in s.updates && s.updates[u].Fresh? && b.size <= MAX_BYTES
    ensures Leads(s, t)
    ensures t == To(s, u, Installing(b, Got)).(active := Some(u), report := Downloading)
  {
    var run, labels: seq<Label> := [s], [];
    assert IsRun(run, labels) && run[0] == s && run[|run| - 1] == s;
    var claimed := To(s, u, Claimed).(active := Some(u));
    StartLeadsOn(s, s, claimed, Claim(u));
    var fetching := To(claimed, u, Fetching).(report := Downloading);
    StartLeadsOn(s, claimed, fetching, Announce(u));
    t := To(fetching, u, Installing(b, Got));
    StartLeadsOn(s, fetching, t, FetchEnds(u, Arrives(b)));
  }

  lemma CanWrite(s: State, r: State, u: nat, b: Bytes) returns (t: State)
    requires Leads(s, r) && u in r.updates && r.updates[u] == Installing(b, Got) && b.verifies && u !in r.cancelled
    ensures Leads(s, t) && t == To(r, u, Installing(b, Written)).(temp := Some(b))
  {
    var validated := To(r, u, Installing(b, Validated));
    PrepareLeadsOn(s, r, validated, u);
    var checked := To(validated, u, Installing(b, Checked));
    PrepareLeadsOn(s, validated, checked, u);
    t := To(checked, u, Installing(b, Written)).(temp := Some(b));
    PrepareLeadsOn(s, checked, t, u);
  }

  lemma CanRename(s: State, r: State, u: nat, b: Bytes) returns (t: State)
    requires Leads(s, r) && u in r.updates && r.updates[u] == Installing(b, Written) && r.temp == Some(b)
    requires r.activeLock.None? && u !in r.cancelled
    ensures Leads(s, t)
    ensures t == To(r, u, Installing(b, Swapping)).(activeLock := Some(u), file := Some(b), temp := None)
  {
    var locked := To(r, u, Installing(b, Locked)).(activeLock := Some(u));
    CommitLeadsOn(s, r, locked, Enter(u));
    var renaming := To(locked, u, Installing(b, Renaming));
    CommitLeadsOn(s, locked, renaming, Check(u));
    t := To(renaming, u, Installing(b, Swapping)).(file := Some(b), temp := None);
    CommitLeadsOn(s, renaming, t, Rename(u, true));
  }

  lemma CanCommit(s: State, r: State, u: nat, b: Bytes) returns (t: State)
    requires Leads(s, r) && u in r.updates && r.updates[u] == Installing(b, Written) && r.temp == Some(b)
    requires r.activeLock.None? && r.readers == 0 && u !in r.cancelled
    ensures Leads(s, t)
    ensures t == To(r, u, Committed).(file := Some(b), temp := None, reader := Some(b), committed := r.committed + {u})
  {
    var swapping := CanRename(s, r, u, b);
    var swapped := To(swapping, u, Installing(b, Swapped)).(reader := Some(b), committed := r.committed + {u});
    CommitLeadsOn(s, swapping, swapped, Swap(u));
    t := To(swapped, u, Committed).(activeLock := None);
    CommitLeadsOn(s, swapped, t, Leave(u));
  }

  lemma CanClose(s: State, r: State, u: nat) returns (t: State)
    requires Leads(s, r) && u in r.updates && (r.updates[u].Committed? || r.updates[u].Failed?)
    requires r.activeLock.None? && r.statusLock.None?
    ensures var ok, flag := r.updates[u].Committed?, u in r.cancelled;
            && Leads(s, t) && u in t.updates && t.updates[u] == Done(ok, flag)
            && t.report == (if ok then Complete else if flag then Cancelled else Error)
            && t.file == r.file && t.reader == r.reader && Quiet(t) == (r.readers == 0) && t.last == Some(u)
  {
    var ok, flag := r.updates[u].Committed?, u in r.cancelled;
    var judged := To(r, u, Closing(ok, flag, Judged));
    CloseLeadsOn(s, r, judged, u);
    var marked := To(judged, u, Closing(ok, flag, Marked)).(
                    cancelled := if ok then judged.cancelled else judged.cancelled + {u});
    CloseLeadsOn(s, judged, marked, u);
    var reporting := To(marked, u, Closing(ok, flag, Reporting)).(
                       statusLock := Some(u), report := Verdict(ok, flag), configured := ok || marked.configured);
    CloseLeadsOn(s, marked, reporting, u);
    t := To(reporting, u, Done(ok, flag)).(active := None, statusLock := None, last := Some(u));
    CloseLeadsOn(s, reporting, t, u);
  }

  /** From any quiet state of any run, a download that verifies can be installed, whatever was
    * there before: reader and file then hold it and the status reads `complete`. */
  lemma EveryGoodDownloadCanBeInstalled(
    run: seq<State>, labels: seq<Label>, i: nat, u: nat, b: Bytes) returns (t: State)
    requires IsRun(run, labels) && IsInit(run[0]) && i < |run| && Quiet(run[i])
    requires u in run[i].updates && run[i].updates[u].Fresh? && b.size <= MAX_BYTES && b.verifies
    ensures Leads(run[i], t) && Quiet(t)
    ensures t.file == Some(b) && t.reader == Some(b) && t.report == Complete && t.last == Some(u)
  {
    var s := run[i];
    RunKeepsInv(run, labels, i);
    assert Owns(s, u);
    t := CanDownload(s, u, b);
    t := CanWrite(s, t, u, b);
    t := CanCommit(s, t, u, b);
    t := CanClose(s, t, u);
  }

  /** A cancel that meets an update while it downloads can end it at once, reader and file as
    * they were and the status reading `cancelled`. */
  lemma EveryDownloadCanBeCancelled(
    run: seq<State>, labels: seq<Label>, i: nat, u: nat, c: nat) returns (t: State)
    requires IsRun(run, labels) && IsInit(run[0]) && i < |run| && Quiet(run[i])
    requires u in run[i].updates && run[i].updates[u].Fresh?
    requires c in run[i].cancels && run[i].cancels[c].None?
    ensures Leads(run[i], t) && Quiet(t)
    ensures t.file == run[i].file && t.reader == run[i].reader && t.report == Cancelled && t.last == Some(u)
  {
    var s := run[i];
    var start, none: seq<Label> := [s], [];
    assert IsRun(start, none) && start[0] == s && start[|start| - 1] == s;
    var claimed := To(s, u, Claimed).(active := Some(u));
    StartLeadsOn(s, s, claimed, Claim(u));
    var fetching := To(claimed, u, Fetching).(report := Downloading);
    StartLeadsOn(s, claimed, fetching, Announce(u));
    var met := fetching.(cancels := s.cancels[c := Some(Some(u))], cancelled := s.cancelled + {u});
    LeadsOn(s, fetching, met, Cancel(c));
    var failed := To(met, u, Failed);
    StartLeadsOn(s, met, failed, FetchEnds(u, SeesCancel));
    t := CanClose(s, failed, u);
  }
}
