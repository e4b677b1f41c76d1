/** What the lawful histories mean for the operator: when an erase may happen, and which logs can be lost. */
module ArchiveGuarantees {
  import opened ArchiveEvents
  import opened ArchiveService
  import opened ArchiveSafety

  /** The history in order of time. */
  ghost function History(t: Trace): seq<Event> {
    if t.Nothing? then [] else History(t.past) + [t.event]
  }

  /** The history up to its `i`-th event, which was lawful then. */
  lemma {:induction false} PrefixBefore(t: Trace, i: nat) returns (u: Trace)
    requires LawfulTrace(t) && i < |History(t)|
    ensures History(u) == History(t)[..i]
    ensures LawfulTrace(u) && Lawful(u, History(t)[i])
  {
    if i == |History(t.past)| {
      u := t.past;
    } else {
      u := PrefixBefore(t.past, i);
    }
  }

  // ---- From readings to positions in the history ----

  ghost predicate EndsCycle(e: Event) {
    e.CancelLowered? || e.Crashed?
  }

  ghost predicate SpendsArchive(e: Event) {
    e.CancelLowered? || e.Enumerated? || e.Evicted? || e.EraseSent? || e.Crashed? || e.ArchiveDone?
  }

  ghost predicate SpendsCheck(e: Event) {
    e.CancelLowered? || e.EraseSent? || e.Crashed? || e.ArchiveDone?
  }

  ghost predicate SpendsCommand(e: Event) {
    e.EraseSent? || e.Crashed?
  }

  ghost predicate IsCancel(e: Event) {
    e.CancelRaised?
  }

  /** None of the events strictly between the two positions is of this kind. */
  ghost predicate NoneBetween(h: seq<Event>, kind: Event -> bool, lo: int, hi: int)
    requires -1 <= lo && hi <= |h|
  {
    forall j :: lo < j < hi ==> !kind(h[j])
  }

  ghost predicate CleanArchive(e: Event) {
    e.ArchiveDone? && !e.manual && e.logs != [] && AllArchived(e.logs, e.results)
  }

  lemma {:induction false} ResetPosition(t: Trace) returns (r: nat)
    requires LastReset(t) == CycleReset
    ensures r < |History(t)| && History(t)[r] == CancelLowered(CycleReset)
    ensures NoneBetween(History(t), EndsCycle, r, |History(t)|)
    ensures !CancelPending(t) ==> NoneBetween(History(t), IsCancel, r, |History(t)|)
  {
    if t.event.CancelLowered? {
      r := |History(t.past)|;
    } else {
      r := ResetPosition(t.past);
    }
  }

  lemma {:induction false} ArchivePosition(t: Trace) returns (c: nat)
    requires AutoCause(t)
    ensures c < |History(t)| && CleanArchive(History(t)[c])
    ensures NoneBetween(History(t), SpendsArchive, c, |History(t)|)
  {
    if t.event.ArchiveDone? {
      c := |History(t.past)|;
    } else {
      c := ArchivePosition(t.past);
    }
  }

  lemma {:induction false} CheckPosition(t: Trace) returns (k: nat)
    requires CheckPending(t)
    ensures k < |History(t)| && History(t)[k] == EraseCheckPassed
    ensures NoneBetween(History(t), SpendsCheck, k, |History(t)|)
  {
    if t.event.EraseCheckPassed? {
      k := |History(t.past)|;
    } else {
      k := CheckPosition(t.past);
    }
  }

  lemma {:induction false} CommandPosition(t: Trace) returns (c: nat)
    requires ManualCause(t)
    ensures c < |History(t)| && History(t)[c] == Popped(Erase)
    ensures NoneBetween(History(t), SpendsCommand, c, |History(t)|)
  {
    if t.event == Popped(Erase) {
      c := |History(t.past)|;
    } else {
      c := CommandPosition(t.past);
    }
  }

  // ---- When LOG_ERASE may be sent ----

  /**
   * The automatic erase at `i` belongs to one cycle: cancel lowered at `r`, a clean Archive step at `c`,
   * the erase check at `k`. No cancel was raised from `r` to the check, and since the Archive step there
   * was no other archive, enumeration, eviction, erase, reset or crash.
   */
  ghost predicate ErasesCycle(h: seq<Event>, r: nat, c: nat, k: nat, i: nat) {
    && r < c < k < i < |h|
    && h[r] == CancelLowered(CycleReset) && CleanArchive(h[c]) && h[k] == EraseCheckPassed
    && NoneBetween(h, IsCancel, r, k) && NoneBetween(h, EndsCycle, r, i) && NoneBetween(h, SpendsArchive, c, i)
  }

  /** The erase at `i` was asked for at `c`, and no erase went out in between. */
  ghost predicate ErasesOnCommand(h: seq<Event>, c: nat, i: nat) {
    c < i < |h| && h[c] == Popped(Erase) && NoneBetween(h, SpendsCommand, c, i)
  }

  lemma {:induction false} AutoErasePositions(u: Trace) returns (r: nat, c: nat, k: nat)
    requires LawfulTrace(u) && AutoCause(u) && CheckPending(u)
    ensures r < c < k < |History(u)|
    ensures History(u)[r] == CancelLowered(CycleReset) && CleanArchive(History(u)[c])
    ensures History(u)[k] == EraseCheckPassed
    ensures NoneBetween(History(u), IsCancel, r, k)
    ensures NoneBetween(History(u), EndsCycle, r, |History(u)|)
    ensures NoneBetween(History(u), SpendsArchive, c, |History(u)|)
  {
    k := CheckPosition(u);
    c := ArchivePosition(u);
    var v := PrefixBefore(u, k);
    r := ResetPosition(v);
    assert forall j :: 0 <= j < k ==> History(v)[j] == History(u)[j];
  }

  /** Every LOG_ERASE in every run traces to a popped erase command or to the Archive step just before it. */
  lemma {:induction false} EveryEraseHasItsCause(eraseAfterSuccess: bool, steps: seq<Step>, i: nat)
    requires i < |History(Run(eraseAfterSuccess, steps).trace)|
    requires History(Run(eraseAfterSuccess, steps).trace)[i].EraseSent?
    ensures var h := History(Run(eraseAfterSuccess, steps).trace);
            if h[i].auto then exists r, c, k :: ErasesCycle(h, r, c, k, i) else exists c :: ErasesOnCommand(h, c, i)
  {
    var t := Run(eraseAfterSuccess, steps).trace;
    EveryRunIsLawful(eraseAfterSuccess, steps);
    EraseHasItsCause(t, i);
  }

  lemma {:induction false} EraseHasItsCause(t: Trace, i: nat)
    requires LawfulTrace(t) && i < |History(t)| && History(t)[i].EraseSent?
    ensures if History(t)[i].auto then exists r, c, k :: ErasesCycle(History(t), r, c, k, i)
            else exists c :: ErasesOnCommand(History(t), c, i)
  {
    var h := History(t);
    var u := PrefixBefore(t, i);
    assert forall j :: 0 <= j < i ==> History(u)[j] == h[j];
    if h[i].auto {
      var r, c, k := AutoErasePositions(u);
      assert ErasesCycle(h, r, c, k, i);
    } else {
      var c := CommandPosition(u);
      assert ErasesOnCommand(h, c, i);
    }
  }

  ghost predicate IsCheck(e: Event) {
    e.EraseCheckPassed?
  }

  ghost predicate BeginsCycle(e: Event) {
    e == CancelLowered(CycleReset)
  }

  lemma {:induction false} CheckPrecedesCancel(h: seq<Event>, r: nat, x: nat, r': nat, c: nat, k: nat, i: nat)
    requires r < x < i && ErasesCycle(h, r', c, k, i) && NoneBetween(h, BeginsCycle, r, i)
    requires h[r] == CancelLowered(CycleReset) && h[x] == CancelRaised
    ensures r < k < x && IsCheck(h[k])
  {
    assert BeginsCycle(h[r']) && EndsCycle(h[r]) && IsCancel(h[x]);
    assert r == r';
  }

  /**
   * A cancel raised by any thread after the cycle's reset and before its erase check: whatever commands
   * are drained or crashes happen in between, no automatic LOG_ERASE goes out before the next cycle begins.
   */
  lemma {:induction false} CancelIsNeverLost(eraseAfterSuccess: bool, steps: seq<Step>, r: nat, x: nat, i: nat)
    requires r < x < i < |History(Run(eraseAfterSuccess, steps).trace)|
    requires var h := History(Run(eraseAfterSuccess, steps).trace);
             && h[r] == CancelLowered(CycleReset) && h[x] == CancelRaised
             && NoneBetween(h, BeginsCycle, r, i) && NoneBetween(h, IsCheck, r, x)
    ensures var e := History(Run(eraseAfterSuccess, steps).trace)[i]; e.EraseSent? ==> !e.auto
  {
    var h := History(Run(eraseAfterSuccess, steps).trace);
    forall r': nat, c: nat, k: nat | ErasesCycle(h, r', c, k, i) ensures r < k < x && IsCheck(h[k]) {
      CheckPrecedesCancel(h, r, x, r', c, k, i);
    }
    if h[i].EraseSent? {
      EveryEraseHasItsCause(eraseAfterSuccess, steps, i);
    }
  }

  /** No two erases share a cause. */
  lemma {:induction false} CycleErasesOnce(h: seq<Event>, r: nat, c: nat, k: nat, i: nat, r': nat, k': nat, i': nat)
    requires ErasesCycle(h, r, c, k, i) && ErasesCycle(h, r', c, k', i') && h[i].EraseSent? && h[i'].EraseSent?
    ensures i == i'
  {
    assert SpendsArchive(h[i]) && SpendsArchive(h[i']);
  }

  lemma {:induction false} CommandErasesOnce(h: seq<Event>, c: nat, i: nat, i': nat)
    requires ErasesOnCommand(h, c, i) && ErasesOnCommand(h, c, i') && h[i].EraseSent? && h[i'].EraseSent?
    ensures i == i'
  {
    assert SpendsCommand(h[i]) && SpendsCommand(h[i']);
  }

  // ---- What the erased logs are covered by ----

  ghost function CountDownloaded(results: seq<Result>): nat {
    if results == [] then 0
    else CountDownloaded(results[..|results| - 1]) + if results[|results| - 1].Downloaded? then 1 else 0
  }

  ghost function CountSkipped(results: seq<Result>): nat {
    if results == [] then 0
    else CountSkipped(results[..|results| - 1]) + if results[|results| - 1].Skipped? then 1 else 0
  }

  lemma {:induction false} CountsAddUp(results: seq<Result>)
    requires forall k :: 0 <= k < |results| ==> results[k].Downloaded? || results[k].Skipped?
    ensures CountDownloaded(results) + CountSkipped(results) == |results|
  {
    if results != [] {
      CountsAddUp(results[..|results| - 1]);
    }
  }

  /** Rows are never deleted: the key set only grows. */
  lemma {:induction false} CatalogGrows(t: Trace, i: nat, u: Trace, key: Digest)
    requires i <= |History(t)| && History(u) == History(t)[..i] && key in CatalogOf(u)
    ensures key in CatalogOf(t)
  {
    if i == |History(t)| {
      SameHistory(t, u);
    } else {
      CatalogGrows(t.past, i, u, key);
    }
  }

  lemma {:induction false} SameHistory(t: Trace, u: Trace)
    requires History(t) == History(u)
    ensures t == u
  {
    if t.Then? && u.Then? {
      assert History(t)[..|History(t.past)|] == History(t.past);
      assert History(u)[..|History(u.past)|] == History(u.past);
      assert History(t)[|History(t.past)|] == t.event;
      assert History(u)[|History(u.past)|] == u.event;
      SameHistory(t.past, u.past);
    }
  }

  /** This cycle put the log under the key by its own download, or matched its probe with the row. */
  ghost predicate CoveredBy(t: Trace, log: FlightLog, r: Result) {
    match r
    case Downloaded(key) => InsertedHere(t, log, key)
    case Skipped(key) => MatchedHere(t, log, key)
    case _ => false
  }

  /**
   * The Archive step behind an automatic erase: its list is the enumeration, downloaded and skipped add
   * up to its length, and at any later time every log in it has a catalog key.
   */
  lemma {:induction false} ErasedCycleIsCatalogued(eraseAfterSuccess: bool, steps: seq<Step>, c: nat)
    requires c < |History(Run(eraseAfterSuccess, steps).trace)|
    requires CleanArchive(History(Run(eraseAfterSuccess, steps).trace)[c])
    ensures var s := Run(eraseAfterSuccess, steps); var e := History(s.trace)[c];
            && CountDownloaded(e.results) + CountSkipped(e.results) == |e.logs|
            && (exists u :: History(u) == History(s.trace)[..c] && e.logs == LastEnumeration(u)
                            && forall k :: 0 <= k < |e.logs| ==> CoveredBy(u, e.logs[k], e.results[k]))
            && forall k :: 0 <= k < |e.logs| ==> e.results[k].key in s.disk.catalog
  {
    var s := Run(eraseAfterSuccess, steps);
    EveryRunIsLawful(eraseAfterSuccess, steps);
    var u := PrefixBefore(s.trace, c);
    var e := History(s.trace)[c];
    CountsAddUp(e.results);
    forall k | 0 <= k < |e.logs| ensures CoveredBy(u, e.logs[k], e.results[k]) && e.results[k].key in s.disk.catalog {
      assert Backed(u, e.logs[k], e.results[k]);
      CatalogGrows(s.trace, c, u, e.results[k].key);
    }
  }

  // ---- Which logs can be lost ----

  /** The recording itself was downloaded and catalogued. */
  ghost predicate Archived(t: Trace, log: FlightLog) {
    t.Then? && ((t.event.Inserted? && t.event.log == log) || Archived(t.past, log))
  }

  /** Since the last enumeration, eviction or crash the log was skipped on a row made from another recording. */
  ghost predicate SkippedOnOther(t: Trace, log: FlightLog) {
    match t
    case Nothing => false
    case Then(past, Matched(l, key, _, _)) => (l == log && OwnerOf(past, key) != Holds(log)) || SkippedOnOther(past, log)
    case Then(past, Enumerated(_)) => false
    case Then(past, Evicted(_)) => false
    case Then(past, Crashed(_)) => false
    case Then(past, _) => SkippedOnOther(past, log)
  }

  /** An automatic erase wiped the log although that cycle's enumeration did not list it. */
  ghost predicate Overlooked(t: Trace, log: FlightLog) {
    t.Then? && ((t.event.EraseSent? && t.event.auto && log in t.event.wiped && log !in LastEnumeration(t.past))
                || Overlooked(t.past, log))
  }

  /** An automatic erase wiped the log after that cycle took it for another recording. */
  ghost predicate Mistaken(t: Trace, log: FlightLog) {
    t.Then? && ((t.event.EraseSent? && t.event.auto && log in t.event.wiped && log in LastEnumeration(t.past)
                 && SkippedOnOther(t.past, log))
                || Mistaken(t.past, log))
  }

  ghost predicate WipedOnCommand(t: Trace, log: FlightLog) {
    t.Then? && ((t.event.EraseSent? && !t.event.auto && log in t.event.wiped) || WipedOnCommand(t.past, log))
  }

  lemma {:induction false} InsertedIsArchived(t: Trace, log: FlightLog, key: Digest)
    requires InsertedHere(t, log, key)
    ensures Archived(t, log)
  {
    if !(t.event.Inserted? && t.event.log == log) {
      InsertedIsArchived(t.past, log, key);
    }
  }

  lemma {:induction false} OwnerIsArchived(t: Trace, log: FlightLog, key: Digest)
    requires OwnerOf(t, key) == Holds(log)
    ensures Archived(t, log)
  {
    if !(t.event.Inserted? && t.event.key == key) {
      OwnerIsArchived(t.past, log, key);
    }
  }

  lemma {:induction false} MatchedIsArchivedOrOther(t: Trace, log: FlightLog, key: Digest)
    requires MatchedHere(t, log, key)
    ensures Archived(t, log) || SkippedOnOther(t, log)
  {
    if t.event.Matched? && t.event.log == log && t.event.key == key {
      if OwnerOf(t.past, key) == Holds(log) {
        OwnerIsArchived(t.past, log, key);
      }
    } else {
      MatchedIsArchivedOrOther(t.past, log, key);
    }
  }

  /** While an Archive step is unspent, every log of the last enumeration was archived or taken for another. */
  lemma {:induction false} CauseCovers(t: Trace, log: FlightLog)
    requires LawfulTrace(t) && AutoCause(t) && log in LastEnumeration(t)
    ensures Archived(t, log) || SkippedOnOther(t, log)
  {
    if t.event.ArchiveDone? {
      var k :| 0 <= k < |t.event.logs| && t.event.logs[k] == log;
      assert Backed(t.past, t.event.logs[k], t.event.results[k]);
      if t.event.results[k].Downloaded? {
        InsertedIsArchived(t.past, log, t.event.results[k].key);
      } else {
        MatchedIsArchivedOrOther(t.past, log, t.event.results[k].key);
      }
    } else {
      CauseCovers(t.past, log);
    }
  }

  lemma {:induction false} WipedIsAccounted(t: Trace, log: FlightLog)
    requires LawfulTrace(t) && WipedIn(t, log)
    ensures Archived(t, log) || Overlooked(t, log) || Mistaken(t, log) || WipedOnCommand(t, log)
  {
    if t.event.EraseSent? && log in t.event.wiped {
      if t.event.auto && log in LastEnumeration(t.past) {
        CauseCovers(t.past, log);
      }
    } else {
      WipedIsAccounted(t.past, log);
    }
  }

  lemma {:induction false} LossIsWipe(t: Trace, log: FlightLog)
    requires Overlooked(t, log) || Mistaken(t, log) || WipedOnCommand(t, log)
    ensures WipedIn(t, log)
  {
    if !(t.event.EraseSent? && log in t.event.wiped) {
      LossIsWipe(t.past, log);
    }
  }

  /** A log leaves the flight controller only by an erase, and never comes back. */
  ghost predicate LogInv(s: State, log: FlightLog) {
    && (EnumeratedIn(s.trace, log) ==> log in s.fc.logs || WipedIn(s.trace, log))
    && (log in s.fc.logs ==> log in s.fc.recorded)
    && (WipedIn(s.trace, log) ==> log in s.fc.recorded && log !in s.fc.logs)
  }

  lemma {:induction false} LogKeptByWork(s: State, job: Job, stage: Stage, w: Step, log: FlightLog)
    requires LogInv(s, log) && w.Work?
    ensures LogInv(DoWork(s, job, stage, w), log)
  {
  }

  lemma {:induction false} LogKeptByPhase(s: State, p: Phase, yes: bool, alive: bool, logs: seq<FlightLog>,
                                          evicted: set<Path>, log: FlightLog)
    requires LogInv(s, log) && forall l :: l in logs ==> l in s.fc.logs
    ensures LogInv(DoPhase(s, p, yes, alive, logs, evicted), log)
  {
  }

  lemma {:induction false} LogKeptByMain(s: State, step: Step, log: FlightLog)
    requires LogInv(s, log)
    ensures LogInv(MainStep(s, step), log)
  {
    match (s.main, step)
    case (Doing(p), Do(yes, alive, logs, evicted)) =>
      if forall l :: l in logs ==> l in s.fc.logs {
        LogKeptByPhase(s, p, yes, alive, logs, evicted, log);
      }
    case (Working(job, stage), Work(_, _, _, _, _)) => LogKeptByWork(s, job, stage, step, log);
    case _ =>
  }

  lemma {:induction false} LogKept(s: State, step: Step, log: FlightLog)
    requires LogInv(s, log)
    ensures LogInv(Apply(s, step), log)
  {
    LogKeptByMain(s, step, log);
  }

  lemma {:induction false} LogKeptByRun(eraseAfterSuccess: bool, steps: seq<Step>, log: FlightLog)
    ensures LogInv(Run(eraseAfterSuccess, steps), log)
  {
    if steps != [] {
      LogKeptByRun(eraseAfterSuccess, steps[..|steps| - 1], log);
      LogKept(Run(eraseAfterSuccess, steps[..|steps| - 1]), steps[|steps| - 1], log);
    }
  }

  /** Listed once, off the flight controller, and never archived itself. */
  ghost predicate Lost(s: State, log: FlightLog) {
    EnumeratedIn(s.trace, log) && log !in s.fc.logs && !Archived(s.trace, log)
  }

  /**
   * After any run, with a crash at any point: a log that was enumerated and never archived itself is off the
   * flight controller if and only if it was wiped on command, by a cycle whose enumeration missed it, or by a
   * cycle that skipped it on the row of another recording.
   */
  lemma {:induction false} LostIff(eraseAfterSuccess: bool, steps: seq<Step>, log: FlightLog)
    requires EnumeratedIn(Run(eraseAfterSuccess, steps).trace, log) && !Archived(Run(eraseAfterSuccess, steps).trace, log)
    ensures var s := Run(eraseAfterSuccess, steps);
            log !in s.fc.logs <==> Overlooked(s.trace, log) || Mistaken(s.trace, log) || WipedOnCommand(s.trace, log)
  {
    var s := Run(eraseAfterSuccess, steps);
    EveryRunIsLawful(eraseAfterSuccess, steps);
    LogKeptByRun(eraseAfterSuccess, steps, log);
    if WipedIn(s.trace, log) {
      WipedIsAccounted(s.trace, log);
    }
    if Overlooked(s.trace, log) || Mistaken(s.trace, log) || WipedOnCommand(s.trace, log) {
      LossIsWipe(s.trace, log);
    }
  }
}
