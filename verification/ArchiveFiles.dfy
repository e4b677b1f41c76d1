/** What happens to the bytes: which log a final name holds, and when an erased log is in a file. */
module ArchiveFiles {
  import opened ArchiveEvents
  import opened ArchiveService
  import opened ArchiveSafety
  import opened ArchiveGuarantees

  // ---- Which log a name holds ----

  ghost predicate FileInv(s: State, path: Path) {
    s.disk.files.names(path).content == FileAt(s.trace, path)
  }

  lemma {:induction false} FileKeptByWork(s: State, job: Job, stage: Stage, w: Step, path: Path)
    requires FileInv(s, path) && w.Work?
    ensures FileInv(DoWork(s, job, stage, w), path)
  {
  }

  lemma {:induction false} FileKeptByPhase(s: State, p: Phase, yes: bool, alive: bool, logs: seq<FlightLog>,
                                           evicted: set<Path>, path: Path)
    requires FileInv(s, path)
    ensures FileInv(DoPhase(s, p, yes, alive, logs, evicted), path)
  {
  }

  lemma {:induction false} FileKeptByMain(s: State, step: Step, path: Path)
    requires FileInv(s, path)
    ensures FileInv(MainStep(s, step), path)
  {
    match (s.main, step)
    case (Doing(p), Do(yes, alive, logs, evicted)) => FileKeptByPhase(s, p, yes, alive, logs, evicted, path);
    case (Working(job, stage), Work(_, _, _, _, _)) => FileKeptByWork(s, job, stage, step, path);
    case _ =>
  }

  lemma {:induction false} FileKeptByStep(s: State, step: Step, path: Path)
    requires FileInv(s, path)
    ensures FileInv(Apply(s, step), path)
  {
    FileKeptByMain(s, step, path);
  }

  /**
   * After any run a final name holds a log if and only if the last rename to the name brought that log, or the
   * last power loss left it there, whichever is later, and no eviction has removed it since.
   */
  lemma {:induction false} FileHoldsIff(eraseAfterSuccess: bool, steps: seq<Step>, path: Path, log: FlightLog)
    ensures FileInv(Run(eraseAfterSuccess, steps), path)
    ensures var s := Run(eraseAfterSuccess, steps);
            s.disk.files.names(path).content == Holds(log) <==> FileAt(s.trace, path) == Holds(log)
  {
    if steps != [] {
      FileHoldsIff(eraseAfterSuccess, steps[..|steps| - 1], path, log);
      FileKeptByStep(Run(eraseAfterSuccess, steps[..|steps| - 1]), steps[|steps| - 1], path);
    }
  }

  // ---- What a power loss can leave ----

  ghost predicate VersionInv(s: State, path: Path, c: Content) {
    && FileInv(s, path)
    && (IsVersion(s.disk.files.names(path), c) <==> HeldSinceSync(s.trace, path, c))
    && (path.day in s.disk.files.newDays <==> DayIsNew(s.trace, path.day))
  }

  lemma {:induction false} VersionKeptByWork(s: State, job: Job, stage: Stage, w: Step, path: Path, c: Content)
    requires VersionInv(s, path, c) && w.Work?
    ensures VersionInv(DoWork(s, job, stage, w), path, c)
  {
  }

  lemma {:induction false} VersionKeptByPhase(s: State, p: Phase, yes: bool, alive: bool, logs: seq<FlightLog>,
                                              evicted: set<Path>, path: Path, c: Content)
    requires VersionInv(s, path, c)
    ensures VersionInv(DoPhase(s, p, yes, alive, logs, evicted), path, c)
  {
  }

  lemma {:induction false} VersionKeptByMain(s: State, step: Step, path: Path, c: Content)
    requires VersionInv(s, path, c)
    ensures VersionInv(MainStep(s, step), path, c)
  {
    match (s.main, step)
    case (Doing(p), Do(yes, alive, logs, evicted)) => VersionKeptByPhase(s, p, yes, alive, logs, evicted, path, c);
    case (Working(job, stage), Work(_, _, _, _, _)) => VersionKeptByWork(s, job, stage, step, path, c);
    case _ =>
  }

  lemma {:induction false} VersionKeptByStep(s: State, step: Step, path: Path, c: Content)
    requires VersionInv(s, path, c)
    ensures VersionInv(Apply(s, step), path, c)
  {
    if step.CutPower? {
      VersionKeptByPowerLoss(s, step.left, step.lostDays, path, c);
    } else if IsRx(step) || IsUdp(step) {
      VersionKeptByThreads(s, step, path, c);
    } else {
      VersionKeptByMain(s, step, path, c);
    }
  }

  lemma {:induction false} VersionKeptByThreads(s: State, step: Step, path: Path, c: Content)
    requires VersionInv(s, path, c)
    ensures VersionInv(RxStep(s, step), path, c) && VersionInv(UdpStep(s, step), path, c)
  {
  }

  lemma {:induction false} VersionKeptByPowerLoss(s: State, left: Path -> Content, lostDays: set<Day>, path: Path, c: Content)
    requires VersionInv(s, path, c)
    ensures VersionInv(LosePower(s, left, lostDays), path, c)
  {
  }

  lemma {:induction false} VersionKeptByRun(eraseAfterSuccess: bool, steps: seq<Step>, path: Path, c: Content)
    ensures VersionInv(Run(eraseAfterSuccess, steps), path, c)
  {
    if steps != [] {
      VersionKeptByRun(eraseAfterSuccess, steps[..|steps| - 1], path, c);
      VersionKeptByStep(Run(eraseAfterSuccess, steps[..|steps| - 1]), steps[|steps| - 1], path, c);
    }
  }

  /** Some power loss at this point leaves the content under the name. */
  ghost predicate MayBeLeft(f: Files, path: Path, c: Content) {
    exists left: Path -> Content, lostDays: set<Day> :: CanLeave(f, left, lostDays) && left(path) == c
  }

  lemma {:induction false} VersionMayBeLeft(f: Files, path: Path, c: Content)
    requires IsVersion(f.names(path), c)
    ensures MayBeLeft(f, path, c)
  {
    var left := (p: Path) => if p == path then c else f.names(p).content;
    assert CanLeave(f, left, {});
  }

  lemma {:induction false} NewDayMayBeLost(f: Files, path: Path)
    requires path.day in f.newDays
    ensures MayBeLeft(f, path, Absent)
  {
    var left := (p: Path) => if p.day == path.day then Absent else f.names(p).content;
    assert CanLeave(f, left, {path.day});
  }

  /**
   * A power loss right after a run can leave a content under a name if and only if the name held it at some
   * point since its directory was last synced or power was last lost, or the content is nothing and the
   * directory was created since power was last lost. Killed processes change neither.
   */
  lemma {:induction false} PowerLossMayLeaveIff(eraseAfterSuccess: bool, steps: seq<Step>, path: Path, c: Content)
    ensures var s := Run(eraseAfterSuccess, steps);
            MayBeLeft(s.disk.files, path, c) <==>
            HeldSinceSync(s.trace, path, c) || (c == Absent && DayIsNew(s.trace, path.day))
  {
    var s := Run(eraseAfterSuccess, steps);
    VersionKeptByRun(eraseAfterSuccess, steps, path, c);
    if IsVersion(s.disk.files.names(path), c) {
      VersionMayBeLeft(s.disk.files, path, c);
    }
    if c == Absent && path.day in s.disk.files.newDays {
      NewDayMayBeLost(s.disk.files, path);
    }
  }

  // ---- Whether an erased log is in its file ----

  ghost predicate TakesFiles(e: Event) {
    e.Enumerated? || e.Evicted? || e.Crashed?
  }

  /** What the last rename to the name brought, among the events strictly between the two positions. */
  ghost function LastRename(h: seq<Event>, path: Path, lo: nat, hi: nat): Content
    requires hi <= |h|
  {
    if hi <= lo + 1 then Absent
    else if h[hi - 1].Renamed? && h[hi - 1].path == path then Holds(h[hi - 1].log)
    else LastRename(h, path, lo, hi - 1)
  }

  lemma {:induction false} LastRenamePrefix(h: seq<Event>, e: Event, path: Path, lo: nat, hi: nat)
    requires hi <= |h|
    ensures LastRename(h + [e], path, lo, hi) == LastRename(h, path, lo, hi)
  {
    if hi > lo + 1 {
      assert (h + [e])[hi - 1] == h[hi - 1];
      LastRenamePrefix(h, e, path, lo, hi - 1);
    }
  }

  /** What the name holds: what the last rename since `j` brought, or what it held before if there was none. */
  ghost function NameSince(t: Trace, path: Path, j: nat, before: Content): Content {
    var last := LastRename(History(t), path, j, |History(t)|);
    if last == Absent then before else last
  }

  /** The log was catalogued at `j` with this name and nothing took files since. */
  ghost predicate StoredAt(t: Trace, log: FlightLog, key: Digest, j: nat, path: Path) {
    var h := History(t);
    && j < |h| && h[j].Inserted? && h[j].log == log && h[j].key == key && h[j].path == path
    && NoneBetween(h, TakesFiles, j, |h|)
    && FileAt(t, path) == NameSince(t, path, j, Holds(log))
  }

  lemma {:induction false} StoredSince(t: Trace, log: FlightLog, key: Digest) returns (j: nat, path: Path)
    requires LawfulTrace(t) && InsertedHere(t, log, key)
    ensures StoredAt(t, log, key, j, path)
  {
    if t.event.Inserted? && t.event.log == log && t.event.key == key {
      j, path := |History(t.past)|, t.event.path;
    } else {
      j, path := StoredSince(t.past, log, key);
      LastRenamePrefix(History(t.past), t.event, path, j, |History(t.past)|);
    }
  }

  /** The log matched the row at `j`, the row's name held `found` then, and nothing took files since. */
  ghost predicate MatchedAt(t: Trace, log: FlightLog, key: Digest, j: nat, u: Trace) {
    var h := History(t);
    && j < |h| && h[j].Matched? && h[j].log == log && h[j].key == key && History(u) == h[..j]
    && key in CatalogOf(u) && CatalogOf(u)[key] == h[j].row && IsCandidate(h[j].row, log) && h[j].row.probe == h[j].seen
    && NoneBetween(h, TakesFiles, j, |h|)
    && FileAt(t, h[j].row.path) == NameSince(t, h[j].row.path, j, FileAt(u, h[j].row.path))
  }

  lemma {:induction false} MatchedSince(t: Trace, log: FlightLog, key: Digest) returns (j: nat, u: Trace)
    requires LawfulTrace(t) && MatchedHere(t, log, key)
    ensures MatchedAt(t, log, key, j, u)
  {
    if t.event.Matched? && t.event.log == log && t.event.key == key {
      j, u := |History(t.past)|, t.past;
    } else {
      j, u := MatchedSince(t.past, log, key);
      LastRenamePrefix(History(t.past), t.event, History(t.past)[j].row.path, j, |History(t.past)|);
    }
  }

  /** The Archive step that is still unspent. */
  ghost function CauseOf(t: Trace): Event
    requires AutoCause(t)
  {
    if t.event.ArchiveDone? then t.event else CauseOf(t.past)
  }

  lemma {:induction false} BackedSince(t: Trace, k: nat)
    requires LawfulTrace(t) && AutoCause(t)
    requires CauseOf(t).ArchiveDone? && k < |CauseOf(t).logs| == |CauseOf(t).results|
    ensures CoveredBy(t, CauseOf(t).logs[k], CauseOf(t).results[k])
  {
    if t.event.ArchiveDone? {
      assert Backed(t.past, t.event.logs[k], t.event.results[k]);
    } else {
      BackedSince(t.past, k);
    }
  }

  lemma {:induction false} CausePosition(t: Trace) returns (c: nat)
    requires AutoCause(t)
    ensures c < |History(t)| && History(t)[c] == CauseOf(t) && CleanArchive(CauseOf(t))
    ensures NoneBetween(History(t), SpendsArchive, c, |History(t)|)
  {
    if t.event.ArchiveDone? {
      c := |History(t.past)|;
    } else {
      c := CausePosition(t.past);
    }
  }

  /**
   * Where the log of a clean result is: a downloaded log in the file it was catalogued with, unless the name
   * was reused; a skipped log in its row's file, if that held this very recording at the match and the name was
   * not reused, or if a later rename brought it.
   */
  ghost predicate Located(t: Trace, log: FlightLog, r: Result) {
    match r
    case Downloaded(key) => exists j, path :: StoredAt(t, log, key, j, path)
    case Skipped(key) => exists j, u :: MatchedAt(t, log, key, j, u)
    case _ => false
  }

  lemma {:induction false} CleanResultsAreLocated(t: Trace)
    requires LawfulTrace(t) && AutoCause(t) && CleanArchive(CauseOf(t))
    ensures CycleLocated(t, CauseOf(t))
  {
    var e := CauseOf(t);
    forall k | 0 <= k < |e.logs| ensures Located(t, e.logs[k], e.results[k]) {
      BackedSince(t, k);
      if e.results[k].Downloaded? {
        var j, path := StoredSince(t, e.logs[k], e.results[k].key);
      } else {
        var j, u := MatchedSince(t, e.logs[k], e.results[k].key);
      }
    }
  }

  ghost predicate CycleLocated(t: Trace, e: Event) {
    CleanArchive(e) && forall k :: 0 <= k < |e.logs| ==> Located(t, e.logs[k], e.results[k])
  }

  /** Before position `i` came, as the last archive, a clean Archive step each of whose logs is then located. */
  ghost predicate ErasesLocated(h: seq<Event>, i: nat)
    requires i <= |h|
  {
    exists u, c: nat :: History(u) == h[..i] && c < i && NoneBetween(h, SpendsArchive, c, i) && CycleLocated(u, h[c])
  }

  lemma {:induction false} EraseLocates(t: Trace, i: nat)
    requires LawfulTrace(t) && i < |History(t)| && History(t)[i].EraseSent? && History(t)[i].auto
    ensures ErasesLocated(History(t), i)
  {
    var h := History(t);
    var u := PrefixBefore(t, i);
    var c := CausePosition(u);
    assert forall j :: 0 <= j < i ==> History(u)[j] == h[j];
    CleanResultsAreLocated(u);
  }

  /**
   * When an automatic LOG_ERASE goes out: each log the cycle downloaded is in its file if and only if the last
   * later rename to that name, all of them within the cycle, did not bring another log; each log it skipped is in
   * its row's file if and only if the last such rename brought it, or there was none and the name held this very
   * recording at the match.
   */
  lemma {:induction false} ErasedLogIsLocated(eraseAfterSuccess: bool, steps: seq<Step>, i: nat)
    requires i < |History(Run(eraseAfterSuccess, steps).trace)|
    requires var e := History(Run(eraseAfterSuccess, steps).trace)[i]; e.EraseSent? && e.auto
    ensures ErasesLocated(History(Run(eraseAfterSuccess, steps).trace), i)
  {
    EveryRunIsLawful(eraseAfterSuccess, steps);
    EraseLocates(Run(eraseAfterSuccess, steps).trace, i);
  }

  /** The two conditions, spelled out. */
  lemma {:induction false} LocatedMeans(t: Trace, log: FlightLog, key: Digest, j: nat, path: Path, u: Trace)
    ensures StoredAt(t, log, key, j, path) ==>
              (FileAt(t, path) == Holds(log) <==> LastRename(History(t), path, j, |History(t)|) in {Absent, Holds(log)})
    ensures MatchedAt(t, log, key, j, u) ==>
              var name := History(t)[j].row.path; var last := LastRename(History(t), name, j, |History(t)|);
              FileAt(t, name) == Holds(log) <==> last == Holds(log) || (last == Absent && FileAt(u, name) == Holds(log))
  {
  }
}
