/** The invariants of the archive service, and that every run leaves a lawful history. */
module ArchiveSafety {
  import opened ArchiveEvents
  import opened ArchiveService

  // ---- The flag, the catalog and the temporary files mirror the history ----

  ghost predicate CancelInv(s: State) {
    s.shared.cancel == CancelPending(s.trace)
  }

  ghost predicate CatalogInv(s: State) {
    s.disk.catalog == CatalogOf(s.trace)
  }

  ghost predicate FsyncedBelow(t: Trace, n: nat) {
    t.Then? ==> FsyncedBelow(t.past, n) && (t.event.Fsynced? ==> t.event.partial < n)
  }

  ghost function CurrentPartial(stage: Stage): int {
    match stage
    case Downloading(p) => p
    case Verifying(p, _, _) => p
    case Preparing(p, _, _) => p
    case Syncing(p, _, _, _) => p
    case _ => -1
  }

  ghost predicate PartialInv(s: State) {
    FsyncedBelow(s.trace, s.disk.partials) && (s.main.Working? ==> CurrentPartial(s.main.stage) < s.disk.partials)
  }

  // ---- Where the main loop can be while the shared state says what ----

  ghost predicate CyclePhase(p: Phase) {
    p == Enumerate || p == Archive || p == EraseAll
  }

  /** Only the main loop enters the automatic cycle and the manual erase; it is then nowhere else. */
  ghost predicate Compatible(main: Main, p: Phase) {
    match main
    case Doing(q) => CyclePhase(p) || p == ManualErase ==> q == p
    case Working(job, _) => p != ManualErase && (CyclePhase(p) ==> !job.manual && p == Archive)
    case Sending(auto) => if auto then p != ManualErase && (CyclePhase(p) ==> p == EraseAll) else !CyclePhase(p)
    case Admitting => !CyclePhase(p) && p != ManualErase
    case BeginCycle => !CyclePhase(p) && p != ManualErase
    case Ending => !CyclePhase(p) && p != ManualErase
    case Returning => !CyclePhase(p)
    case _ => true
  }

  ghost predicate PhaseInv(s: State) {
    Compatible(s.main, s.shared.phase)
  }

  /** What the main loop will act on next, if nothing overrides it. */
  ghost function Intent(main: Main, p: Phase): Phase {
    match main
    case Draining => p
    case Handling(_) => p
    case Reading => p
    case Storing(next) => next
    case Doing(q) => q
    case Working(job, _) => if job.manual then ManualDownload else Archive
    case Sending(auto) => if auto then EraseAll else ManualErase
    case _ => Cleanup
  }

  ghost predicate CycleInv(s: State) {
    CyclePhase(Intent(s.main, s.shared.phase)) ==> LastReset(s.trace) == CycleReset
  }

  ghost predicate EraseInv(s: State) {
    && (Intent(s.main, s.shared.phase) == EraseAll ==> AutoCause(s.trace))
    && (s.main == Sending(true) ==> CheckPending(s.trace))
    && (Intent(s.main, s.shared.phase) == ManualErase || s.main == Handling(Erase) ==> ManualCause(s.trace))
  }

  // ---- The archive pipeline ----

  ghost predicate JobShape(job: Job, stage: Stage) {
    && |job.results| <= |job.logs|
    && (stage == Finishing <==> Cancelled in job.results)
    && (stage != Finishing && stage != Next ==> |job.results| < |job.logs|)
  }

  ghost predicate JobInv(s: State) {
    s.main.Working? ==>
      && JobShape(s.main.job, s.main.stage)
      && AllBacked(s.trace, s.main.job.logs, s.main.job.results)
      && (!s.main.job.manual ==> s.main.job.logs == LastEnumeration(s.trace))
  }

  /** Written, fsynced and renamed, and the name still refers to the log. */
  ghost predicate InPlace(t: Trace, p: Partial, path: Path, log: FlightLog) {
    WroteIn(t, p, log) && FsyncedIn(t, p) && RenamedIn(t, p, path) && FileAt(t, path) == Holds(log)
  }

  ghost predicate OnDisk(t: Trace, log: FlightLog, stage: Stage) {
    match stage
    case Downloading(p) => !FsyncedIn(t, p)
    case Verifying(p, _, _) => WroteIn(t, p, log)
    case Preparing(p, _, _) => WroteIn(t, p, log)
    case Syncing(p, _, _, _) => WroteIn(t, p, log)
    case Renaming(p, _, _, _) => WroteIn(t, p, log) && FsyncedIn(t, p)
    case SyncingDir(p, _, _, path) => InPlace(t, p, path, log)
    case Confirming(p, _, _, path) => InPlace(t, p, path, log)
    case Inserting(p, _, _, path) => InPlace(t, p, path, log)
    case Probing(key, row) => key in CatalogOf(t) && CatalogOf(t)[key] == row && IsCandidate(row, log)
    case _ => true
  }

  ghost predicate DiskInv(s: State) {
    s.main.Working? && |s.main.job.results| < |s.main.job.logs| ==>
      OnDisk(s.trace, s.main.job.logs[|s.main.job.results|], s.main.stage)
  }

  // ---- Control: the flag, the phase and the causes ----

  ghost predicate Control(s: State) {
    CancelInv(s) && PhaseInv(s) && CycleInv(s) && EraseInv(s)
  }

  lemma {:induction false} PopControl(s: State)
    requires Control(s) && s.main == Draining
    ensures Control(PopCommand(s))
  {
  }

  lemma {:induction false} HandleControl(s: State, cmd: Command)
    requires Control(s) && s.main == Handling(cmd)
    ensures Control(HandleCommand(s, cmd))
  {
  }

  lemma {:induction false} CycleStartControl(s: State, connected: bool)
    requires Control(s)
    ensures s.main == Admitting ==> Control(AdmitStart(s, connected))
    ensures s.main == BeginCycle ==> Control(LowerForCycle(s))
  {
  }

  lemma {:induction false} StoreControl(s: State, next: Phase)
    requires Control(s)
    ensures s.main == Storing(next) ==> Control(Goto(SetPhase(s, next), Draining))
    ensures s.main == Reading ==> Control(Goto(s, Doing(s.shared.phase)))
  {
  }

  lemma {:induction false} DoControl(s: State, p: Phase, yes: bool, alive: bool, logs: seq<FlightLog>, evicted: set<Path>)
    requires Control(s) && s.main == Doing(p)
    ensures Control(DoPhase(s, p, yes, alive, logs, evicted))
  {
  }

  lemma {:induction false} EndControl(s: State, auto: bool, sent: bool, obeyed: bool)
    requires Control(s)
    ensures s.main == Sending(auto) ==> Control(SendErase(s, auto, sent, obeyed))
    ensures s.main == Ending ==> Control(EndCleanup(s))
    ensures s.main == Returning ==> Control(ReturnToIdle(s))
  {
  }

  lemma {:induction false} RaiseControl(s: State)
    requires Control(s)
    ensures Control(Raise(s))
  {
  }

  lemma {:induction false} ActOnControl(s: State, seen: Phase, expected: Phase, next: Phase)
    requires Control(s) && (next == WaitDisarm || next == Delay)
    ensures Control(ActOn(s, seen, expected, next))
  {
  }

  lemma {:induction false} RxControl(s: State, step: Step)
    requires Control(s)
    ensures Control(RxStep(s, step))
  {
    match (s.local.rx, step)
    case (SawArmed(p), ActArmed) => ActOnControl(SetRx(s, RxIdle), p, WaitArm, WaitDisarm);
    case (Flagged(p), ActDisarmed) => ActOnControl(SetRx(s, RxIdle), p, WaitDisarm, Delay);
    case _ =>
  }

  lemma {:induction false} JudgeControl(s: State, cmd: Command, p: Phase, connected: bool)
    requires Control(s)
    ensures Control(JudgeRequest(s, cmd, p, connected))
  {
    RaiseControl(SetUdp(s, Pushing(Erase)));
  }

  lemma {:induction false} UdpControl(s: State, step: Step)
    requires Control(s)
    ensures Control(UdpStep(s, step))
  {
    match (s.local.udp, step)
    case (UdpIdle, Request(cmd)) => RaiseControl(SetUdp(s, Pushing(Cancel)));
    case (Judging(cmd, p), Judge(connected)) => JudgeControl(s, cmd, p, connected);
    case _ =>
  }

  /** Events of the pipeline that say nothing about the flag or an erase. */
  ghost predicate Quiet(e: Event) {
    e.Matched? || e.Wrote? || e.DirMade? || e.Fsynced? || e.Renamed? || e.DirSynced? || e.Inserted?
  }

  ghost predicate QuietGrowth(t: Trace, u: Trace) {
    u == t || (u.Then? && u.past == t && Quiet(u.event))
  }

  lemma {:induction false} QuietControl(s: State, s': State)
    requires Control(s) && s.main.Working? && s'.main.Working? && s.main.job.manual == s'.main.job.manual
    requires s.shared == s'.shared && QuietGrowth(s.trace, s'.trace)
    ensures Control(s')
  {
  }

  lemma {:induction false} FinishControl(s: State, job: Job, stage: Stage)
    requires Control(s) && s.main == Working(job, stage) && JobShape(job, stage)
    requires stage == Finishing || |job.results| == |job.logs|
    ensures Control(Finish(s, job))
  {
    if !CancelledOrFailed(job.results) {
      forall k | 0 <= k < |job.results| ensures job.results[k].Downloaded? || job.results[k].Skipped? {
        assert job.results[k] in job.results;
      }
    }
  }

  lemma {:induction false} WorkControl(s: State, job: Job, stage: Stage, w: Step)
    requires Control(s) && s.main == Working(job, stage) && JobShape(job, stage) && w.Work?
    ensures Control(DoWork(s, job, stage, w))
  {
    if stage == Finishing || (stage == Next && |job.results| == |job.logs|) {
      FinishControl(s, job, stage);
    } else {
      QuietControl(s, DoWork(s, job, stage, w));
    }
  }

  // ---- Pipeline: each log from lookup to catalog row ----

  ghost predicate Pipeline(s: State) {
    CatalogInv(s) && PartialInv(s) && JobInv(s) && DiskInv(s)
  }

  /** What the archive loop relies on is not disturbed by steps outside it. */
  lemma {:induction false} PipelineCarried(s: State, s': State)
    requires Pipeline(s)
    requires s'.disk.catalog == s.disk.catalog && s'.disk.partials == s.disk.partials
    requires s'.main == s.main || !s'.main.Working?
    requires s'.trace == s.trace || (s'.trace.Then? && s'.trace.past == s.trace)
    requires s'.trace == s.trace || s'.trace.event.CancelRaised?
             || (!s'.main.Working? && !s'.trace.event.Inserted? && !s'.trace.event.Fsynced?)
    ensures Pipeline(s')
  {
  }

  lemma {:induction false} PipelineStarted(s: State, s': State)
    requires Pipeline(s) && s'.disk == s.disk
    requires s'.main.Working? && s'.main.stage == Next && s'.main.job.results == []
    requires s'.trace == Then(s.trace, Enumerated(LastEnumeration(s'.trace)))
    requires !s'.main.job.manual ==> s'.main.job.logs == LastEnumeration(s'.trace)
    ensures Pipeline(s')
  {
  }

  /** Events after which the rows of this enumeration still count. */
  ghost predicate KeepsRows(e: Event) {
    Quiet(e) || e.CancelRaised?
  }

  /** The next result joins the backed ones. */
  lemma {:induction false} ResultBacked(t: Trace, u: Trace, job: Job, r: Result)
    requires AllBacked(t, job.logs, job.results) && |job.results| < |job.logs|
    requires u == t || (u.Then? && u.past == t && KeepsRows(u.event))
    requires Backed(u, job.logs[|job.results|], r)
    ensures AllBacked(u, job.logs, job.results + [r])
  {
    BackedGrows(t, u, job.logs, job.results);
  }

  lemma {:induction false} BackedGrows(t: Trace, u: Trace, logs: seq<FlightLog>, results: seq<Result>)
    requires AllBacked(t, logs, results)
    requires u == t || (u.Then? && u.past == t && KeepsRows(u.event))
    ensures AllBacked(u, logs, results)
  {
    forall k | 0 <= k < |results| ensures Backed(u, logs[k], results[k]) {
      assert Backed(t, logs[k], results[k]);
    }
  }

  lemma {:induction false} FreshPartial(t: Trace, n: nat)
    requires FsyncedBelow(t, n)
    ensures !FsyncedIn(t, n)
  {
    if t.Then? {
      FreshPartial(t.past, n);
    }
  }

  lemma {:induction false} FsyncedBelowMore(t: Trace, n: nat)
    requires FsyncedBelow(t, n)
    ensures FsyncedBelow(t, n + 1)
  {
    if t.Then? {
      FsyncedBelowMore(t.past, n);
    }
  }

  lemma {:induction false} WorkBeforePipeline(s: State, job: Job, stage: Stage, w: Step)
    requires Pipeline(s) && LawfulTrace(s.trace) && s.main == Working(job, stage) && w.Work?
    requires |job.results| < |job.logs| && stage != Finishing
    ensures Pipeline(WorkBefore(s, job, stage, w)) && LawfulTrace(WorkBefore(s, job, stage, w).trace)
  {
    var s' := WorkBefore(s, job, stage, w);
    FreshPartial(s.trace, s.disk.partials);
    FsyncedBelowMore(s.trace, s.disk.partials);
    BackedGrows(s.trace, s'.trace, job.logs, job.results);
    if s'.main.job.results != job.results {
      ResultBacked(s.trace, s'.trace, job, s'.main.job.results[|job.results|]);
    }
  }

  lemma {:induction false} DownloadPipeline(s: State, job: Job, stage: Stage, w: Step)
    requires Pipeline(s) && LawfulTrace(s.trace) && s.main == Working(job, stage) && w.Work?
    requires |job.results| < |job.logs| && stage != Finishing
    ensures Pipeline(WorkDownload(s, job, stage, w)) && LawfulTrace(WorkDownload(s, job, stage, w).trace)
  {
    var s' := WorkDownload(s, job, stage, w);
    BackedGrows(s.trace, s'.trace, job.logs, job.results);
    if s'.main.job.results != job.results {
      ResultBacked(s.trace, s'.trace, job, s'.main.job.results[|job.results|]);
    }
  }

  lemma {:induction false} FinalizePipeline(s: State, job: Job, stage: Stage, w: Step)
    requires Pipeline(s) && LawfulTrace(s.trace) && s.main == Working(job, stage) && w.Work?
    requires |job.results| < |job.logs| && stage != Finishing
    ensures Pipeline(WorkFinalize(s, job, stage, w)) && LawfulTrace(WorkFinalize(s, job, stage, w).trace)
  {
    var s' := WorkFinalize(s, job, stage, w);
    BackedGrows(s.trace, s'.trace, job.logs, job.results);
    if s'.main.job.results != job.results {
      ResultBacked(s.trace, s'.trace, job, s'.main.job.results[|job.results|]);
    }
  }

  /** A row is inserted only for a log whose own temporary file was fsynced and renamed and is in place. */
  lemma {:induction false} CatalogPipeline(s: State, job: Job, stage: Stage, w: Step)
    requires Pipeline(s) && LawfulTrace(s.trace) && s.main == Working(job, stage) && w.Work?
    requires |job.results| < |job.logs| && stage != Finishing
    ensures Pipeline(WorkCatalog(s, job, stage, w)) && LawfulTrace(WorkCatalog(s, job, stage, w).trace)
  {
    var s' := WorkCatalog(s, job, stage, w);
    BackedGrows(s.trace, s'.trace, job.logs, job.results);
    if s'.main.job.results != job.results {
      ResultBacked(s.trace, s'.trace, job, s'.main.job.results[|job.results|]);
    }
  }

  // ---- Every step keeps everything ----

  ghost predicate Safe(s: State) {
    Control(s) && Pipeline(s) && LawfulTrace(s.trace)
  }

  lemma {:induction false} CommandSafe(s: State, cmd: Command)
    requires Safe(s)
    ensures s.main == Draining ==> Safe(PopCommand(s))
    ensures s.main == Handling(cmd) ==> Safe(HandleCommand(s, cmd))
  {
    if s.main == Draining {
      PopControl(s);
      PipelineCarried(s, PopCommand(s));
    } else if s.main == Handling(cmd) {
      HandleControl(s, cmd);
      PipelineCarried(s, HandleCommand(s, cmd));
    }
  }

  lemma {:induction false} CycleStartSafe(s: State, connected: bool)
    requires Safe(s)
    ensures s.main == Admitting ==> Safe(AdmitStart(s, connected))
    ensures s.main == BeginCycle ==> Safe(LowerForCycle(s))
  {
    CycleStartControl(s, connected);
    PipelineCarried(s, AdmitStart(s, connected));
    PipelineCarried(s, LowerForCycle(s));
  }

  lemma {:induction false} StoreSafe(s: State, next: Phase)
    requires Safe(s)
    ensures s.main == Storing(next) ==> Safe(Goto(SetPhase(s, next), Draining))
    ensures s.main == Reading ==> Safe(Goto(s, Doing(s.shared.phase)))
  {
    StoreControl(s, next);
    PipelineCarried(s, Goto(SetPhase(s, next), Draining));
    PipelineCarried(s, Goto(s, Doing(s.shared.phase)));
  }

  lemma {:induction false} DoSafe(s: State, p: Phase, yes: bool, alive: bool, logs: seq<FlightLog>, evicted: set<Path>)
    requires Safe(s) && s.main == Doing(p)
    ensures Safe(DoPhase(s, p, yes, alive, logs, evicted))
  {
    var s' := DoPhase(s, p, yes, alive, logs, evicted);
    DoControl(s, p, yes, alive, logs, evicted);
    if p == Archive || p == ManualDownload {
      PipelineStarted(s, s');
    } else {
      PipelineCarried(s, s');
    }
  }

  lemma {:induction false} EndSafe(s: State, auto: bool, sent: bool, obeyed: bool)
    requires Safe(s)
    ensures s.main == Sending(auto) ==> Safe(SendErase(s, auto, sent, obeyed))
    ensures s.main == Ending ==> Safe(EndCleanup(s))
    ensures s.main == Returning ==> Safe(ReturnToIdle(s))
  {
    EndControl(s, auto, sent, obeyed);
    PipelineCarried(s, SendErase(s, auto, sent, obeyed));
    PipelineCarried(s, EndCleanup(s));
    PipelineCarried(s, ReturnToIdle(s));
  }

  lemma {:induction false} WorkSafe(s: State, job: Job, stage: Stage, w: Step)
    requires Safe(s) && s.main == Working(job, stage) && w.Work?
    ensures Safe(DoWork(s, job, stage, w))
  {
    WorkControl(s, job, stage, w);
    if stage == Finishing || (stage == Next && |job.results| == |job.logs|) {
      PipelineCarried(s, Finish(s, job));
    } else if stage.Next? || stage.Looking? || stage.Probing? || stage.Ready? {
      WorkBeforePipeline(s, job, stage, w);
    } else if stage.Downloading? || stage.Verifying? {
      DownloadPipeline(s, job, stage, w);
    } else if stage.Preparing? || stage.Syncing? || stage.Renaming? {
      FinalizePipeline(s, job, stage, w);
    } else {
      CatalogPipeline(s, job, stage, w);
    }
  }

  lemma {:induction false} DoStepSafe(s: State, step: Step)
    requires Safe(s) && s.main.Doing? && step.Do?
    ensures Safe(MainStep(s, step))
  {
    DoSafe(s, s.main.phase, step.yes, step.alive, step.logs, step.evicted);
  }

  lemma {:induction false} WorkStepSafe(s: State, step: Step)
    requires Safe(s) && s.main.Working? && step.Work?
    ensures Safe(MainStep(s, step))
  {
    WorkSafe(s, s.main.job, s.main.stage, step);
  }

  lemma {:induction false} CommandStepSafe(s: State, step: Step)
    requires Safe(s) && (s.main.Draining? || s.main.Handling? || s.main.Admitting? || s.main.BeginCycle?)
    ensures Safe(MainStep(s, step))
  {
    match (s.main, step)
    case (Draining, Pop) => CommandSafe(s, Cancel);
    case (Handling(cmd), Handle) => CommandSafe(s, cmd);
    case (Admitting, Admit(connected)) => CycleStartSafe(s, connected);
    case (BeginCycle, Lower) => CycleStartSafe(s, true);
    case _ =>
  }

  lemma {:induction false} PhaseStepSafe(s: State, step: Step)
    requires Safe(s) && (s.main.Storing? || s.main.Reading?)
    ensures Safe(MainStep(s, step))
  {
    match (s.main, step)
    case (Storing(next), Store) => StoreSafe(s, next);
    case (Reading, Read) => StoreSafe(s, Boot);
    case _ =>
  }

  lemma {:induction false} EndStepSafe(s: State, step: Step)
    requires Safe(s) && (s.main.Sending? || s.main.Ending? || s.main.Returning?)
    ensures Safe(MainStep(s, step))
  {
    match (s.main, step)
    case (Sending(auto), Send(sent, obeyed)) => EndSafe(s, auto, sent, obeyed);
    case (Ending, End) => EndSafe(s, true, true, true);
    case (Returning, Return) => EndSafe(s, true, true, true);
    case _ =>
  }

  lemma {:induction false} MainSafe(s: State, step: Step)
    requires Safe(s)
    ensures Safe(MainStep(s, step))
  {
    match s.main
    case Doing(_) =>
      if step.Do? {
        DoStepSafe(s, step);
      }
    case Working(_, _) =>
      if step.Work? {
        WorkStepSafe(s, step);
      }
    case Draining => CommandStepSafe(s, step);
    case Handling(_) => CommandStepSafe(s, step);
    case Admitting => CommandStepSafe(s, step);
    case BeginCycle => CommandStepSafe(s, step);
    case Storing(_) => PhaseStepSafe(s, step);
    case Reading => PhaseStepSafe(s, step);
    case _ => EndStepSafe(s, step);
  }

  lemma {:induction false} RxSafe(s: State, step: Step)
    requires Safe(s)
    ensures Safe(RxStep(s, step))
  {
    RxControl(s, step);
    PipelineCarried(s, RxStep(s, step));
  }

  lemma {:induction false} UdpSafe(s: State, step: Step)
    requires Safe(s)
    ensures Safe(UdpStep(s, step))
  {
    UdpControl(s, step);
    PipelineCarried(s, UdpStep(s, step));
  }

  lemma {:induction false} RaiseSafe(s: State)
    requires Safe(s)
    ensures Safe(Raise(s))
  {
    RaiseControl(s);
    PipelineCarried(s, Raise(s));
  }

  lemma {:induction false} RecordSafe(s: State, log: FlightLog)
    requires Safe(s)
    ensures Safe(RecordLog(s, log))
  {
    PipelineCarried(s, RecordLog(s, log));
  }

  lemma {:induction false} RestartSafe(s: State, files: Files, how: Crash)
    requires Safe(s)
    ensures Safe(Restart(s, files, how))
  {
    PipelineCarried(s, Restart(s, files, how));
  }

  lemma {:induction false} PowerSafe(s: State, left: Path -> Content, lostDays: set<Day>)
    requires Safe(s)
    ensures Safe(LosePower(s, left, lostDays))
  {
    RestartSafe(s, PowerImage(s.disk.files, left, lostDays), PowerLoss(left));
  }

  lemma {:induction false} StepSafe(s: State, step: Step)
    requires Safe(s)
    ensures Safe(Apply(s, step))
  {
    if IsRx(step) {
      RxSafe(s, step);
    } else if IsUdp(step) {
      UdpSafe(s, step);
    } else if step.RaiseCancel? {
      RaiseSafe(s);
    } else if step.Record? {
      RecordSafe(s, step.log);
    } else if step.Kill? {
      RestartSafe(s, s.disk.files, Killed);
    } else if step.CutPower? {
      PowerSafe(s, step.left, step.lostDays);
    } else {
      MainSafe(s, step);
    }
  }

  /** In every interleaved run, crashes included, each event meets what the design demands of the past. */
  lemma {:induction false} EveryRunIsLawful(eraseAfterSuccess: bool, steps: seq<Step>)
    ensures Safe(Run(eraseAfterSuccess, steps))
    ensures LawfulTrace(Run(eraseAfterSuccess, steps).trace)
  {
    if steps != [] {
      EveryRunIsLawful(eraseAfterSuccess, steps[..|steps| - 1]);
      StepSafe(Run(eraseAfterSuccess, steps[..|steps| - 1]), steps[|steps| - 1]);
    }
  }
}
