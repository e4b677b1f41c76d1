/**
 * Runs in which a log goes missing: an enumeration that misses it, a final name given twice within a second,
 * a power loss that takes a synced file with its new directory, a probe match whose file was evicted, and a new
 * recording taken for an old one.
 */
module ArchiveCounterexample {
  import opened ArchiveEvents
  import opened ArchiveService
  import opened ArchiveSafety
  import opened ArchiveGuarantees
  import opened ArchiveFiles
  import opened Triggers

  const FIRST := FlightLog(1, 90, 0)
  const SECOND := FlightLog(2, 90, 1)

  /** The second within which the logs below are finalized. */
  const NAME := Path(0, 0)

  /** A state of the run: idle threads, disarmed, not cancelled. */
  ghost function At(p: Phase, main: Main, queue: seq<Command>, udp: Udp, d: Disk, fc: Controller, t: Trace): State {
    State(Shared(p, false, false, false), main, Local(true, queue, RxIdle, udp, Download({}, false)), d, fc, t)
  }

  /** The steps end in this state. The run itself is looked at only where `Unfold` is mentioned. */
  ghost predicate Leads(steps: seq<Step>, s: State) {
    forall x {:trigger Unfold(x)} :: Unfold(x) && x == steps ==> Run(true, x) == s
  }

  lemma {:induction false} Extend(steps: seq<Step>, s: State, step: Step, s': State) returns (more: seq<Step>)
    requires Leads(steps, s) && Apply(s, step) == s'
    ensures Leads(more, s')
  {
    more := steps + [step];
    assert Unfold(steps);
    assert more[..|steps|] == steps;
  }

  // One lemma per kind of step, so that each proof below opens one transition only.

  lemma {:induction false} ByUdp(steps: seq<Step>, s: State, step: Step) returns (more: seq<Step>)
    requires Leads(steps, s) && IsUdp(step)
    ensures Leads(more, UdpStep(s, step))
  {
    more := Extend(steps, s, step, UdpStep(s, step));
  }

  lemma {:induction false} ByPop(steps: seq<Step>, s: State) returns (more: seq<Step>)
    requires Leads(steps, s) && s.main == Draining
    ensures Leads(more, PopCommand(s))
  {
    more := Extend(steps, s, Pop, PopCommand(s));
  }

  lemma {:induction false} ByHandle(steps: seq<Step>, s: State, cmd: Command) returns (more: seq<Step>)
    requires Leads(steps, s) && s.main == Handling(cmd)
    ensures Leads(more, HandleCommand(s, cmd))
  {
    more := Extend(steps, s, Handle, HandleCommand(s, cmd));
  }

  lemma {:induction false} ByAdmission(steps: seq<Step>, s: State) returns (more: seq<Step>)
    requires Leads(steps, s) && s.main == Admitting && !s.shared.armed
    ensures Leads(more, LowerForCycle(ConsumeRequest(s)))
  {
    more := Extend(steps, s, Admit(true), ConsumeRequest(s));
    more := Extend(more, ConsumeRequest(s), Lower, LowerForCycle(ConsumeRequest(s)));
  }

  lemma {:induction false} ByStore(steps: seq<Step>, s: State, next: Phase) returns (more: seq<Step>)
    requires Leads(steps, s) && s.main == Storing(next)
    ensures Leads(more, Goto(SetPhase(s, next), Draining))
  {
    more := Extend(steps, s, Store, Goto(SetPhase(s, next), Draining));
  }

  lemma {:induction false} ByRead(steps: seq<Step>, s: State) returns (more: seq<Step>)
    requires Leads(steps, s) && s.main == Reading
    ensures Leads(more, Goto(s, Doing(s.shared.phase)))
  {
    more := Extend(steps, s, Read, Goto(s, Doing(s.shared.phase)));
  }

  lemma {:induction false} ByDo(steps: seq<Step>, s: State, p: Phase, logs: seq<FlightLog>, evicted: set<Path>)
    returns (more: seq<Step>)
    requires Leads(steps, s) && s.main == Doing(p) && forall log :: log in logs ==> log in s.fc.logs
    ensures Leads(more, DoPhase(s, p, true, true, logs, evicted))
  {
    more := Extend(steps, s, Do(true, true, logs, evicted), DoPhase(s, p, true, true, logs, evicted));
  }

  /** Everything succeeds: the download yields this digest, the clock this final name. */
  ghost function Good(digest: Digest, path: Path): Step {
    Work(true, "", digest, "probe", path)
  }

  lemma {:induction false} ByWork(steps: seq<Step>, s: State, job: Job, stage: Stage, w: Step) returns (more: seq<Step>)
    requires Leads(steps, s) && s.main == Working(job, stage) && w.Work?
    ensures Leads(more, DoWork(s, job, stage, w))
  {
    more := Extend(steps, s, w, DoWork(s, job, stage, w));
  }

  lemma {:induction false} BySend(steps: seq<Step>, s: State, auto: bool, sent: bool) returns (more: seq<Step>)
    requires Leads(steps, s) && s.main == Sending(auto)
    ensures Leads(more, SendErase(s, auto, sent, true))
  {
    more := Extend(steps, s, Send(sent, true), SendErase(s, auto, sent, true));
  }

  lemma {:induction false} ByEnd(steps: seq<Step>, s: State) returns (more: seq<Step>)
    requires Leads(steps, s) && s.main == Ending
    ensures Leads(more, EndCleanup(s))
  {
    more := Extend(steps, s, End, EndCleanup(s));
  }

  lemma {:induction false} ByReturn(steps: seq<Step>, s: State) returns (more: seq<Step>)
    requires Leads(steps, s) && s.main == Returning
    ensures Leads(more, ReturnToIdle(s))
  {
    more := Extend(steps, s, Return, ReturnToIdle(s));
  }

  // The segments of the run.

  lemma {:induction false} Accept(steps: seq<Step>, p: Phase, cmd: Command, d: Disk, fc: Controller, t: Trace)
    returns (more: seq<Step>)
    requires Leads(steps, At(p, Draining, [], UdpIdle, d, fc, t)) && !IsBusy(p) && (cmd == Start || cmd == Refresh)
    ensures Leads(more, At(p, Draining, [], Pushing(cmd), d, fc, t))
  {
    more := ByUdp(steps, At(p, Draining, [], UdpIdle, d, fc, t), Request(cmd));
    more := ByUdp(more, At(p, Draining, [], Judging(cmd, p), d, fc, t), Judge(true));
  }

  /** A companion request is accepted while idle and queued. */
  lemma {:induction false} Queue(steps: seq<Step>, p: Phase, cmd: Command, d: Disk, fc: Controller, t: Trace)
    returns (more: seq<Step>)
    requires Leads(steps, At(p, Draining, [], UdpIdle, d, fc, t)) && !IsBusy(p) && (cmd == Start || cmd == Refresh)
    ensures Leads(more, At(p, Draining, [cmd], UdpIdle, d, fc, t))
  {
    more := Accept(steps, p, cmd, d, fc, t);
    assert [] + [cmd] == [cmd];
    more := ByUdp(more, At(p, Draining, [], Pushing(cmd), d, fc, t), Push);
  }

  lemma {:induction false} Ask(steps: seq<Step>, p: Phase, cmd: Command, d: Disk, fc: Controller, t: Trace)
    returns (more: seq<Step>)
    requires Leads(steps, At(p, Draining, [], UdpIdle, d, fc, t)) && !IsBusy(p) && (cmd == Start || cmd == Refresh)
    ensures Leads(more, At(p, Handling(cmd), [], UdpIdle, d, fc, Then(t, Popped(cmd))))
  {
    more := Queue(steps, p, cmd, d, fc, t);
    assert [cmd][1..] == [];
    more := ByPop(more, At(p, Draining, [cmd], UdpIdle, d, fc, t));
  }

  /** The next phase is stored, and the loop comes round to it. */
  lemma {:induction false} Enter(steps: seq<Step>, p: Phase, next: Phase, d: Disk, fc: Controller, t: Trace)
    returns (more: seq<Step>)
    requires Leads(steps, At(p, Storing(next), [], UdpIdle, d, fc, t))
    ensures Leads(more, At(next, Doing(next), [], UdpIdle, d, fc, t))
  {
    more := ByStore(steps, At(p, Storing(next), [], UdpIdle, d, fc, t), next);
    more := ByPop(more, At(next, Draining, [], UdpIdle, d, fc, t));
    more := ByRead(more, At(next, Reading, [], UdpIdle, d, fc, t));
  }

  /** From the start of the process over the connection and the first heartbeat to the idle service. */
  lemma {:induction false} WakeUp(steps: seq<Step>, d: Disk, fc: Controller, t: Trace) returns (more: seq<Step>)
    requires Leads(steps, At(Boot, Draining, [], UdpIdle, d, fc, t))
    ensures Leads(more, At(WaitArm, Draining, [], UdpIdle, d, fc, t))
  {
    more := ByPop(steps, At(Boot, Draining, [], UdpIdle, d, fc, t));
    more := ByRead(more, At(Boot, Reading, [], UdpIdle, d, fc, t));
    more := ByDo(more, At(Boot, Doing(Boot), [], UdpIdle, d, fc, t), Boot, [], {});
    more := Enter(more, Boot, Connect, d, fc, t);
    more := ByDo(more, At(Connect, Doing(Connect), [], UdpIdle, d, fc, t), Connect, [], {});
    more := Enter(more, Connect, WaitHeartbeat, d, fc, t);
    more := ByDo(more, At(WaitHeartbeat, Doing(WaitHeartbeat), [], UdpIdle, d, fc, t), WaitHeartbeat, [], {});
    more := ByStore(more, At(WaitHeartbeat, Storing(WaitArm), [], UdpIdle, d, fc, t), WaitArm);
  }

  /** A started cycle up to the first log of its enumeration. */
  ghost function Begun(t: Trace, logs: seq<FlightLog>): Trace {
    Then(Then(Then(t, Popped(Start)), CancelLowered(CycleReset)), Enumerated(logs))
  }

  lemma {:induction false} CycleBegins(steps: seq<Step>, p: Phase, d: Disk, fc: Controller, t: Trace, logs: seq<FlightLog>)
    returns (more: seq<Step>)
    requires Leads(steps, At(p, Draining, [], UdpIdle, d, fc, t)) && !IsBusy(p) && forall log :: log in logs ==> log in fc.logs
    ensures Leads(more, At(Archive, Working(Job(false, logs, []), Next), [], UdpIdle, d, fc, Begun(t, logs)))
  {
    more := Ask(steps, p, Start, d, fc, t);
    var t1 := Then(t, Popped(Start));
    more := ByHandle(more, At(p, Handling(Start), [], UdpIdle, d, fc, t1), Start);
    more := ByAdmission(more, At(p, Admitting, [], UdpIdle, d, fc, t1));
    var t2 := Then(t1, CancelLowered(CycleReset));
    more := Enter(more, p, Enumerate, d, fc, t2);
    more := ByDo(more, At(Enumerate, Doing(Enumerate), [], UdpIdle, d, fc, t2), Enumerate, [], {});
    more := Enter(more, Enumerate, Archive, d, fc, t2);
    more := ByDo(more, At(Archive, Doing(Archive), [], UdpIdle, d, fc, t2), Archive, logs, {});
  }

  ghost function InJob(job: Job, stage: Stage, d: Disk, fc: Controller, t: Trace): State {
    At(Archive, Working(job, stage), [], UdpIdle, d, fc, t)
  }

  /** The next log is not in the catalog. */
  lemma {:induction false} LookUp(steps: seq<Step>, job: Job, d: Disk, fc: Controller, t: Trace)
    returns (more: seq<Step>)
    requires Leads(steps, InJob(job, Next, d, fc, t)) && |job.results| < |job.logs|
    requires "" !in d.catalog && !HasCandidate(d.catalog, job.logs[|job.results|])
    ensures Leads(more, InJob(job, Ready, d, fc, t))
  {
    more := ByWork(steps, InJob(job, Next, d, fc, t), job, Next, Good("", NAME));
    more := ByWork(more, InJob(job, Looking, d, fc, t), job, Looking, Good("", NAME));
  }

  /** The log is downloaded and verified. */
  lemma {:induction false} Fetch(steps: seq<Step>, job: Job, d: Disk, fc: Controller, t: Trace, digest: Digest)
    returns (more: seq<Step>)
    requires Leads(steps, InJob(job, Ready, d, fc, t)) && |job.results| < |job.logs|
    ensures Leads(more, InJob(job, Preparing(d.partials, digest, "probe"), d.(partials := d.partials + 1), fc,
                              Then(t, Wrote(d.partials, job.logs[|job.results|]))))
  {
    var w, p, log := Good(digest, NAME), d.partials, job.logs[|job.results|];
    var d1 := d.(partials := d.partials + 1);
    more := ByWork(steps, InJob(job, Ready, d, fc, t), job, Ready, w);
    more := ByWork(more, InJob(job, Downloading(p), d1, fc, t), job, Downloading(p), w);
    more := ByWork(more, InJob(job, Verifying(p, digest, "probe"), d1, fc, Then(t, Wrote(p, log))), job,
                   Verifying(p, digest, "probe"), w);
  }

  ghost function WithDay(f: Files, day: Day): Files {
    if day in f.days then f else Files(f.names, f.days + {day}, f.newDays + {day})
  }

  ghost function NamedTrace(t: Trace, f: Files, p: Partial, log: FlightLog, path: Path): Trace {
    var t1 := if path.day in f.days then t else Then(t, DirMade(path.day));
    Then(Then(t1, Fsynced(p)), Renamed(p, path, log))
  }

  /** The verified file gets its final name. */
  lemma {:induction false} NameLog(steps: seq<Step>, job: Job, d: Disk, fc: Controller, t: Trace, p: Partial, digest: Digest,
                                   path: Path) returns (more: seq<Step>)
    requires Leads(steps, InJob(job, Preparing(p, digest, "probe"), d, fc, t)) && |job.results| < |job.logs|
    ensures var log := job.logs[|job.results|];
            Leads(more, InJob(job, SyncingDir(p, digest, "probe", path), d.(files := Linked(WithDay(d.files, path.day), path, log)), fc,
                              NamedTrace(t, d.files, p, log, path)))
  {
    var w, log, day := Good(digest, path), job.logs[|job.results|], path.day;
    var f := d.files;
    var t1 := if day in f.days then t else Then(t, DirMade(day));
    var f1 := WithDay(f, day);
    more := ByWork(steps, InJob(job, Preparing(p, digest, "probe"), d, fc, t), job, Preparing(p, digest, "probe"), w);
    more := ByWork(more, InJob(job, Syncing(p, digest, "probe", path), d.(files := f1), fc, t1), job,
                   Syncing(p, digest, "probe", path), w);
    more := ByWork(more, InJob(job, Renaming(p, digest, "probe", path), d.(files := f1), fc, Then(t1, Fsynced(p))), job,
                   Renaming(p, digest, "probe", path), w);
  }

  ghost function Catalogued(d: Disk, log: FlightLog, digest: Digest, path: Path): Disk {
    d.(files := DaySynced(d.files, path.day), catalog := d.catalog[digest := Row(log.id, log.size, "probe", path)])
  }

  /** The named file is synced, confirmed and catalogued. */
  lemma {:induction false} CatalogLog(steps: seq<Step>, job: Job, d: Disk, fc: Controller, t: Trace, p: Partial, digest: Digest,
                                      path: Path) returns (more: seq<Step>)
    requires Leads(steps, InJob(job, SyncingDir(p, digest, "probe", path), d, fc, t)) && |job.results| < |job.logs|
    requires d.files.names(path).content.Holds?
    ensures var log := job.logs[|job.results|];
            Leads(more, InJob(job.(results := job.results + [Downloaded(digest)]), Next, Catalogued(d, log, digest, path), fc,
                              Then(Then(t, DirSynced(path.day)), Inserted(digest, log, p, path, "probe"))))
  {
    var w, d1 := Good(digest, path), d.(files := DaySynced(d.files, path.day));
    more := ByWork(steps, InJob(job, SyncingDir(p, digest, "probe", path), d, fc, t), job, SyncingDir(p, digest, "probe", path), w);
    more := ByWork(more, InJob(job, Confirming(p, digest, "probe", path), d1, fc, Then(t, DirSynced(path.day))), job,
                   Confirming(p, digest, "probe", path), w);
    more := ByWork(more, InJob(job, Inserting(p, digest, "probe", path), d1, fc, Then(t, DirSynced(path.day))), job,
                   Inserting(p, digest, "probe", path), w);
  }

  /** A clean job ends with the automatic erase. */
  lemma {:induction false} FinishAndErase(steps: seq<Step>, job: Job, d: Disk, fc: Controller, t: Trace)
    returns (more: seq<Step>)
    requires Leads(steps, InJob(job, Next, d, fc, t)) && |job.results| == |job.logs| > 0 && !job.manual
    requires !CancelledOrFailed(job.results)
    ensures Leads(more, At(EraseAll, Storing(Cleanup), [], UdpIdle, d, fc.(logs := {}),
                           Then(Then(Then(t, ArchiveDone(false, job.logs, job.results)), EraseCheckPassed), EraseSent(true, fc.logs))))
  {
    var t1 := Then(t, ArchiveDone(false, job.logs, job.results));
    more := ByWork(steps, InJob(job, Next, d, fc, t), job, Next, Good("", NAME));
    more := Enter(more, Archive, EraseAll, d, fc, t1);
    more := ByDo(more, At(EraseAll, Doing(EraseAll), [], UdpIdle, d, fc, t1), EraseAll, [], {});
    more := BySend(more, At(EraseAll, Sending(true), [], UdpIdle, d, fc, Then(t1, EraseCheckPassed)), true, true);
  }

  /** The disk and the history after one more log was downloaded to this name and catalogued. */
  ghost function DiskWith(d: Disk, log: FlightLog, digest: Digest, path: Path): Disk {
    Catalogued(Disk(d.partials + 1, Linked(WithDay(d.files, path.day), path, log), d.catalog), log, digest, path)
  }

  ghost function TraceWith(t: Trace, d: Disk, log: FlightLog, digest: Digest, path: Path): Trace {
    var named := NamedTrace(Then(t, Wrote(d.partials, log)), d.files, d.partials, log, path);
    Then(Then(named, DirSynced(path.day)), Inserted(digest, log, d.partials, path, "probe"))
  }

  lemma {:induction false} ArchiveLog(steps: seq<Step>, job: Job, d: Disk, fc: Controller, t: Trace, digest: Digest, path: Path)
    returns (more: seq<Step>)
    requires Leads(steps, InJob(job, Next, d, fc, t)) && |job.results| < |job.logs|
    requires "" !in d.catalog && !HasCandidate(d.catalog, job.logs[|job.results|])
    ensures var log := job.logs[|job.results|];
            Leads(more, InJob(job.(results := job.results + [Downloaded(digest)]), Next, DiskWith(d, log, digest, path), fc,
                              TraceWith(t, d, log, digest, path)))
  {
    var p, log := d.partials, job.logs[|job.results|];
    var d1, t1 := Disk(p + 1, d.files, d.catalog), Then(t, Wrote(p, log));
    var d2, t2 := Disk(p + 1, Linked(WithDay(d.files, path.day), path, log), d.catalog), NamedTrace(t1, d.files, p, log, path);
    more := LookUp(steps, job, d, fc, t);
    more := Fetch(more, job, d, fc, t, digest);
    more := NameLog(more, job, d1, fc, t1, p, digest, path);
    more := CatalogLog(more, job, d2, fc, t2, p, digest, path);
  }

  ghost function Both(): Controller {
    Controller({FIRST, SECOND}, {FIRST, SECOND})
  }

  ghost function Blank(): Disk {
    Disk(0, NoFiles(), map[])
  }

  lemma {:induction false} Recorded() returns (steps: seq<Step>)
    ensures Leads(steps, At(WaitArm, Draining, [], UdpIdle, Blank(), Both(), Nothing))
  {
    var one := Controller({FIRST}, {FIRST});
    steps := [];
    assert {} + {FIRST} == {FIRST} && {FIRST} + {SECOND} == {FIRST, SECOND};
    steps := Extend(steps, Initial(true), Record(FIRST), At(Boot, Draining, [], UdpIdle, Blank(), one, Nothing));
    steps := Extend(steps, At(Boot, Draining, [], UdpIdle, Blank(), one, Nothing), Record(SECOND),
                    At(Boot, Draining, [], UdpIdle, Blank(), Both(), Nothing));
    steps := WakeUp(steps, Blank(), Both(), Nothing);
  }

  // ---- An enumeration that misses a log ----

  ghost function Listed(): Trace {
    Then(Then(Then(Nothing, Popped(Refresh)), CancelLowered(ManualReset)), Enumerated([FIRST, SECOND]))
  }

  lemma {:induction false} Refreshed() returns (steps: seq<Step>)
    ensures Leads(steps, At(WaitArm, Draining, [], UdpIdle, Blank(), Both(), Listed()))
  {
    var d, fc := Blank(), Both();
    steps := Recorded();
    steps := Ask(steps, WaitArm, Refresh, d, fc, Nothing);
    var t := Then(Nothing, Popped(Refresh));
    steps := ByHandle(steps, At(WaitArm, Handling(Refresh), [], UdpIdle, d, fc, t), Refresh);
    t := Then(t, CancelLowered(ManualReset));
    steps := Enter(steps, WaitArm, ManualRefresh, d, fc, t);
    steps := ByDo(steps, At(ManualRefresh, Doing(ManualRefresh), [], UdpIdle, d, fc, t), ManualRefresh, [FIRST, SECOND], {});
    steps := ByReturn(steps, At(ManualRefresh, Returning, [], UdpIdle, d, fc, Listed()));
    steps := ByStore(steps, At(ManualRefresh, Storing(WaitArm), [], UdpIdle, d, fc, Listed()), WaitArm);
  }

  ghost function ErasedTrace(t: Trace, logs: seq<FlightLog>, results: seq<Result>, fc: Controller): Trace {
    Then(Then(Then(t, ArchiveDone(false, logs, results)), EraseCheckPassed), EraseSent(true, fc.logs))
  }

  ghost function FirstDisk(): Disk {
    DiskWith(Blank(), FIRST, "first", NAME)
  }

  /** A cycle from an idle service that lists and downloads only the first log. */
  ghost function FirstTrace(t: Trace): Trace {
    TraceWith(Begun(t, [FIRST]), Blank(), FIRST, "first", NAME)
  }

  lemma {:induction false} FirstArchived(before: seq<Step>, p: Phase, t: Trace) returns (steps: seq<Step>)
    requires Leads(before, At(p, Draining, [], UdpIdle, Blank(), Both(), t)) && !IsBusy(p)
    ensures Leads(steps, InJob(Job(false, [FIRST], [Downloaded("first")]), Next, FirstDisk(), Both(), FirstTrace(t)))
  {
    steps := CycleBegins(before, p, Blank(), Both(), t, [FIRST]);
    steps := ArchiveLog(steps, Job(false, [FIRST], []), Blank(), Both(), Begun(t, [FIRST]), "first", NAME);
    assert [] + [Downloaded("first")] == [Downloaded("first")];
  }

  /** The log was neither archived nor wiped on command; listed, if so claimed. */
  ghost predicate Untouched(t: Trace, log: FlightLog, listed: bool) {
    !Archived(t, log) && !WipedOnCommand(t, log) && (listed ==> EnumeratedIn(t, log))
  }

  ghost predicate AboutOther(e: Event, log: FlightLog) {
    !(e.Inserted? && e.log == log) && !(e.EraseSent? && !e.auto)
  }

  lemma {:induction false} StaysUntouched(t: Trace, e: Event, log: FlightLog, listed: bool)
    requires Untouched(t, log, listed) && AboutOther(e, log)
    ensures Untouched(Then(t, e), log, listed)
  {
  }

  lemma {:induction false} ArchivingOther(t: Trace, d: Disk, other: FlightLog, digest: Digest, path: Path, log: FlightLog, listed: bool)
    requires Untouched(t, log, listed) && other != log
    ensures Untouched(TraceWith(t, d, other, digest, path), log, listed)
  {
    var t0 := Then(t, Wrote(d.partials, other));
    StaysUntouched(t, Wrote(d.partials, other), log, listed);
    StaysUntouched(t0, DirMade(path.day), log, listed);
    var t1 := if path.day in d.files.days then t0 else Then(t0, DirMade(path.day));
    StaysUntouched(t1, Fsynced(d.partials), log, listed);
    StaysUntouched(Then(t1, Fsynced(d.partials)), Renamed(d.partials, path, other), log, listed);
    var t2 := NamedTrace(t0, d.files, d.partials, other, path);
    StaysUntouched(t2, DirSynced(path.day), log, listed);
    StaysUntouched(Then(t2, DirSynced(path.day)), Inserted(digest, other, d.partials, path, "probe"), log, listed);
  }

  lemma {:induction false} FirstCycleLeavesOthers(log: FlightLog, t: Trace, listed: bool)
    requires log != FIRST && Untouched(t, log, listed)
    ensures Untouched(ErasedTrace(FirstTrace(t), [FIRST], [Downloaded("first")], Both()), log, listed)
  {
    StaysUntouched(t, Popped(Start), log, listed);
    StaysUntouched(Then(t, Popped(Start)), CancelLowered(CycleReset), log, listed);
    StaysUntouched(Then(Then(t, Popped(Start)), CancelLowered(CycleReset)), Enumerated([FIRST]), log, listed);
    ArchivingOther(Begun(t, [FIRST]), Blank(), FIRST, "first", NAME, log, listed);
    var done := ArchiveDone(false, [FIRST], [Downloaded("first")]);
    StaysUntouched(FirstTrace(t), done, log, listed);
    StaysUntouched(Then(FirstTrace(t), done), EraseCheckPassed, log, listed);
    StaysUntouched(Then(Then(FirstTrace(t), done), EraseCheckPassed), EraseSent(true, Both().logs), log, listed);
  }

  lemma {:induction false} ListedIsUntouched(log: FlightLog)
    requires log == SECOND
    ensures Untouched(Listed(), log, true)
  {
    var t := Then(Then(Nothing, Popped(Refresh)), CancelLowered(ManualReset));
    assert !Archived(t, log) && !WipedOnCommand(t, log);
  }

  /** Without any erase command, a log that was listed once is gone and was never archived. */
  lemma {:induction false} UnlistedLogIsLost() returns (steps: seq<Step>)
    ensures Lost(Run(true, steps), SECOND) && !WipedOnCommand(Run(true, steps).trace, SECOND)
  {
    steps := Refreshed();
    steps := FirstArchived(steps, WaitArm, Listed());
    steps := FinishAndErase(steps, Job(false, [FIRST], [Downloaded("first")]), FirstDisk(), Both(), FirstTrace(Listed()));
    ListedIsUntouched(SECOND);
    FirstCycleLeavesOthers(SECOND, Listed(), true);
    assert Unfold(steps);
  }

  // ---- A row without its file ----

  /** The log has a row, but it is neither on the flight controller nor in any file. */
  ghost predicate RowOnly(s: State, log: FlightLog, key: Digest) {
    && key in s.disk.catalog && IsCandidate(s.disk.catalog[key], log)
    && log !in s.fc.logs && forall path :: s.disk.files.names(path).content != Holds(log)
  }

  /** Two logs of one cycle finalized within the same second: the erase leaves the first nowhere. */
  lemma {:induction false} ReusedNameLosesLog() returns (steps: seq<Step>)
    ensures RowOnly(Run(true, steps), FIRST, "first")
  {
    var logs, fc, t := [FIRST, SECOND], Both(), Begun(Nothing, [FIRST, SECOND]);
    var d1, t1 := FirstDisk(), TraceWith(t, Blank(), FIRST, "first", NAME);
    var d2, t2 := DiskWith(d1, SECOND, "second", NAME), TraceWith(t1, d1, SECOND, "second", NAME);
    steps := Recorded();
    steps := CycleBegins(steps, WaitArm, Blank(), fc, Nothing, logs);
    steps := ArchiveLog(steps, Job(false, logs, []), Blank(), fc, t, "first", NAME);
    assert [] + [Downloaded("first")] == [Downloaded("first")];
    steps := ArchiveLog(steps, Job(false, logs, [Downloaded("first")]), d1, fc, t1, "second", NAME);
    assert [Downloaded("first")] + [Downloaded("second")] == [Downloaded("first"), Downloaded("second")];
    steps := FinishAndErase(steps, Job(false, logs, [Downloaded("first"), Downloaded("second")]), d2, fc, t2);
    assert Unfold(steps);
  }

  /** Everything is lost with the day's directory. */
  ghost function Wiped(): Path -> Content {
    (p: Path) => Absent
  }

  /** A power loss after the erase takes the first file of a day although its directory was synced. */
  lemma {:induction false} PowerLossTakesSyncedFile() returns (steps: seq<Step>, path: Path)
    ensures Run(true, steps).disk.files.names(path) == Synced(Holds(FIRST))
    ensures RowOnly(LosePower(Run(true, steps), Wiped(), {path.day}), FIRST, "first")
  {
    path := NAME;
    steps := Recorded();
    steps := FirstArchived(steps, WaitArm, Nothing);
    steps := FinishAndErase(steps, Job(false, [FIRST], [Downloaded("first")]), FirstDisk(), Both(), FirstTrace(Nothing));
    assert Unfold(steps);
  }

  // ---- A probe match whose file was evicted ----

  ghost function Evicting(): Trace {
    var done := Then(FirstTrace(Nothing), ArchiveDone(false, [FIRST], [Downloaded("first")]));
    Then(Then(done, EraseCheckPassed), Evicted({NAME}))
  }

  ghost function EvictedDisk(): Disk {
    FirstDisk().(files := Unlinked(FirstDisk().files, {NAME}))
  }

  /** The first cycle's LOG_ERASE fails to go out, and its clean-up evicts the file. */
  lemma {:induction false} FileEvicted() returns (steps: seq<Step>)
    ensures Leads(steps, At(WaitArm, Draining, [], UdpIdle, EvictedDisk(), Both(), Evicting()))
  {
    var job, d, fc := Job(false, [FIRST], [Downloaded("first")]), FirstDisk(), Both();
    var t := Then(FirstTrace(Nothing), ArchiveDone(false, [FIRST], [Downloaded("first")]));
    steps := Recorded();
    steps := FirstArchived(steps, WaitArm, Nothing);
    steps := ByWork(steps, InJob(job, Next, d, fc, FirstTrace(Nothing)), job, Next, Good("", NAME));
    steps := Enter(steps, Archive, EraseAll, d, fc, t);
    steps := ByDo(steps, At(EraseAll, Doing(EraseAll), [], UdpIdle, d, fc, t), EraseAll, [], {});
    steps := BySend(steps, At(EraseAll, Sending(true), [], UdpIdle, d, fc, Then(t, EraseCheckPassed)), true, false);
    steps := CleanedUp(steps, d, fc, Then(t, EraseCheckPassed), {NAME});
  }

  /** The clean-up after a cycle, back to the idle service. */
  lemma {:induction false} CleanedUp(steps: seq<Step>, d: Disk, fc: Controller, t: Trace, evicted: set<Path>)
    returns (more: seq<Step>)
    requires Leads(steps, At(EraseAll, Storing(Cleanup), [], UdpIdle, d, fc, t))
    ensures Leads(more, At(WaitArm, Draining, [], UdpIdle, d.(files := Unlinked(d.files, evicted)), fc,
                           Then(t, Evicted(evicted))))
  {
    var d1, t1 := d.(files := Unlinked(d.files, evicted)), Then(t, Evicted(evicted));
    more := Enter(steps, EraseAll, Cleanup, d, fc, t);
    more := ByDo(more, At(Cleanup, Doing(Cleanup), [], UdpIdle, d, fc, t), Cleanup, [], evicted);
    more := ByEnd(more, At(Cleanup, Ending, [], UdpIdle, d1, fc, t1));
    more := ByReturn(more, At(Cleanup, Returning, [], UdpIdle, d1, fc, t1));
    more := ByStore(more, At(Cleanup, Storing(WaitArm), [], UdpIdle, d1, fc, t1), WaitArm);
  }

  /** The next log is a probe match of a catalogued row. */
  lemma {:induction false} SkipLog(steps: seq<Step>, job: Job, d: Disk, fc: Controller, t: Trace, key: Digest)
    returns (more: seq<Step>)
    requires Leads(steps, InJob(job, Next, d, fc, t)) && |job.results| < |job.logs|
    requires key in d.catalog && IsCandidate(d.catalog[key], job.logs[|job.results|]) && d.catalog[key].probe == "probe"
    ensures Leads(more, InJob(job.(results := job.results + [Skipped(key)]), Next, d, fc,
                              Then(t, Matched(job.logs[|job.results|], key, d.catalog[key], "probe"))))
  {
    var w := Work(true, key, "", "probe", NAME);
    more := ByWork(steps, InJob(job, Next, d, fc, t), job, Next, w);
    more := ByWork(more, InJob(job, Looking, d, fc, t), job, Looking, w);
    more := ByWork(more, InJob(job, Probing(key, d.catalog[key]), d, fc, t), job, Probing(key, d.catalog[key]), w);
  }

  /** The next cycle skips the log on its row and erases it, although the row's file is gone. */
  lemma {:induction false} SkippedLogIsNowhere() returns (steps: seq<Step>)
    ensures RowOnly(Run(true, steps), FIRST, "first")
  {
    var d, fc, t := EvictedDisk(), Both(), Begun(Evicting(), [FIRST]);
    steps := FileEvicted();
    steps := CycleBegins(steps, WaitArm, d, fc, Evicting(), [FIRST]);
    steps := SkipLog(steps, Job(false, [FIRST], []), d, fc, t, "first");
    assert [] + [Skipped("first")] == [Skipped("first")];
    steps := FinishAndErase(steps, Job(false, [FIRST], [Skipped("first")]), d, fc,
                            Then(t, Matched(FIRST, "first", d.catalog["first"], "probe")));
    assert Unfold(steps);
  }

  // ---- A new recording taken for an old one ----

  /** Shares id, size and first bytes with the first recording. */
  const TWIN := FlightLog(1, 90, 2)

  ghost function Emptied(): Controller {
    Controller({}, {FIRST, SECOND})
  }

  ghost function FirstErased(): Trace {
    Then(ErasedTrace(FirstTrace(Nothing), [FIRST], [Downloaded("first")], Both()), Evicted({}))
  }

  ghost function KeptDisk(): Disk {
    FirstDisk().(files := Unlinked(FirstDisk().files, {}))
  }

  /** After the first recording was archived and erased, another one reuses its id. */
  lemma {:induction false} TwinRecorded() returns (steps: seq<Step>)
    ensures Leads(steps, At(WaitArm, Draining, [], UdpIdle, KeptDisk(), Controller({TWIN}, {FIRST, SECOND, TWIN}), FirstErased()))
  {
    steps := Recorded();
    steps := FirstArchived(steps, WaitArm, Nothing);
    steps := FinishAndErase(steps, Job(false, [FIRST], [Downloaded("first")]), FirstDisk(), Both(), FirstTrace(Nothing));
    steps := CleanedUp(steps, FirstDisk(), Emptied(), ErasedTrace(FirstTrace(Nothing), [FIRST], [Downloaded("first")], Both()), {});
    assert {} + {TWIN} == {TWIN} && {FIRST, SECOND} + {TWIN} == {FIRST, SECOND, TWIN};
    steps := Extend(steps, At(WaitArm, Draining, [], UdpIdle, KeptDisk(), Emptied(), FirstErased()), Record(TWIN),
                    At(WaitArm, Draining, [], UdpIdle, KeptDisk(), Controller({TWIN}, {FIRST, SECOND, TWIN}), FirstErased()));
  }

  /** The next cycle lists the new recording, skips it on the old one's row and erases it: no file ever held it. */
  lemma {:induction false} TwinIsNowhere() returns (steps: seq<Step>)
    ensures RowOnly(Run(true, steps), TWIN, "first") && Lost(Run(true, steps), TWIN)
    ensures !WipedOnCommand(Run(true, steps).trace, TWIN)
  {
    var d, fc, t := KeptDisk(), Controller({TWIN}, {FIRST, SECOND, TWIN}), Begun(FirstErased(), [TWIN]);
    steps := TwinRecorded();
    steps := CycleBegins(steps, WaitArm, d, fc, FirstErased(), [TWIN]);
    steps := SkipLog(steps, Job(false, [TWIN], []), d, fc, t, "first");
    assert [] + [Skipped("first")] == [Skipped("first")];
    steps := FinishAndErase(steps, Job(false, [TWIN], [Skipped("first")]), d, fc,
                            Then(t, Matched(TWIN, "first", d.catalog["first"], "probe")));
    TwinIsUntouched(TWIN, d.catalog["first"], fc);
    assert Unfold(steps);
  }

  lemma {:induction false} TwinIsUntouched(log: FlightLog, row: Row, fc: Controller)
    requires log == TWIN
    ensures var t := Then(Begun(FirstErased(), [TWIN]), Matched(TWIN, "first", row, "probe"));
            Untouched(ErasedTrace(t, [TWIN], [Skipped("first")], fc), log, true)
  {
    assert Untouched(Nothing, log, false);
    FirstCycleLeavesOthers(log, Nothing, false);
    var t0 := ErasedTrace(FirstTrace(Nothing), [FIRST], [Downloaded("first")], Both());
    StaysUntouched(t0, Evicted({}), log, false);
    var t1 := Then(FirstErased(), Popped(Start));
    StaysUntouched(FirstErased(), Popped(Start), log, false);
    StaysUntouched(t1, CancelLowered(CycleReset), log, false);
    StaysUntouched(Then(t1, CancelLowered(CycleReset)), Enumerated([TWIN]), log, false);
    var t2 := Begun(FirstErased(), [TWIN]);
    assert Untouched(t2, log, true);
    StaysUntouched(t2, Matched(TWIN, "first", row, "probe"), log, true);
    var t3 := Then(t2, Matched(TWIN, "first", row, "probe"));
    var done := ArchiveDone(false, [TWIN], [Skipped("first")]);
    StaysUntouched(t3, done, log, true);
    StaysUntouched(Then(t3, done), EraseCheckPassed, log, true);
    StaysUntouched(Then(Then(t3, done), EraseCheckPassed), EraseSent(true, fc.logs), log, true);
  }
}
