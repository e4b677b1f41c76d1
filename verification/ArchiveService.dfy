/**
 * The archive service as a state machine of atomic steps: the main loop, the MAVLink receive thread
 * and the companion UDP thread interleave freely over the service state, the cancel flag, the
 * pending-disarm flag and the command queue. The flight controller, the disk, signals and crashes are
 * environment steps. A step that is not enabled changes nothing, so every list of steps is a run.
 */
module ArchiveService {
  import opened ArchiveEvents

  datatype Phase =
    | Boot | Connect | WaitHeartbeat | WaitArm | WaitDisarm | Delay | Enumerate | Archive | EraseAll
    | ManualRefresh | ManualDownload | ManualErase | Cleanup | ConnectionLost

  ghost predicate IsBusy(p: Phase) {
    match p
    case Delay => true
    case Enumerate => true
    case Archive => true
    case EraseAll => true
    case ManualRefresh => true
    case ManualDownload => true
    case ManualErase => true
    case _ => false
  }

  /** The log at hand inside the archive loop. */
  datatype Stage =
    | Next
    | Looking
    | Probing(key: Digest, row: Row)
    | Ready
    | Downloading(partial: Partial)
    | Verifying(partial: Partial, digest: Digest, probe: Digest)
    | Preparing(partial: Partial, digest: Digest, probe: Digest)
    | Syncing(partial: Partial, digest: Digest, probe: Digest, path: Path)
    | Renaming(partial: Partial, digest: Digest, probe: Digest, path: Path)
    | SyncingDir(partial: Partial, digest: Digest, probe: Digest, path: Path)
    | Confirming(partial: Partial, digest: Digest, probe: Digest, path: Path)
    | Inserting(partial: Partial, digest: Digest, probe: Digest, path: Path)
    | Finishing

  datatype Job = Job(manual: bool, logs: seq<FlightLog>, results: seq<Result>)

  /** Where the main loop is. */
  datatype Main =
    | Draining                        // at the top of the loop, about to pop a command
    | Handling(cmd: Command)
    | Admitting                       // archive.start found the service not busy
    | BeginCycle                      // pending-disarm flag consumed, about to lower cancel
    | Storing(next: Phase)            // about to store the service state
    | Reading                         // queue empty, about to read the service state
    | Doing(phase: Phase)
    | Working(job: Job, stage: Stage)
    | Sending(auto: bool)
    | Ending                          // storage limit enforced, about to read the pending-disarm flag
    | Returning                       // about to read whether the vehicle is armed

  datatype Rx =
    | RxIdle | GotArmed | SawArmed(phase: Phase) | GotDisarmed | SawDisarmed(phase: Phase) | Flagged(phase: Phase)

  datatype Udp = UdpIdle | Judging(cmd: Command, phase: Phase) | Pushing(cmd: Command)

  /** The atomics every thread reads and writes. */
  datatype Shared = Shared(phase: Phase, cancel: bool, requested: bool, armed: bool)

  datatype Local = Local(eraseAfterSuccess: bool, queue: seq<Command>, rx: Rx, udp: Udp, selection: Command)

  /** What a name held since its directory was last synced: the durable content, then each later one. */
  datatype Versions = Synced(content: Content) | Changed(before: Versions, content: Content)

  /** The final names, the day directories, and those among them whose own entry may not be on disk yet. */
  datatype Files = Files(names: Path -> Versions, days: set<Day>, newDays: set<Day>)

  datatype Disk = Disk(partials: nat, files: Files, catalog: map<Digest, Row>)

  /** The flight controller: the logs it holds, and all it ever recorded. */
  datatype Controller = Controller(logs: set<FlightLog>, recorded: set<FlightLog>)

  datatype State = State(shared: Shared, main: Main, local: Local, disk: Disk, fc: Controller, trace: Trace)

  datatype Step =
    | Pop
    | Handle
    | Admit(connected: bool)
    | Lower
    | Store
    | Read
    | Do(yes: bool, alive: bool, logs: seq<FlightLog>, evicted: set<Path>)
    | Work(ok: bool, key: Digest, digest: Digest, probe: Digest, path: Path)
    | Send(sent: bool, obeyed: bool)
    | End
    | Return
    | Meet(armed: bool)
    | Arm | SeeArmed | ActArmed | Disarm | SeeDisarmed | FlagDisarm | ActDisarmed
    | Request(cmd: Command) | Judge(connected: bool) | Push
    | RaiseCancel
    | Record(log: FlightLog)
    | Kill
    | CutPower(left: Path -> Content, lostDays: set<Day>)

  ghost function Initial(eraseAfterSuccess: bool): State {
    State(Shared(Boot, false, false, false), Draining,
          Local(eraseAfterSuccess, [], RxIdle, UdpIdle, Download({}, false)),
          Disk(0, NoFiles(), map[]), Controller({}, {}), Nothing)
  }

  ghost function NoFiles(): Files {
    Files((_: Path) => Synced(Absent), {}, {})
  }

  ghost function Emit(s: State, e: Event): State {
    s.(trace := Then(s.trace, e))
  }

  ghost function Raise(s: State): State {
    Emit(s.(shared := s.shared.(cancel := true)), CancelRaised)
  }

  ghost function LowerCancel(s: State, why: Reset): State {
    Emit(s.(shared := s.shared.(cancel := false)), CancelLowered(why))
  }

  ghost function SetPhase(s: State, p: Phase): State {
    s.(shared := s.shared.(phase := p))
  }

  ghost function Goto(s: State, main: Main): State {
    s.(main := main)
  }

  // ---- Main loop: commands ----

  ghost function PopCommand(s: State): State {
    if s.local.queue == [] then Goto(s, Reading)
    else
      var cmd := s.local.queue[0];
      Emit(Goto(s.(local := s.local.(queue := s.local.queue[1..])), Handling(cmd)), Popped(cmd))
  }

  /** A manual job lowers cancel first, then stores its state. */
  ghost function BeginManual(s: State, next: Phase): State {
    Goto(LowerCancel(s, ManualReset), Storing(next))
  }

  ghost function HandleCommand(s: State, cmd: Command): State {
    match cmd
    case Start => Goto(s, if IsBusy(s.shared.phase) then Draining else Admitting)
    case Cancel => Goto(Raise(s), Draining)
    case Refresh => BeginManual(s, ManualRefresh)
    case Download(_, _) => BeginManual(s.(local := s.local.(selection := cmd)), ManualDownload)
    case Erase => BeginManual(s, ManualErase)
  }

  ghost function AdmitStart(s: State, connected: bool): State {
    if s.shared.armed || !connected then Goto(s, Draining) else ConsumeRequest(s)
  }

  ghost function ConsumeRequest(s: State): State {
    Goto(s.(shared := s.shared.(requested := false)), BeginCycle)
  }

  ghost function LowerForCycle(s: State): State {
    Goto(LowerCancel(s, CycleReset), Storing(Enumerate))
  }

  // ---- Main loop: service states ----

  ghost function Selected(logs: seq<FlightLog>, ids: set<nat>): seq<FlightLog> {
    if logs == [] then []
    else Selected(logs[..|logs| - 1], ids) + if logs[|logs| - 1].id in ids then [logs[|logs| - 1]] else []
  }

  ghost function Select(logs: seq<FlightLog>, selection: Command): seq<FlightLog> {
    if selection.Download? && !selection.all then Selected(logs, selection.ids) else logs
  }

  /** Losing the link never interrupts a job. */
  ghost function LoseLink(s: State): State {
    var p := s.shared.phase;
    Goto(s, if IsBusy(p) || p == ConnectionLost || p == Boot then Draining else Storing(ConnectionLost))
  }

  ghost function WatchLink(s: State, alive: bool): State {
    if alive then Goto(s, Draining) else LoseLink(s)
  }

  ghost function DoPhase(s: State, p: Phase, yes: bool, alive: bool, logs: seq<FlightLog>, evicted: set<Path>): State {
    match p
    case Boot => Goto(s, Storing(Connect))
    case Connect => Goto(s, if yes then Storing(WaitHeartbeat) else Draining)
    case WaitHeartbeat => if yes then Goto(s, Storing(WaitArm)) else WatchLink(s, alive)
    case WaitArm => WatchLink(s, alive)
    case WaitDisarm => WatchLink(s, alive)
    case Delay => if yes then ConsumeRequest(s) else Goto(s, Draining)
    case Enumerate => Goto(s, Storing(Archive))
    case Archive => Emit(Goto(s, Working(Job(false, logs, []), Next)), Enumerated(logs))
    case EraseAll =>
      if s.shared.cancel then Goto(s, Storing(Cleanup)) else Emit(Goto(s, Sending(true)), EraseCheckPassed)
    case ManualRefresh => Emit(Goto(s, Returning), Enumerated(logs))
    case ManualDownload =>
      Emit(Goto(s, Working(Job(true, Select(logs, s.local.selection), []), Next)), Enumerated(logs))
    case ManualErase => Goto(LowerCancel(s, ManualReset), Sending(false))
    case Cleanup => Emit(Goto(Remove(s, evicted), Ending), Evicted(evicted))
    case ConnectionLost => Goto(s, Storing(Connect))
  }

  ghost function Remove(s: State, paths: set<Path>): State {
    s.(disk := s.disk.(files := Unlinked(s.disk.files, paths)))
  }

  /** LOG_ERASE: the message may fail to go out, and the flight controller may ignore it. */
  ghost function SendErase(s: State, auto: bool, sent: bool, obeyed: bool): State {
    var after := Goto(s, if auto then Storing(Cleanup) else Returning);
    if !sent then after
    else if obeyed then Emit(after.(fc := s.fc.(logs := {})), EraseSent(auto, s.fc.logs))
    else Emit(after, EraseSent(auto, {}))
  }

  ghost function EndCleanup(s: State): State {
    Goto(s, if s.shared.requested then Storing(Delay) else Returning)
  }

  ghost function ReturnToIdle(s: State): State {
    Goto(s, Storing(if s.shared.armed then WaitDisarm else WaitArm))
  }

  // ---- Main loop: the archive pipeline, one log at a time ----

  ghost function Advance(s: State, job: Job, stage: Stage): State {
    Goto(s, Working(job, stage))
  }

  ghost function Report(s: State, job: Job, r: Result): State {
    Advance(s, job.(results := job.results + [r]), if r == Cancelled then Finishing else Next)
  }

  ghost predicate IsCandidate(row: Row, log: FlightLog) {
    row.id == log.id && row.size == log.size
  }

  ghost predicate HasCandidate(catalog: map<Digest, Row>, log: FlightLog) {
    exists key :: key in catalog && IsCandidate(catalog[key], log)
  }

  ghost predicate CancelledOrFailed(results: seq<Result>) {
    Cancelled in results || Failed in results
  }

  ghost function Finish(s: State, job: Job): State {
    var erase := !job.manual && !CancelledOrFailed(job.results) && s.local.eraseAfterSuccess && job.logs != [];
    Emit(Goto(s, Storing(if erase then EraseAll else Cleanup)), ArchiveDone(job.manual, job.logs, job.results))
  }

  /** The stages before a download. */
  ghost function WorkBefore(s: State, job: Job, stage: Stage, w: Step): State
    requires w.Work? && |job.results| < |job.logs|
  {
    var log := job.logs[|job.results|];
    match stage
    case Next => if s.shared.cancel then Report(s, job, Cancelled) else Advance(s, job, Looking)
    case Looking =>
      if w.key in s.disk.catalog && IsCandidate(s.disk.catalog[w.key], log) then
        Advance(s, job, Probing(w.key, s.disk.catalog[w.key]))
      else if HasCandidate(s.disk.catalog, log) then s
      else Advance(s, job, Ready)
    case Probing(key, row) =>
      if w.ok && w.probe == row.probe then Emit(Report(s, job, Skipped(key)), Matched(log, key, row, w.probe))
      else Advance(s, job, Ready)
    case Ready =>
      if s.shared.cancel then Report(s, job, Cancelled)
      else Advance(s.(disk := s.disk.(partials := s.disk.partials + 1)), job, Downloading(s.disk.partials))
    case _ => s
  }

  ghost function Linked(f: Files, path: Path, log: FlightLog): Files {
    f.(names := (p: Path) => if p == path then Changed(f.names(p), Holds(log)) else f.names(p))
  }

  ghost function Unlinked(f: Files, paths: set<Path>): Files {
    f.(names := (p: Path) => if p in paths then Changed(f.names(p), Absent) else f.names(p))
  }

  /** Syncing a directory makes all names in it durable, but not its own entry in the directory above. */
  ghost function DaySynced(f: Files, day: Day): Files {
    f.(names := (p: Path) => if p.day == day then Synced(f.names(p).content) else f.names(p))
  }

  ghost function Rename(s: State, log: FlightLog, path: Path): State {
    s.(disk := s.disk.(files := Linked(s.disk.files, path, log)))
  }

  ghost function SyncDir(s: State, day: Day): State {
    s.(disk := s.disk.(files := DaySynced(s.disk.files, day)))
  }

  ghost function MakeDir(s: State, day: Day): State {
    var f := s.disk.files;
    if day in f.days then s
    else Emit(s.(disk := s.disk.(files := f.(days := f.days + {day}, newDays := f.newDays + {day}))), DirMade(day))
  }

  /** The download and its verification. */
  ghost function WorkDownload(s: State, job: Job, stage: Stage, w: Step): State
    requires w.Work? && |job.results| < |job.logs|
  {
    var log := job.logs[|job.results|];
    match stage
    case Downloading(p) =>
      if w.ok then Emit(Advance(s, job, Verifying(p, w.digest, w.probe)), Wrote(p, log))
      else Report(s, job, if s.shared.cancel then Cancelled else Failed)
    case Verifying(p, digest, probe) =>
      if w.ok then Advance(s, job, Preparing(p, digest, probe)) else Report(s, job, Failed)
    case _ => s
  }

  /** From the verified temporary file to its final name. */
  ghost function WorkFinalize(s: State, job: Job, stage: Stage, w: Step): State
    requires w.Work? && |job.results| < |job.logs|
  {
    var log := job.logs[|job.results|];
    match stage
    case Preparing(p, digest, probe) => Advance(MakeDir(s, w.path.day), job, Syncing(p, digest, probe, w.path))
    case Syncing(p, digest, probe, path) =>
      if w.ok then Emit(Advance(s, job, Renaming(p, digest, probe, path)), Fsynced(p)) else Report(s, job, Failed)
    case Renaming(p, digest, probe, path) =>
      if w.ok then
        Emit(Advance(Rename(s, log, path), job, SyncingDir(p, digest, probe, path)), Renamed(p, path, log))
      else Report(s, job, Failed)
    case _ => s
  }

  /** From the final name to the catalog row. A failed directory fsync is only logged. */
  ghost function WorkCatalog(s: State, job: Job, stage: Stage, w: Step): State
    requires w.Work? && |job.results| < |job.logs|
  {
    var log := job.logs[|job.results|];
    match stage
    case SyncingDir(p, digest, probe, path) =>
      if w.ok then Emit(Advance(SyncDir(s, path.day), job, Confirming(p, digest, probe, path)), DirSynced(path.day))
      else Advance(s, job, Confirming(p, digest, probe, path))
    case Confirming(p, digest, probe, path) =>
      if s.disk.files.names(path).content.Holds? then Advance(s, job, Inserting(p, digest, probe, path)) else Report(s, job, Failed)
    case Inserting(p, digest, probe, path) =>
      var row := Row(log.id, log.size, probe, path);
      Emit(Report(s.(disk := s.disk.(catalog := s.disk.catalog[digest := row])), job, Downloaded(digest)),
           Inserted(digest, log, p, path, probe))
    case _ => s
  }

  ghost function DoWork(s: State, job: Job, stage: Stage, w: Step): State
    requires w.Work?
  {
    if stage == Finishing || (stage == Next && |job.results| == |job.logs|) then Finish(s, job)
    else if |job.results| >= |job.logs| then s
    else if stage.Next? || stage.Looking? || stage.Probing? || stage.Ready? then WorkBefore(s, job, stage, w)
    else if stage.Downloading? || stage.Verifying? then WorkDownload(s, job, stage, w)
    else if stage.Preparing? || stage.Syncing? || stage.Renaming? then WorkFinalize(s, job, stage, w)
    else WorkCatalog(s, job, stage, w)
  }

  ghost function MainStep(s: State, step: Step): State {
    match (s.main, step)
    case (Draining, Pop) => PopCommand(s)
    case (Handling(cmd), Handle) => HandleCommand(s, cmd)
    case (Admitting, Admit(connected)) => AdmitStart(s, connected)
    case (BeginCycle, Lower) => LowerForCycle(s)
    case (Storing(next), Store) => Goto(SetPhase(s, next), Draining)
    case (Reading, Read) => Goto(s, Doing(s.shared.phase))
    case (Doing(p), Do(yes, alive, logs, evicted)) =>
      if forall log :: log in logs ==> log in s.fc.logs then DoPhase(s, p, yes, alive, logs, evicted) else s
    case (Working(job, stage), Work(_, _, _, _, _)) => DoWork(s, job, stage, step)
    case (Sending(auto), Send(sent, obeyed)) => SendErase(s, auto, sent, obeyed)
    case (Ending, End) => EndCleanup(s)
    case (Returning, Return) => ReturnToIdle(s)
    case _ => s
  }

  // ---- The other threads ----

  /**
   * Flight events are changes of the armed state, and act on the phase they read earlier, not on the current one.
   * The first heartbeat of a vehicle stores its armed state without an event.
   */
  ghost function RxStep(s: State, step: Step): State {
    match (s.local.rx, step)
    case (RxIdle, Meet(armed)) => SetArmed(s, armed)
    case (RxIdle, Arm) => if s.shared.armed then s else SetRx(SetArmed(s, true), GotArmed)
    case (GotArmed, SeeArmed) => SetRx(s, SawArmed(s.shared.phase))
    case (SawArmed(p), ActArmed) => ActOn(SetRx(s, RxIdle), p, WaitArm, WaitDisarm)
    case (RxIdle, Disarm) => if s.shared.armed then SetRx(SetArmed(s, false), GotDisarmed) else s
    case (GotDisarmed, SeeDisarmed) => SetRx(s, SawDisarmed(s.shared.phase))
    case (SawDisarmed(p), FlagDisarm) => SetRx(s.(shared := s.shared.(requested := true)), Flagged(p))
    case (Flagged(p), ActDisarmed) => ActOn(SetRx(s, RxIdle), p, WaitDisarm, Delay)
    case _ => s
  }

  ghost function SetRx(s: State, rx: Rx): State {
    s.(local := s.local.(rx := rx))
  }

  ghost function SetArmed(s: State, armed: bool): State {
    s.(shared := s.shared.(armed := armed))
  }

  /** Moves on from the expected waiting state; a busy one is cancelled. */
  ghost function ActOn(s: State, seen: Phase, expected: Phase, next: Phase): State {
    if seen == expected then SetPhase(s, next) else if IsBusy(seen) then Raise(s) else s
  }

  /** Companion requests: cancel is raised at once; an erase overrides; other jobs only when idle. */
  ghost function UdpStep(s: State, step: Step): State {
    match (s.local.udp, step)
    case (UdpIdle, Request(cmd)) =>
      if cmd == Cancel then Raise(SetUdp(s, Pushing(Cancel))) else SetUdp(s, Judging(cmd, s.shared.phase))
    case (Judging(cmd, p), Judge(connected)) => JudgeRequest(s, cmd, p, connected)
    case (Pushing(cmd), Push) => s.(local := s.local.(queue := s.local.queue + [cmd], udp := UdpIdle))
    case _ => s
  }

  ghost function SetUdp(s: State, udp: Udp): State {
    s.(local := s.local.(udp := udp))
  }

  ghost function JudgeRequest(s: State, cmd: Command, p: Phase, connected: bool): State {
    if !connected then SetUdp(s, UdpIdle)
    else if cmd == Erase then
      if IsBusy(p) then Raise(SetUdp(s, Pushing(Erase))) else SetUdp(s, Pushing(Erase))
    else if IsBusy(p) || s.shared.armed then SetUdp(s, UdpIdle)
    else SetUdp(s, Pushing(cmd))
  }

  /** A crash loses what is in memory; the restart removes the temporary files. */
  ghost function Restart(s: State, files: Files, how: Crash): State {
    Emit(State(Shared(Boot, false, false, false), Draining, s.local.(queue := [], rx := RxIdle, udp := UdpIdle),
               s.disk.(files := files), s.fc, s.trace), Crashed(how))
  }

  ghost predicate IsVersion(v: Versions, c: Content) {
    v.content == c || (v.Changed? && IsVersion(v.before, c))
  }

  /**
   * What a power loss can leave: each name holds its durable content or any later one, except in new day
   * directories that are lost as a whole.
   */
  ghost predicate CanLeave(f: Files, left: Path -> Content, lostDays: set<Day>) {
    && lostDays <= f.newDays
    && forall p: Path :: if p.day in lostDays then left(p) == Absent else IsVersion(f.names(p), left(p))
  }

  ghost function PowerImage(f: Files, left: Path -> Content, lostDays: set<Day>): Files {
    Files((p: Path) => Synced(left(p)), f.days - lostDays, {})
  }

  ghost function LosePower(s: State, left: Path -> Content, lostDays: set<Day>): State {
    if CanLeave(s.disk.files, left, lostDays) then
      Restart(s, PowerImage(s.disk.files, left, lostDays), PowerLoss(left))
    else s
  }

  /** The flight controller closes a new recording. */
  ghost function RecordLog(s: State, log: FlightLog): State {
    if log in s.fc.recorded then s else s.(fc := Controller(s.fc.logs + {log}, s.fc.recorded + {log}))
  }

  ghost predicate IsRx(step: Step) {
    step.Meet? || step.Arm? || step.SeeArmed? || step.ActArmed? || step.Disarm? || step.SeeDisarmed? || step.FlagDisarm? || step.ActDisarmed?
  }

  ghost predicate IsUdp(step: Step) {
    step.Request? || step.Judge? || step.Push?
  }

  ghost function Apply(s: State, step: Step): State {
    if IsRx(step) then RxStep(s, step)
    else if IsUdp(step) then UdpStep(s, step)
    else if step.RaiseCancel? then Raise(s)
    else if step.Record? then RecordLog(s, step.log)
    else if step.Kill? then Restart(s, s.disk.files, Killed)
    else if step.CutPower? then LosePower(s, step.left, step.lostDays)
    else MainStep(s, step)
  }

  ghost function Run(eraseAfterSuccess: bool, steps: seq<Step>): State {
    if steps == [] then Initial(eraseAfterSuccess)
    else Apply(Run(eraseAfterSuccess, steps[..|steps| - 1]), steps[|steps| - 1])
  }
}
