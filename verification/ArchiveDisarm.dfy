/** What becomes of a disarm: it stays pending until a cycle begins, and from where a cycle can still begin. */
module ArchiveDisarm {
  import opened ArchiveEvents
  import opened ArchiveService
  import opened ArchiveSafety
  import opened ArchiveCounterexample
  import opened Triggers

  // ---- The flag is only ever spent on a cycle ----

  ghost predicate IsCrash(step: Step) {
    step.Kill? || step.CutPower?
  }

  lemma {:induction false} FlagKeptByWork(s: State, job: Job, stage: Stage, w: Step)
    requires s.shared.requested && w.Work?
    ensures DoWork(s, job, stage, w).shared.requested
  {
  }

  lemma {:induction false} FlagKeptByPhase(s: State, p: Phase, yes: bool, alive: bool, logs: seq<FlightLog>, evicted: set<Path>)
    requires s.shared.requested
    ensures var s' := DoPhase(s, p, yes, alive, logs, evicted); s'.shared.requested || s'.main == BeginCycle
  {
  }

  lemma {:induction false} FlagKeptByMain(s: State, step: Step)
    requires s.shared.requested
    ensures MainStep(s, step).shared.requested || MainStep(s, step).main == BeginCycle
  {
    match (s.main, step)
    case (Doing(p), Do(yes, alive, logs, evicted)) => FlagKeptByPhase(s, p, yes, alive, logs, evicted);
    case (Working(job, stage), Work(_, _, _, _, _)) => FlagKeptByWork(s, job, stage, step);
    case _ =>
  }

  lemma {:induction false} FlagKeptByStep(s: State, step: Step)
    requires s.shared.requested && !IsCrash(step)
    ensures Apply(s, step).shared.requested || Apply(s, step).main == BeginCycle
  {
    FlagKeptByMain(s, step);
  }

  /** Between the two points of the run the main loop began a cycle. */
  ghost predicate BeginsBetween(eraseAfterSuccess: bool, steps: seq<Step>, n: nat) {
    exists m :: n < m <= |steps| && Run(eraseAfterSuccess, steps[..m]).main == BeginCycle
  }

  /** Without a crash, a pending disarm stays pending until the main loop begins a cycle. */
  lemma {:induction false} PendingUntilCycle(eraseAfterSuccess: bool, steps: seq<Step>, n: nat)
    requires n <= |steps| && Run(eraseAfterSuccess, steps[..n]).shared.requested
    requires forall k :: n <= k < |steps| ==> !IsCrash(steps[k])
    ensures Run(eraseAfterSuccess, steps).shared.requested || BeginsBetween(eraseAfterSuccess, steps, n)
  {
    if n == |steps| {
      assert steps[..n] == steps;
    } else {
      var front := steps[..|steps| - 1];
      assert front[..n] == steps[..n];
      PendingUntilCycle(eraseAfterSuccess, front, n);
      if Run(eraseAfterSuccess, front).shared.requested {
        FlagKeptByStep(Run(eraseAfterSuccess, front), steps[|steps| - 1]);
        assert steps[..|steps|] == steps;
      } else {
        var m :| n < m <= |front| && Run(eraseAfterSuccess, front[..m]).main == BeginCycle;
        assert front[..m] == steps[..m];
      }
    }
  }

  // ---- From where a cycle can still begin ----

  /** No flight event, no companion request and no crash: the main loop, raised cancels and new recordings. */
  ghost predicate Undisturbed(step: Step) {
    !IsRx(step) && !IsUdp(step) && !IsCrash(step)
  }

  /** The main loop alone. */
  ghost predicate IsMain(step: Step) {
    Undisturbed(step) && !step.RaiseCancel? && !step.Record?
  }

  /** A disarm is pending and no command is waiting or being handled. */
  ghost predicate Pending(s: State) {
    s.shared.requested && s.local.queue == [] && !s.main.Handling? && !s.main.Admitting?
  }

  /** Phases that the main loop leaves towards the delay before a cycle when a disarm is pending. */
  ghost predicate Bound(p: Phase) {
    p == Delay || CyclePhase(p) || p == ManualDownload || p == Cleanup
  }

  /** Phases that may end without storing a phase, so that the stored one comes next. */
  ghost predicate Yields(p: Phase) {
    p == Connect || p == WaitHeartbeat || p == WaitArm || p == WaitDisarm
  }

  ghost predicate Heading(s: State) {
    match s.main
    case Draining => Bound(s.shared.phase)
    case Reading => Bound(s.shared.phase)
    case Storing(next) => Bound(next)
    case Doing(p) => Bound(p) || (Yields(p) && Bound(s.shared.phase))
    case Working(_, _) => true
    case Sending(auto) => auto
    case Ending => true
    case BeginCycle => true
    case _ => false
  }

  // ---- Elsewhere it cannot ----

  lemma {:induction false} AstrayKeptByPhase(s: State, p: Phase, yes: bool, alive: bool, logs: seq<FlightLog>, evicted: set<Path>)
    requires Pending(s) && !Heading(s) && s.main == Doing(p)
    ensures Pending(DoPhase(s, p, yes, alive, logs, evicted)) && !Heading(DoPhase(s, p, yes, alive, logs, evicted))
  {
  }

  lemma {:induction false} AstrayKeptByMain(s: State, step: Step)
    requires Pending(s) && !Heading(s)
    ensures Pending(MainStep(s, step)) && !Heading(MainStep(s, step))
  {
    match (s.main, step)
    case (Doing(p), Do(yes, alive, logs, evicted)) => AstrayKeptByPhase(s, p, yes, alive, logs, evicted);
    case _ =>
  }

  lemma {:induction false} AstrayKept(s: State, step: Step)
    requires Pending(s) && !Heading(s) && Undisturbed(step)
    ensures Pending(Apply(s, step)) && !Heading(Apply(s, step))
  {
    AstrayKeptByMain(s, step);
  }

  /** The state after more steps. */
  ghost function Onward(s: State, more: seq<Step>): State
    decreases |more|
  {
    if more == [] then s else Onward(Apply(s, more[0]), more[1..])
  }

  ghost predicate AllUndisturbed(more: seq<Step>) {
    forall k :: 0 <= k < |more| ==> Undisturbed(more[k])
  }

  ghost predicate AllMain(more: seq<Step>) {
    forall k :: 0 <= k < |more| ==> IsMain(more[k])
  }

  lemma {:induction false} AstrayForever(s: State, more: seq<Step>)
    requires Pending(s) && !Heading(s) && AllUndisturbed(more)
    ensures Pending(Onward(s, more)) && !Heading(Onward(s, more))
    decreases |more|
  {
    if more != [] {
      AstrayKept(s, more[0]);
      AstrayForever(Apply(s, more[0]), more[1..]);
    }
  }

  // ---- From there it can, by the main loop alone ----

  ghost predicate CanBegin(s: State) {
    exists more :: AllMain(more) && Onward(s, more).main == BeginCycle
  }

  lemma {:induction false} AtBegin(s: State)
    requires s.main == BeginCycle
    ensures CanBegin(s)
  {
    assert Onward(s, []).main == BeginCycle;
  }

  /** One step of the main loop before a state from which a cycle can begin. */
  lemma {:induction false} Before(s: State, step: Step, s': State)
    requires IsMain(step) && MainStep(s, step) == s' && CanBegin(s')
    ensures CanBegin(s)
  {
    var more :| AllMain(more) && Onward(s', more).main == BeginCycle;
    var all := [step] + more;
    assert all[0] == step && all[1..] == more;
    assert Apply(s, step) == s';
    assert Onward(s, all) == Onward(s', more);
  }

  /** The loop comes round to the stored phase. */
  lemma {:induction false} BeforeDraining(s: State)
    requires s.main == Draining && s.local.queue == [] && CanBegin(Goto(s, Doing(s.shared.phase)))
    ensures CanBegin(s)
  {
    Before(Goto(s, Reading), Read, Goto(s, Doing(s.shared.phase)));
    Before(s, Pop, Goto(s, Reading));
  }

  lemma {:induction false} BeforeStoring(s: State, next: Phase)
    requires s.main == Storing(next) && s.local.queue == [] && CanBegin(Goto(SetPhase(s, next), Doing(next)))
    ensures CanBegin(s)
  {
    BeforeDraining(Goto(SetPhase(s, next), Draining));
    Before(s, Store, Goto(SetPhase(s, next), Draining));
  }

  const ELAPSED: Step := Do(true, true, [], {})

  lemma {:induction false} FromDelay(s: State)
    requires s.main == Doing(Delay)
    ensures CanBegin(s)
  {
    AtBegin(ConsumeRequest(s));
    Before(s, ELAPSED, ConsumeRequest(s));
  }

  lemma {:induction false} FromEnding(s: State)
    requires s.main == Ending && Pending(s)
    ensures CanBegin(s)
  {
    FromStoringDelay(Goto(s, Storing(Delay)));
    Before(s, End, Goto(s, Storing(Delay)));
  }

  lemma {:induction false} FromStoringDelay(s: State)
    requires s.main == Storing(Delay) && Pending(s)
    ensures CanBegin(s)
  {
    FromDelay(Goto(SetPhase(s, Delay), Doing(Delay)));
    BeforeStoring(s, Delay);
  }

  lemma {:induction false} FromCleanup(s: State)
    requires s.main == Doing(Cleanup) && Pending(s)
    ensures CanBegin(s)
  {
    var s' := DoPhase(s, Cleanup, true, true, [], {});
    FromEnding(s');
    Before(s, ELAPSED, s');
  }

  lemma {:induction false} FromStoringCleanup(s: State)
    requires s.main == Storing(Cleanup) && Pending(s)
    ensures CanBegin(s)
  {
    FromCleanup(Goto(SetPhase(s, Cleanup), Doing(Cleanup)));
    BeforeStoring(s, Cleanup);
  }

  lemma {:induction false} FromSending(s: State)
    requires s.main == Sending(true) && Pending(s)
    ensures CanBegin(s)
  {
    FromStoringCleanup(Goto(s, Storing(Cleanup)));
    Before(s, Send(false, false), Goto(s, Storing(Cleanup)));
  }

  lemma {:induction false} FromEraseAll(s: State)
    requires s.main == Doing(EraseAll) && Pending(s)
    ensures CanBegin(s)
  {
    var s' := DoPhase(s, EraseAll, true, true, [], {});
    if s.shared.cancel {
      FromStoringCleanup(s');
    } else {
      FromSending(s');
    }
    Before(s, ELAPSED, s');
  }

  lemma {:induction false} FromStoringErase(s: State)
    requires s.main == Storing(EraseAll) && Pending(s)
    ensures CanBegin(s)
  {
    FromEraseAll(Goto(SetPhase(s, EraseAll), Doing(EraseAll)));
    BeforeStoring(s, EraseAll);
  }

  // ---- A job comes to an end ----

  ghost function Rank(stage: Stage): nat {
    match stage
    case Next => 12
    case Looking => 11
    case Probing(_, _) => 10
    case Ready => 9
    case Downloading(_) => 8
    case Verifying(_, _, _) => 7
    case Preparing(_, _, _) => 6
    case Syncing(_, _, _, _) => 5
    case Renaming(_, _, _, _) => 4
    case SyncingDir(_, _, _, _) => 3
    case Confirming(_, _, _, _) => 2
    case Inserting(_, _, _, _) => 1
    case Finishing => 0
  }

  /** Nothing succeeds, and the lookup returns this key. */
  ghost function Bad(key: Digest): Step {
    Work(false, key, "", "", Path(0, 0))
  }

  /** A row of the log at hand, if there is one. */
  lemma {:induction false} SomeKey(s: State, job: Job) returns (key: Digest)
    requires |job.results| < |job.logs|
    ensures HasCandidate(s.disk.catalog, job.logs[|job.results|]) ==>
              key in s.disk.catalog && IsCandidate(s.disk.catalog[key], job.logs[|job.results|])
  {
    key := "";
    if HasCandidate(s.disk.catalog, job.logs[|job.results|]) {
      key :| key in s.disk.catalog && IsCandidate(s.disk.catalog[key], job.logs[|job.results|]);
    }
  }

  /** The job is further on: fewer logs are left, or the log at hand is at a later stage. */
  ghost predicate Further(s: State, job: Job, stage: Stage, s': State) {
    && s'.main.Working? && Pending(s') && JobShape(s'.main.job, s'.main.stage) && s'.main.job.logs == job.logs
    && (|job.results| < |s'.main.job.results|
        || (|job.results| == |s'.main.job.results| && Rank(s'.main.stage) < Rank(stage)))
  }

  lemma {:induction false} JobGoesOn(s: State, job: Job, stage: Stage, key: Digest)
    requires s.main == Working(job, stage) && Pending(s) && JobShape(job, stage) && stage != Finishing
    requires |job.results| < |job.logs|
    requires HasCandidate(s.disk.catalog, job.logs[|job.results|]) ==>
               key in s.disk.catalog && IsCandidate(s.disk.catalog[key], job.logs[|job.results|])
    ensures Further(s, job, stage, DoWork(s, job, stage, Bad(key)))
  {
  }

  lemma {:induction false} FromFinish(s: State, job: Job)
    requires Pending(s)
    ensures CanBegin(Finish(s, job))
  {
    if Finish(s, job).main == Storing(EraseAll) {
      FromStoringErase(Finish(s, job));
    } else {
      FromStoringCleanup(Finish(s, job));
    }
  }

  lemma {:induction false} FromWorking(s: State, job: Job, stage: Stage)
    requires s.main == Working(job, stage) && Pending(s) && JobShape(job, stage)
    ensures CanBegin(s)
    decreases |job.logs| - |job.results|, Rank(stage)
  {
    if stage == Finishing || |job.results| == |job.logs| {
      FromFinish(s, job);
      Before(s, Bad(""), Finish(s, job));
    } else {
      var key := SomeKey(s, job);
      var s' := DoWork(s, job, stage, Bad(key));
      JobGoesOn(s, job, stage, key);
      FromWorking(s', s'.main.job, s'.main.stage);
      Before(s, Bad(key), s');
    }
  }

  lemma {:induction false} FromJobPhase(s: State, p: Phase)
    requires s.main == Doing(p) && (p == Archive || p == ManualDownload) && Pending(s)
    ensures CanBegin(s)
  {
    var s' := DoPhase(s, p, true, true, [], {});
    FromWorking(s', s'.main.job, Next);
    Before(s, ELAPSED, s');
  }

  lemma {:induction false} FromEnumerate(s: State)
    requires s.main == Doing(Enumerate) && Pending(s)
    ensures CanBegin(s)
  {
    FromStoringArchive(Goto(s, Storing(Archive)));
    Before(s, ELAPSED, Goto(s, Storing(Archive)));
  }

  lemma {:induction false} FromStoringArchive(s: State)
    requires s.main == Storing(Archive) && Pending(s)
    ensures CanBegin(s)
  {
    FromJobPhase(Goto(SetPhase(s, Archive), Doing(Archive)), Archive);
    BeforeStoring(s, Archive);
  }

  lemma {:induction false} FromPhase(s: State, p: Phase)
    requires s.main == Doing(p) && Bound(p) && Pending(s)
    ensures CanBegin(s)
  {
    match p
    case Delay => FromDelay(s);
    case Enumerate => FromEnumerate(s);
    case Archive => FromJobPhase(s, p);
    case EraseAll => FromEraseAll(s);
    case ManualDownload => FromJobPhase(s, p);
    case Cleanup => FromCleanup(s);
  }

  lemma {:induction false} FromDraining(s: State)
    requires s.main == Draining && Bound(s.shared.phase) && Pending(s)
    ensures CanBegin(s)
  {
    FromPhase(Goto(s, Doing(s.shared.phase)), s.shared.phase);
    BeforeDraining(s);
  }

  lemma {:induction false} FromYielding(s: State, p: Phase)
    requires s.main == Doing(p) && Yields(p) && Bound(s.shared.phase) && Pending(s)
    ensures CanBegin(s)
  {
    FromDraining(Goto(s, Draining));
    Before(s, Do(false, true, [], {}), Goto(s, Draining));
  }

  lemma {:induction false} HeadingCanBegin(s: State)
    requires Pending(s) && Heading(s) && (s.main.Working? ==> JobShape(s.main.job, s.main.stage))
    ensures CanBegin(s)
  {
    match s.main
    case Draining => FromDraining(s);
    case Reading =>
      FromPhase(Goto(s, Doing(s.shared.phase)), s.shared.phase);
      Before(s, Read, Goto(s, Doing(s.shared.phase)));
    case Storing(next) =>
      FromPhase(Goto(SetPhase(s, next), Doing(next)), next);
      BeforeStoring(s, next);
    case Doing(p) =>
      if Bound(p) {
        FromPhase(s, p);
      } else {
        FromYielding(s, p);
      }
    case Working(job, stage) => FromWorking(s, job, stage);
    case Sending(_) => FromSending(s);
    case Ending => FromEnding(s);
    case BeginCycle => AtBegin(s);
  }

  // ---- When a pending disarm leads to a cycle ----

  lemma {:induction false} RunGoesOn(eraseAfterSuccess: bool, steps: seq<Step>, more: seq<Step>)
    ensures Run(eraseAfterSuccess, steps + more) == Onward(Run(eraseAfterSuccess, steps), more)
    decreases |more|
  {
    if more == [] {
      assert steps + more == steps;
    } else {
      assert (steps + [more[0]])[..|steps|] == steps;
      assert steps + more == steps + [more[0]] + more[1..];
      RunGoesOn(eraseAfterSuccess, steps + [more[0]], more[1..]);
    }
  }

  /** Some undisturbed continuation of the run begins a cycle. */
  ghost predicate MayBegin(eraseAfterSuccess: bool, steps: seq<Step>) {
    exists more :: AllUndisturbed(more) && Run(eraseAfterSuccess, steps + more).main == BeginCycle
  }

  /**
   * After any run, with a disarm pending and no command waiting: some continuation without further flight events,
   * requests or crashes begins a cycle, if and only if the main loop is heading for one. The main loop alone can
   * then do it; from anywhere else no such continuation ever does.
   */
  lemma {:induction false} DisarmLeadsToCycleIff(eraseAfterSuccess: bool, steps: seq<Step>)
    requires Pending(Run(eraseAfterSuccess, steps))
    ensures MayBegin(eraseAfterSuccess, steps) <==> Heading(Run(eraseAfterSuccess, steps))
    ensures Heading(Run(eraseAfterSuccess, steps)) ==> CanBegin(Run(eraseAfterSuccess, steps))
  {
    var s := Run(eraseAfterSuccess, steps);
    if Heading(s) {
      EveryRunIsLawful(eraseAfterSuccess, steps);
      HeadingCanBegin(s);
      var more :| AllMain(more) && Onward(s, more).main == BeginCycle;
      RunGoesOn(eraseAfterSuccess, steps, more);
      assert AllUndisturbed(more);
    }
    if more :| AllUndisturbed(more) && Run(eraseAfterSuccess, steps + more).main == BeginCycle {
      RunGoesOn(eraseAfterSuccess, steps, more);
      if !Heading(s) {
        AstrayForever(s, more);
      }
    }
  }

  // ---- Where nothing turns the main loop away any more ----

  /** Heading, and not in a phase that may still store another one over the one that leads to a cycle. */
  ghost predicate Committed(s: State) {
    match s.main
    case BeginCycle => false
    case Doing(p) =>
      if p == Delay || p == WaitArm || p == WaitDisarm then Bound(s.shared.phase) && IsBusy(s.shared.phase) else Bound(p)
    case _ => Heading(s)
  }

  lemma {:induction false} CommittedKeptByWork(s: State, job: Job, stage: Stage, w: Step)
    requires Pending(s) && s.main == Working(job, stage) && w.Work?
    ensures Pending(DoWork(s, job, stage, w)) && Committed(DoWork(s, job, stage, w))
  {
  }

  lemma {:induction false} CommittedKeptByPhase(s: State, p: Phase, yes: bool, alive: bool, logs: seq<FlightLog>, evicted: set<Path>)
    requires Pending(s) && Committed(s) && s.main == Doing(p)
    ensures var s' := DoPhase(s, p, yes, alive, logs, evicted); s'.main == BeginCycle || (Pending(s') && Committed(s'))
  {
  }

  lemma {:induction false} CommittedKeptByMain(s: State, step: Step)
    requires Pending(s) && Committed(s)
    ensures var s' := MainStep(s, step); s'.main == BeginCycle || (Pending(s') && Committed(s'))
  {
    match (s.main, step)
    case (Doing(p), Do(yes, alive, logs, evicted)) => CommittedKeptByPhase(s, p, yes, alive, logs, evicted);
    case (Working(job, stage), Work(_, _, _, _, _)) => CommittedKeptByWork(s, job, stage, step);
    case _ =>
  }

  lemma {:induction false} CommittedKept(s: State, step: Step)
    requires Pending(s) && Committed(s) && Undisturbed(step)
    ensures var s' := Apply(s, step); s'.main == BeginCycle || (Pending(s') && Committed(s'))
  {
    CommittedKeptByMain(s, step);
  }

  ghost predicate BeginsWithin(s: State, more: seq<Step>)
    decreases |more|
  {
    s.main == BeginCycle || (more != [] && BeginsWithin(Apply(s, more[0]), more[1..]))
  }

  /** Once committed, no undisturbed continuation leads elsewhere before the cycle begins. */
  lemma {:induction false} CommittedUntilCycle(s: State, more: seq<Step>)
    requires Pending(s) && Committed(s) && AllUndisturbed(more)
    ensures BeginsWithin(s, more) || (Pending(Onward(s, more)) && Committed(Onward(s, more)))
    decreases |more|
  {
    if more != [] {
      CommittedKept(s, more[0]);
      if Apply(s, more[0]).main != BeginCycle {
        CommittedUntilCycle(Apply(s, more[0]), more[1..]);
      }
    }
  }

  // ---- Disarms that lead to no cycle ----

  /** A state of the runs below: no logs, no files, an idle companion thread. */
  ghost function In(p: Phase, main: Main, queue: seq<Command>, rx: Rx, cancel: bool, requested: bool, armed: bool, t: Trace): State {
    State(Shared(p, cancel, requested, armed), main, Local(true, queue, rx, UdpIdle, Download({}, false)), Blank(),
          Controller({}, {}), t)
  }

  lemma {:induction false} ByRx(steps: seq<Step>, s: State, step: Step) returns (more: seq<Step>)
    requires Leads(steps, s) && IsRx(step)
    ensures Leads(more, RxStep(s, step))
  {
    more := Extend(steps, s, step, RxStep(s, step));
  }

  /** The armed vehicle disarms, and the receive thread reads the phase. */
  lemma {:induction false} SeesDisarm(steps: seq<Step>, p: Phase, main: Main, t: Trace) returns (more: seq<Step>)
    requires Leads(steps, In(p, main, [], RxIdle, false, false, true, t))
    ensures Leads(more, In(p, main, [], SawDisarmed(p), false, false, false, t))
  {
    more := ByRx(steps, In(p, main, [], RxIdle, false, false, true, t), Disarm);
    more := ByRx(more, In(p, main, [], GotDisarmed, false, false, false, t), SeeDisarmed);
  }

  lemma {:induction false} Disarms(steps: seq<Step>, p: Phase, main: Main, t: Trace) returns (more: seq<Step>)
    requires Leads(steps, In(p, main, [], RxIdle, false, false, true, t))
    ensures Leads(more, In(p, main, [], Flagged(p), false, true, false, t))
  {
    more := SeesDisarm(steps, p, main, t);
    more := ByRx(more, In(p, main, [], SawDisarmed(p), false, false, false, t), FlagDisarm);
  }

  /** A refresh is accepted, and the vehicle arms before the command is drained. */
  lemma {:induction false} ArmedMeanwhile() returns (steps: seq<Step>)
    ensures Leads(steps, In(WaitDisarm, Draining, [Refresh], RxIdle, false, false, true, Nothing))
  {
    steps := [];
    assert Leads(steps, At(Boot, Draining, [], UdpIdle, Blank(), Controller({}, {}), Nothing));
    steps := WakeUp(steps, Blank(), Controller({}, {}), Nothing);
    steps := Queue(steps, WaitArm, Refresh, Blank(), Controller({}, {}), Nothing);
    steps := ByRx(steps, In(WaitArm, Draining, [Refresh], RxIdle, false, false, false, Nothing), Arm);
    steps := ByRx(steps, In(WaitArm, Draining, [Refresh], GotArmed, false, false, true, Nothing), SeeArmed);
    steps := ByRx(steps, In(WaitArm, Draining, [Refresh], SawArmed(WaitArm), false, false, true, Nothing), ActArmed);
  }

  ghost function Refreshing(): Trace {
    Then(Then(Nothing, Popped(Refresh)), CancelLowered(ManualReset))
  }

  lemma {:induction false} RefreshBegun() returns (steps: seq<Step>)
    ensures Leads(steps, In(ManualRefresh, Doing(ManualRefresh), [], RxIdle, false, false, true, Refreshing()))
  {
    var t, p := Then(Nothing, Popped(Refresh)), ManualRefresh;
    steps := ArmedMeanwhile();
    assert [Refresh][1..] == [];
    steps := ByPop(steps, In(WaitDisarm, Draining, [Refresh], RxIdle, false, false, true, Nothing));
    steps := ByHandle(steps, In(WaitDisarm, Handling(Refresh), [], RxIdle, false, false, true, t), Refresh);
    steps := ByStore(steps, In(WaitDisarm, Storing(p), [], RxIdle, false, false, true, Refreshing()), p);
    steps := ByPop(steps, In(p, Draining, [], RxIdle, false, false, true, Refreshing()));
    steps := ByRead(steps, In(p, Reading, [], RxIdle, false, false, true, Refreshing()));
  }

  ghost predicate Forgotten(steps: seq<Step>) {
    var s := Run(true, steps);
    Pending(s) && s.local.rx == RxIdle && s.local.udp == UdpIdle && !s.shared.armed && !MayBegin(true, steps)
  }

  lemma {:induction false} ForgottenAtRest(steps: seq<Step>, cancel: bool, t: Trace)
    requires Leads(steps, In(WaitArm, Draining, [], RxIdle, cancel, true, false, t))
    ensures Forgotten(steps)
  {
    assert Unfold(steps);
    DisarmLeadsToCycleIff(true, steps);
  }

  /** A disarm during a manual refresh: the service goes idle with the disarm pending, and no cycle follows. */
  lemma {:induction false} RefreshForgetsDisarm() returns (steps: seq<Step>)
    ensures Forgotten(steps)
  {
    var p, t := ManualRefresh, Then(Refreshing(), CancelRaised);
    steps := RefreshBegun();
    steps := Disarms(steps, p, Doing(p), Refreshing());
    steps := ByRx(steps, In(p, Doing(p), [], Flagged(p), false, true, false, Refreshing()), ActDisarmed);
    steps := ByDo(steps, In(p, Doing(p), [], RxIdle, true, true, false, t), p, [], {});
    steps := ByReturn(steps, In(p, Returning, [], RxIdle, true, true, false, Then(t, Enumerated([]))));
    steps := ByStore(steps, In(p, Storing(WaitArm), [], RxIdle, true, true, false, Then(t, Enumerated([]))), WaitArm);
    ForgottenAtRest(steps, true, Then(t, Enumerated([])));
  }

  /** The service starts in flight: the first heartbeat shows an armed vehicle. */
  lemma {:induction false} StartedInFlight() returns (steps: seq<Step>)
    ensures Leads(steps, In(Connect, Doing(Connect), [], RxIdle, false, false, true, Nothing))
  {
    steps := [];
    assert Leads(steps, At(Boot, Draining, [], UdpIdle, Blank(), Controller({}, {}), Nothing));
    steps := ByPop(steps, In(Boot, Draining, [], RxIdle, false, false, false, Nothing));
    steps := ByRead(steps, In(Boot, Reading, [], RxIdle, false, false, false, Nothing));
    steps := ByDo(steps, In(Boot, Doing(Boot), [], RxIdle, false, false, false, Nothing), Boot, [], {});
    steps := Enter(steps, Boot, Connect, Blank(), Controller({}, {}), Nothing);
    steps := ByRx(steps, In(Connect, Doing(Connect), [], RxIdle, false, false, false, Nothing), Meet(true));
  }

  lemma {:induction false} IdleInFlight() returns (steps: seq<Step>)
    ensures Leads(steps, In(WaitArm, Draining, [], RxIdle, false, false, true, Nothing))
  {
    steps := StartedInFlight();
    steps := ByDo(steps, In(Connect, Doing(Connect), [], RxIdle, false, false, true, Nothing), Connect, [], {});
    steps := ByStore(steps, In(Connect, Storing(WaitHeartbeat), [], RxIdle, false, false, true, Nothing), WaitHeartbeat);
    steps := ByPop(steps, In(WaitHeartbeat, Draining, [], RxIdle, false, false, true, Nothing));
    steps := ByRead(steps, In(WaitHeartbeat, Reading, [], RxIdle, false, false, true, Nothing));
    steps := ByDo(steps, In(WaitHeartbeat, Doing(WaitHeartbeat), [], RxIdle, false, false, true, Nothing), WaitHeartbeat, [], {});
    steps := ByStore(steps, In(WaitHeartbeat, Storing(WaitArm), [], RxIdle, false, false, true, Nothing), WaitArm);
  }

  /** Without any job: the landing after a start in flight is seen while waiting for an arm, and no cycle follows. */
  lemma {:induction false} FirstLandingIsForgotten() returns (steps: seq<Step>)
    ensures Forgotten(steps)
  {
    steps := IdleInFlight();
    steps := Disarms(steps, WaitArm, Draining, Nothing);
    steps := ByRx(steps, In(WaitArm, Draining, [], Flagged(WaitArm), false, true, false, Nothing), ActDisarmed);
    ForgottenAtRest(steps, false, Nothing);
  }
}
