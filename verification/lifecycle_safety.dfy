/** What every run of the lifecycle keeps, and the theorems about whole runs. */
module LifecycleSafety {
  import opened Text
  import opened Wrappers
  import opened Lifecycle
  import F = WatchdogFlag

  /**
   The setups in which the watchdog never signals by PID number: it is not started, its pidfd is
   opened and `pidfd_send_signal` delivers or reports ESRCH, or the number is one that
   `kill_process` refuses.
   */
  predicate NeverByNumber(setup: Setup) {
    || !StartsWatchdog(setup)
    || (setup.pidfdOpens && setup.pidfdSignals)
    || setup.pid > I32_MAX
  }

  /**
   The setups in which no child outlives a watchdog that has fired: `kill_process` accepts the
   number, and the pidfd works or the child cannot leave its process group.
   */
  predicate KillsForSure(setup: Setup) {
    setup.pid <= I32_MAX && ((setup.pidfdOpens && setup.pidfdSignals) || !setup.leavesGroup)
  }

  predicate IsWatchdogKill(cause: Cause) {
    cause.ByWatchdogCgroup? || cause.ByWatchdogSignal?
  }

  // ---------------------------------------------------------------------------
  // The inductive invariant, one concern at a time
  // ---------------------------------------------------------------------------

  /** The owner is the only caller of `cancel`, and only while it is inside it. */
  ghost predicate FlagAgrees(s: System) {
    && F.Inv(s.flag)
    && s.flag.timeout == s.setup.timeout
    && s.flag.callers.Keys <= {OWNER}
    && (OWNER in s.flag.callers ==> s.owner.Cancelling?)
  }

  ghost predicate KernelIsConsistent(k: Kernel) {
    && (k.pidHolder == Some(Child) <==> !k.child.Reaped?)
    && (Child in k.group ==> !k.child.Reaped?)
    && k.reaps == (if k.child.Reaped? then 1 else 0)
  }

  predicate HasFired(w: Watchdog) {
    w in {CgroupKilling, Signalling, GroupKilling, Reaping, Finished(true)}
  }

  /** The atomic is set before either kill, and only after a full wait with the flag clear. */
  ghost predicate WatchdogIsJustified(s: System) {
    && (s.timedOut <==> HasFired(s.watchdog))
    && (s.timedOut || s.watchdog.Storing? ==> s.flag.waiter.Decided? && !s.flag.waiter.cancelled)
    && (s.watchdog == NotStarted ==> s.flag.waiter.Outside?)
    && (s.watchdog == Finished(false) ==> s.flag.waiter.Decided? && s.flag.waiter.cancelled)
    && (s.watchdog !in {NotStarted, Waiting} ==> s.flag.waiter.Decided?)
    && (s.owner.OpeningPidfd? || s.owner.StartingWatchdog? ==> s.watchdog == NotStarted)
    && (s.watchdog != NotStarted ==> StartsWatchdog(s.setup))
    && (!s.kernel.child.Running? && IsWatchdogKill(s.kernel.child.cause) ==> s.timedOut)
    && (!s.timedOut ==> s.kernel.watchdogHits == {})
  }

  /** Nobody can reap before the pidfd is opened, so the pidfd names the child. */
  ghost predicate PidfdNamesChild(s: System) {
    && (s.owner.OpeningPidfd? || s.owner.StartingWatchdog? ==> !s.kernel.child.Reaped?)
    && (s.pidfd.Some? ==> s.pidfd == Some(Child))
    && (!s.owner.OpeningPidfd? && s.setup.pid != 0 && s.setup.pid <= I32_MAX && s.setup.pidfdOpens ==>
          s.pidfd == Some(Child))
  }

  predicate HasReaped(o: Owner) {
    o in {Loading, Cancelling(ThenLoad), Ready(WaitOk), Ready(Killed), RemovingLeaf, Dropped}
  }

  ghost predicate OwnerIsAccurate(s: System) {
    && (s.status.Some? ==> s.kernel.child.Reaped?)
    && (HasReaped(s.owner) ==> s.kernel.child.Reaped?)
    && (s.killedByTimeout ==> s.timedOut)
    && (s.owner == Ready(WaitOk) && IsWatchdogKill(s.kernel.child.cause) ==> s.killedByTimeout)
  }

  /** Then only the owner reaps, and nobody but the child is ever signalled. */
  ghost predicate OnlyChildIsSignalled(s: System) {
    NeverByNumber(s.setup) ==>
      && (s.watchdog.GroupKilling? ==> s.setup.pid > I32_MAX)
      && !s.watchdog.Reaping?
      && (s.kernel.child.Reaped? ==> s.status.Some?)
      && (s.owner.KillBlocking? ==> !s.kernel.child.Running?)
      && s.kernel.watchdogHits <= {Child}
      && s.kernel.ownerHits <= {Child}
  }

  /** The signal has been sent, to the child itself or to a group that it is still in. */
  ghost predicate KillIsEffective(s: System) {
    && (!s.setup.leavesGroup && !s.kernel.child.Reaped? ==> Child in s.kernel.group)
    && (s.watchdog.GroupKilling? && KillsForSure(s.setup) ==> !s.setup.leavesGroup)
    && (s.watchdog in {Reaping, Finished(true)} && KillsForSure(s.setup) ==> !s.kernel.child.Running?)
  }

  /** The setups in which nobody but the child is ever in a leaf. */
  predicate LeafIsForChildOnly(setup: Setup) {
    !setup.cgroup || setup.maxProcesses <= 1
  }

  /** Somebody else can be in the leaf only if pids.max lets the child fork, and only that can keep it. */
  ghost predicate LeafIsConsistent(s: System) {
    && (!s.setup.cgroup ==> s.kernel.leaf.NoLeaf?)
    && (LeafIsForChildOnly(s.setup) && s.kernel.leaf.Leaf? ==> s.kernel.leaf == Leaf(0, 0) && !s.owner.Dropped?)
  }

  ghost predicate Inv(s: System) {
    && FlagAgrees(s)
    && KernelIsConsistent(s.kernel)
    && WatchdogIsJustified(s)
    && PidfdNamesChild(s)
    && OwnerIsAccurate(s)
    && OnlyChildIsSignalled(s)
    && KillIsEffective(s)
    && LeafIsConsistent(s)
  }

  /** What an owner step leaves to the others. */
  ghost predicate OwnerFrame(s: System, t: System) {
    && t.setup == s.setup && t.flag == s.flag && t.timedOut == s.timedOut
    && t.kernel.watchdogHits == s.kernel.watchdogHits
    && t.watchdog == (if s.owner.StartingWatchdog? && StartsWatchdog(s.setup) then Waiting
                      else if s.owner.StartingWatchdog? then NotStarted else s.watchdog)
    && (t.owner.OpeningPidfd? || t.owner.StartingWatchdog? ==> s.owner.OpeningPidfd?)
    && (!t.kernel.child.Running? && IsWatchdogKill(t.kernel.child.cause) ==>
          !s.kernel.child.Running? && s.kernel.child.cause == t.kernel.child.cause)
  }

  lemma FrameKeepsWatchdog(s: System, t: System)
    requires OwnerFrame(s, t) && FlagAgrees(s) && WatchdogIsJustified(s) && !s.owner.Cancelling?
    ensures FlagAgrees(t) && WatchdogIsJustified(t)
  {
  }

  // The owner asks for the child's status ...

  lemma WaitRespectsFrame(s: System, foreign: Foreign)
    requires WaitsForChild(s.owner) && OwnerEnabled(s, foreign)
    ensures OwnerFrame(s, OwnerNext(s, false, foreign))
  {
  }

  lemma WaitKeepsKernel(s: System, foreign: Foreign)
    requires KernelIsConsistent(s.kernel) && PidfdNamesChild(s)
    requires WaitsForChild(s.owner) && OwnerEnabled(s, foreign)
    ensures KernelIsConsistent(OwnerNext(s, false, foreign).kernel) && PidfdNamesChild(OwnerNext(s, false, foreign))
  {
  }

  lemma WaitKeepsAccuracy(s: System, foreign: Foreign)
    requires WatchdogIsJustified(s) && OwnerIsAccurate(s) && LeafIsConsistent(s)
    requires WaitsForChild(s.owner) && OwnerEnabled(s, foreign)
    ensures OwnerIsAccurate(OwnerNext(s, false, foreign)) && LeafIsConsistent(OwnerNext(s, false, foreign))
  {
  }

  lemma WaitKeepsSignals(s: System, foreign: Foreign)
    requires KernelIsConsistent(s.kernel) && OwnerIsAccurate(s) && OnlyChildIsSignalled(s) && KillIsEffective(s)
    requires WaitsForChild(s.owner) && OwnerEnabled(s, foreign)
    ensures OnlyChildIsSignalled(OwnerNext(s, false, foreign)) && KillIsEffective(OwnerNext(s, false, foreign))
  {
  }

  // ... or does something else

  lemma ActRespectsFrame(s: System, writes: bool)
    requires OwnerEnabled(s, NotOurs) && !WaitsForChild(s.owner)
    ensures OwnerFrame(s, OwnerActs(s, writes))
  {
  }

  lemma ActKeepsKernel(s: System, writes: bool)
    requires KernelIsConsistent(s.kernel) && PidfdNamesChild(s)
    requires OwnerEnabled(s, NotOurs) && !WaitsForChild(s.owner)
    ensures KernelIsConsistent(OwnerActs(s, writes).kernel) && PidfdNamesChild(OwnerActs(s, writes))
  {
  }

  lemma ActKeepsAccuracy(s: System, writes: bool)
    requires WatchdogIsJustified(s) && OwnerIsAccurate(s) && LeafIsConsistent(s)
    requires OwnerEnabled(s, NotOurs) && !WaitsForChild(s.owner)
    ensures OwnerIsAccurate(OwnerActs(s, writes)) && LeafIsConsistent(OwnerActs(s, writes))
  {
  }

  lemma ActKeepsSignals(s: System, writes: bool)
    requires KernelIsConsistent(s.kernel) && OwnerIsAccurate(s) && OnlyChildIsSignalled(s) && KillIsEffective(s)
    requires OwnerEnabled(s, NotOurs) && !WaitsForChild(s.owner)
    ensures OnlyChildIsSignalled(OwnerActs(s, writes)) && KillIsEffective(OwnerActs(s, writes))
  {
  }

  lemma OwnerKeepsInv(s: System, writes: bool, foreign: Foreign)
    requires Inv(s) && OwnerEnabled(s, foreign)
    ensures Inv(OwnerNext(s, writes, foreign))
  {
    FrameOfOwner(s, writes, foreign);
    FrameKeepsWatchdog(s, OwnerNext(s, writes, foreign));
    if WaitsForChild(s.owner) {
      WaitKeepsKernel(s, foreign);
      WaitKeepsAccuracy(s, foreign);
      WaitKeepsSignals(s, foreign);
    } else {
      ActKeepsKernel(s, writes);
      ActKeepsAccuracy(s, writes);
      ActKeepsSignals(s, writes);
    }
  }

  lemma FrameOfOwner(s: System, writes: bool, foreign: Foreign)
    requires OwnerEnabled(s, foreign)
    ensures OwnerFrame(s, OwnerNext(s, writes, foreign))
  {
    if WaitsForChild(s.owner) {
      WaitRespectsFrame(s, foreign);
    } else {
      ActRespectsFrame(s, writes);
    }
  }

  /** What a watchdog step leaves to the others. */
  ghost predicate WatchdogFrame(s: System, t: System) {
    && t.setup == s.setup && t.flag == s.flag && t.owner == s.owner && t.pidfd == s.pidfd
    && t.status == s.status && t.killedByTimeout == s.killedByTimeout
    && t.kernel.ownerHits == s.kernel.ownerHits
  }

  lemma WatchdogRespectsFrame(s: System, writes: bool, foreign: Foreign)
    requires WatchdogEnabled(s)
    ensures WatchdogFrame(s, WatchdogNext(s, writes, foreign))
  {
  }

  /** The watchdog decides, sets the atomic and writes to the leaf. */
  lemma FiringKeepsInv(s: System, writes: bool, foreign: Foreign)
    requires Inv(s) && WatchdogEnabled(s) && (s.watchdog.Waiting? || s.watchdog.Storing? || s.watchdog.CgroupKilling?)
    ensures Inv(WatchdogNext(s, writes, foreign))
  {
  }

  lemma SignallingKeepsInv(s: System, writes: bool, foreign: Foreign)
    requires Inv(s) && s.watchdog.Signalling?
    ensures Inv(WatchdogNext(s, writes, foreign))
  {
  }

  lemma GroupKillKeepsInv(s: System, writes: bool, foreign: Foreign)
    requires Inv(s) && s.watchdog.GroupKilling?
    ensures Inv(WatchdogNext(s, writes, foreign))
  {
  }

  lemma ReapingKeepsInv(s: System, writes: bool, foreign: Foreign)
    requires Inv(s) && s.watchdog.Reaping?
    ensures Inv(WatchdogNext(s, writes, foreign))
  {
  }

  lemma WatchdogKeepsInv(s: System, writes: bool, foreign: Foreign)
    requires Inv(s) && WatchdogEnabled(s)
    ensures Inv(WatchdogNext(s, writes, foreign))
  {
    match s.watchdog
    case Signalling => SignallingKeepsInv(s, writes, foreign);
    case GroupKilling => GroupKillKeepsInv(s, writes, foreign);
    case Reaping => ReapingKeepsInv(s, writes, foreign);
    case _ => FiringKeepsInv(s, writes, foreign);
  }

  lemma FlagKeepsInv(s: System, step: F.Step)
    requires Inv(s) && FlagStepAllowed(s, step)
    ensures Inv(Apply(s, FlagStep(step)))
  {
    F.StepKeepsInv(s.flag, step);
    F.StepKeepsOutcome(s.flag, step);
  }

  lemma StepKeepsInv(s: System, step: Step)
    requires Inv(s) && Enabled(s, step)
    ensures Inv(Apply(s, step))
  {
    match step
    case OwnerStep(writes, foreign) => OwnerKeepsInv(s, writes, foreign);
    case WatchdogStep(writes, foreign) => WatchdogKeepsInv(s, writes, foreign);
    case FlagStep(f) => FlagKeepsInv(s, f);
    case _ =>
  }

  lemma {:induction false} RunKeepsInv(s: System, run: seq<Step>)
    requires Inv(s) && Legal(s, run)
    ensures Inv(After(s, run))
    decreases |run|
  {
    if run != [] {
      StepKeepsInv(s, run[0]);
      RunKeepsInv(Apply(s, run[0]), run[1..]);
    }
  }

  lemma ReachableInv(setup: Setup, s: System)
    requires Reachable(setup, s)
    ensures Inv(s) && s.setup == setup
  {
    var run :| Legal(Init(setup), run) && After(Init(setup), run) == s;
    RunKeepsInv(Init(setup), run);
    RunKeepsFacts(Init(setup), run);
  }

  // ---------------------------------------------------------------------------
  // What a step never takes back
  // ---------------------------------------------------------------------------

  /** Nothing in the leaf runs: what is still there has been killed and is exiting. */
  predicate LeafIsDead(k: Kernel) {
    !k.child.Running? && (k.leaf.Leaf? ==> k.leaf.members == 0)
  }

  /** Nothing is in the leaf any more, and `drop` has not left it behind. */
  predicate IsVacated(s: System) {
    !s.kernel.child.Running? && (s.kernel.leaf.Leaf? ==> s.kernel.leaf == Leaf(0, 0) && !s.owner.Dropped?)
  }

  /** `t` comes after `s`. */
  ghost predicate Follows(s: System, t: System) {
    && t.setup == s.setup
    && (s.kernel.child.Reaped? ==> t.kernel.child == s.kernel.child)
    && (s.status.Some? ==> t.status == s.status)
    && (s.timedOut ==> t.timedOut)
    && (s.killedByTimeout ==> t.killedByTimeout)
    && (F.CancelWon(s.flag) ==> F.CancelWon(t.flag))
    && (s.owner.Dropped? ==> t.owner.Dropped?)
    && (LeafIsDead(s.kernel) ==> LeafIsDead(t.kernel))
    && (LeafIsDead(s.kernel) && s.kernel.leaf.Leaf? ==>
          t.kernel.leaf.NoLeaf? || t.kernel.leaf.doomed <= s.kernel.leaf.doomed)
    && (IsVacated(s) ==> IsVacated(t))
  }

  lemma WaitKeepsFacts(s: System, foreign: Foreign)
    requires Inv(s) && WaitsForChild(s.owner) && OwnerEnabled(s, foreign)
    ensures Follows(s, OwnerNext(s, false, foreign))
  {
  }

  lemma ActKeepsFacts(s: System, writes: bool)
    requires Inv(s) && OwnerEnabled(s, NotOurs) && !WaitsForChild(s.owner)
    ensures Follows(s, OwnerActs(s, writes))
  {
  }

  lemma WatchdogKeepsFacts(s: System, writes: bool, foreign: Foreign)
    requires Inv(s) && WatchdogEnabled(s)
    ensures Follows(s, WatchdogNext(s, writes, foreign))
  {
    WatchdogRespectsFrame(s, writes, foreign);
  }

  lemma StepKeepsFacts(s: System, step: Step)
    requires Inv(s) && Enabled(s, step)
    ensures Follows(s, Apply(s, step))
  {
    match step
    case OwnerStep(writes, foreign) =>
      if WaitsForChild(s.owner) {
        WaitKeepsFacts(s, foreign);
      } else {
        ActKeepsFacts(s, writes);
      }
    case WatchdogStep(writes, foreign) => WatchdogKeepsFacts(s, writes, foreign);
    case FlagStep(f) => F.StepKeepsOutcome(s.flag, f);
    case _ =>
  }

  lemma {:induction false} RunKeepsFacts(s: System, run: seq<Step>)
    requires Inv(s) && Legal(s, run)
    ensures Follows(s, After(s, run))
    decreases |run|
  {
    if run != [] {
      StepKeepsFacts(s, run[0]);
      StepKeepsInv(s, run[0]);
      RunKeepsFacts(Apply(s, run[0]), run[1..]);
    }
  }

  lemma StepIsReachable(setup: Setup, s: System, step: Step)
    requires Reachable(setup, s) && Enabled(s, step)
    ensures Reachable(setup, Apply(s, step))
  {
    LeadsToNext(s, step);
    LeadsOn(Init(setup), s, Apply(s, step));
  }

  lemma LaterFacts(setup: Setup, s: System, t: System)
    requires Reachable(setup, s) && Leads(s, t)
    ensures s.setup == setup && Inv(s) && Inv(t) && Follows(s, t)
  {
    ReachableInv(setup, s);
    var future :| Legal(s, future) && After(s, future) == t;
    RunKeepsInv(s, future);
    RunKeepsFacts(s, future);
  }

  // ---------------------------------------------------------------------------
  // Theorems
  // ---------------------------------------------------------------------------

  /**
   If the watchdog killed the child and `wait_with_usage` returns Ok, the process is reported as
   killed by timeout, then and for ever after.
   */
  lemma WatchdogKillIsReported(setup: Setup, s: System, t: System)
    requires Reachable(setup, s) && Leads(s, t)
    requires s.owner == Ready(WaitOk)
    ensures s.kernel.child.Reaped?
    ensures IsWatchdogKill(s.kernel.child.cause) ==> s.killedByTimeout && t.killedByTimeout
  {
    LaterFacts(setup, s, t);
  }

  /** A report of a timeout means that the whole timeout went by with the flag clear. */
  lemma ReportMeansFullTimeout(setup: Setup, s: System)
    requires Reachable(setup, s)
    ensures s.killedByTimeout ==>
              && setup.timeout > 0
              && s.flag.waiter.Decided? && !s.flag.waiter.cancelled
              && s.flag.waiter.at - s.flag.waiter.since > setup.timeout
  {
    ReachableInv(setup, s);
  }

  /** A cancellation stored before the watchdog has decided keeps it from ever firing. */
  lemma CancelledWatchdogNeverFires(setup: Setup, s: System, t: System)
    requires Reachable(setup, s) && Leads(s, t)
    requires s.flag.cancelled && !s.flag.waiter.Decided?
    ensures !t.timedOut && !t.killedByTimeout && !HasFired(t.watchdog) && t.kernel.watchdogHits == {}
    ensures (!t.kernel.child.Running? ==> !IsWatchdogKill(t.kernel.child.cause))
  {
    LaterFacts(setup, s, t);
  }

  /** A timeout of zero, or a PID of zero, means no watchdog, no report and no signal of one at all. */
  lemma NoWatchdogNeverFires(setup: Setup, s: System)
    requires Reachable(setup, s) && !StartsWatchdog(setup)
    ensures s.watchdog == NotStarted && !s.timedOut && !s.killedByTimeout && s.kernel.watchdogHits == {}
    ensures !s.kernel.child.Running? ==> !IsWatchdogKill(s.kernel.child.cause)
  {
    ReachableInv(setup, s);
  }

  /**
   When `kill` or `drop` has returned, the child has been reaped, exactly once over the whole run,
   and stays so.
   */
  lemma KillAndDropReapOnce(setup: Setup, s: System, t: System)
    requires Reachable(setup, s) && Leads(s, t)
    requires s.owner == Ready(Killed) || s.owner.Dropped?
    ensures s.kernel.child.Reaped? && s.kernel.reaps == 1
    ensures t.kernel.child == s.kernel.child && t.kernel.reaps == 1
  {
    LaterFacts(setup, s, t);
  }

  /** The step writes to cgroup.kill, and the file is there. */
  predicate WritesCgroupKill(s: System, step: Step) {
    && Enabled(s, step) && s.kernel.leaf.Leaf?
    && ((step.OwnerStep? && step.writes && s.owner.KillingCgroup?)
        || (step.WatchdogStep? && step.writes && s.watchdog.CgroupKilling?))
  }

  /**
   Once the owner or the watchdog has written to cgroup.kill, nothing in the leaf runs any more, in any
   continuation: no later fork refills it, and what has been killed only gets less.
   */
  lemma CgroupKillIsFinal(setup: Setup, s: System, step: Step, t: System)
    requires Reachable(setup, s) && WritesCgroupKill(s, step) && Leads(Apply(s, step), t)
    ensures LeafIsDead(t.kernel)
    ensures t.kernel.leaf.NoLeaf? || t.kernel.leaf.doomed <= s.kernel.leaf.members + s.kernel.leaf.doomed
  {
    ReachableInv(setup, s);
    StepIsReachable(setup, s, step);
    LaterFacts(setup, Apply(s, step), t);
  }

  /** Once everybody has exited, the leaf stays empty, and `drop` does not leave it behind. */
  lemma VacatedLeafGoes(setup: Setup, s: System, t: System)
    requires Reachable(setup, s) && Leads(s, t) && IsVacated(s)
    ensures IsVacated(t) && (t.owner.Dropped? ==> t.kernel.leaf.NoLeaf?)
  {
    LaterFacts(setup, s, t);
  }

  /** Unless the watchdog signals by number, an `is_alive` that finds the child reaped answers false. */
  lemma ReapedIsNeverAlive(setup: Setup, s: System, writes: bool, foreign: Foreign)
    requires Reachable(setup, s) && NeverByNumber(setup)
    requires s.owner.Polling? && s.kernel.child.Reaped?
    ensures Enabled(s, OwnerStep(writes, foreign))
    ensures Apply(s, OwnerStep(writes, foreign)).owner == Ready(Alive(false))
  {
    ReachableInv(setup, s);
  }

  /** Where the kill is sure, the child is dead once the watchdog has fired, with or without a pidfd. */
  lemma TimeoutIsEnforced(setup: Setup, s: System)
    requires Reachable(setup, s) && KillsForSure(setup)
    requires s.watchdog == Finished(true)
    ensures !s.kernel.child.Running?
  {
    ReachableInv(setup, s);
  }

  /** Every child that `spawn` starts: a positive `pid_t`, behind the seccomp filter or never executed. */
  predicate IsSpawned(setup: Setup) {
    0 < setup.pid <= I32_MAX && !setup.leavesGroup
  }

  // ---------------------------------------------------------------------------
  // An overdue watchdog gets to its end
  // ---------------------------------------------------------------------------

  /** More than the timeout has gone by since the wait began, or the wait is over. */
  predicate Overdue(s: System) {
    && !s.watchdog.NotStarted?
    && match s.flag.waiter
       case Outside => false
       case Checking(since) => s.flag.now - since > s.flag.timeout
       case Parked(since) => s.flag.now - since > s.flag.timeout
       case Woken(since) => s.flag.now - since > s.flag.timeout
       case Leaving(_) => true
       case Decided(_, _, _) => true
  }

  /** The steps of the watchdog thread, inside the wait or after it. */
  predicate IsWatchdogStep(step: Step) {
    step.WatchdogStep? || (step.FlagStep? && F.IsWaiterStep(step.step))
  }

  /** How many steps an overdue watchdog still takes at most. */
  function StepsToFinish(s: System): (n: nat)
    ensures n <= 10
  {
    match s.watchdog
    case NotStarted => 10
    case Waiting => 6 + F.StepsLeft(s.flag.waiter)
    case Storing => 5
    case CgroupKilling => 4
    case Signalling => 3
    case GroupKilling => 2
    case Reaping => 1
    case Finished(_) => 0
  }

  lemma FlagStepGetsOverdueNearer(s: System, step: F.Step)
    requires Inv(s) && Overdue(s) && FlagStepAllowed(s, step)
    ensures var t := Apply(s, FlagStep(step));
            && Overdue(t) && StepsToFinish(t) <= StepsToFinish(s)
            && (F.IsWaiterStep(step) ==> StepsToFinish(t) < StepsToFinish(s))
  {
  }

  lemma WatchdogStepGetsNearer(s: System, writes: bool, foreign: Foreign)
    requires Inv(s) && Overdue(s) && WatchdogEnabled(s)
    ensures var t := WatchdogNext(s, writes, foreign); Overdue(t) && StepsToFinish(t) < StepsToFinish(s)
  {
    WatchdogRespectsFrame(s, writes, foreign);
  }

  /** Each step of an overdue watchdog brings its end nearer, and nothing else puts it off. */
  lemma OverdueGetsNearer(s: System, step: Step)
    requires Inv(s) && Overdue(s) && Enabled(s, step)
    ensures var t := Apply(s, step);
            && Overdue(t) && StepsToFinish(t) <= StepsToFinish(s)
            && (IsWatchdogStep(step) ==> StepsToFinish(t) < StepsToFinish(s))
  {
    match step
    case OwnerStep(writes, foreign) => FrameOfOwner(s, writes, foreign);
    case WatchdogStep(writes, foreign) => WatchdogStepGetsNearer(s, writes, foreign);
    case FlagStep(f) => FlagStepGetsOverdueNearer(s, f);
    case _ =>
  }

  function CountWatchdogSteps(run: seq<Step>): nat {
    if run == [] then 0 else (if IsWatchdogStep(run[0]) then 1 else 0) + CountWatchdogSteps(run[1..])
  }

  lemma {:induction false} OverdueCountsDown(s: System, run: seq<Step>)
    requires Inv(s) && Overdue(s) && Legal(s, run)
    ensures CountWatchdogSteps(run) + StepsToFinish(After(s, run)) <= StepsToFinish(s)
    decreases |run|
  {
    if run != [] {
      OverdueGetsNearer(s, run[0]);
      StepKeepsInv(s, run[0]);
      OverdueCountsDown(Apply(s, run[0]), run[1..]);
    }
  }

  /**
   An overdue watchdog takes at most ten more steps in any run, and once it has taken them it is
   finished: the flag was set, or it has fired, and then the child is dead where the kill is sure.
   */
  lemma OverdueWatchdogFinishes(setup: Setup, s: System, run: seq<Step>)
    requires Reachable(setup, s) && Overdue(s) && Legal(s, run)
    ensures CountWatchdogSteps(run) <= StepsToFinish(s) <= 10
    ensures CountWatchdogSteps(run) == StepsToFinish(s) ==>
              var t := After(s, run);
              && (t.watchdog == Finished(true) || (t.watchdog == Finished(false) && t.flag.cancelled))
              && (t.watchdog == Finished(true) && KillsForSure(setup) ==> !t.kernel.child.Running?)
  {
    ReachableInv(setup, s);
    OverdueCountsDown(s, run);
    RunKeepsInv(s, run);
    RunKeepsFacts(s, run);
  }

  /** So for every child that `spawn` starts the timeout is enforced, with or without a working pidfd. */
  lemma SpawnedChildDiesInTime(setup: Setup, s: System, run: seq<Step>)
    requires IsSpawned(setup) && Reachable(setup, s) && Overdue(s) && Legal(s, run)
    requires CountWatchdogSteps(run) == StepsToFinish(s)
    ensures After(s, run).flag.cancelled || !After(s, run).kernel.child.Running?
  {
    OverdueWatchdogFinishes(setup, s, run);
  }

  function NextWatchdogStep(s: System, writes: bool, foreign: Foreign): Step {
    if !s.watchdog.Waiting? then WatchdogStep(writes, foreign)
    else match s.flag.waiter
      case Outside => FlagStep(F.Enter)
      case Checking(_) => FlagStep(F.Check)
      case Parked(_) => FlagStep(F.Wake)
      case Woken(_) => FlagStep(F.Relock)
      case Leaving(_) => FlagStep(F.Leave)
      case Decided(_, _, _) => WatchdogStep(writes, foreign)
  }

  ghost predicate WatchdogCanGoOn(s: System) {
    forall writes, foreign :: Enabled(s, NextWatchdogStep(s, writes, foreign))
  }

  /** The steps by which the owner gives the mutex back. */
  function OwnerReleases(f: F.Flag): seq<Step> {
    if OWNER !in f.callers then []
    else match f.callers[OWNER]
      case Locked => [FlagStep(F.Store(OWNER)), FlagStep(F.Unlock(OWNER))]
      case Stored => [FlagStep(F.Unlock(OWNER))]
      case Unlocked => []
  }

  lemma OwnerGivesMutexBack(s: System)
    requires Inv(s) && s.flag.holder.ACaller?
    ensures |OwnerReleases(s.flag)| <= 2 && Legal(s, OwnerReleases(s.flag))
    ensures var t := After(s, OwnerReleases(s.flag));
            t == s.(flag := t.flag) && t.flag.waiter == s.flag.waiter && t.flag.holder == F.Nobody
  {
    var run := OwnerReleases(s.flag);
    var t := Apply(s, run[0]);
    if |run| == 2 {
      assert run[1..] == [run[1]] && After(t, run[1..]) == Apply(t, run[1]);
    } else {
      assert run[1..] == [] && After(t, []) == t;
    }
  }

  /**
   An overdue watchdog never gets stuck: until it is finished it can take its next step, at once or
   after the at most two steps by which the owner gives the mutex back.
   */
  lemma OverdueWatchdogNeverBlocks(setup: Setup, s: System)
    requires Reachable(setup, s) && Overdue(s) && !s.watchdog.Finished?
    ensures WatchdogCanGoOn(s) || (s.flag.holder == F.ACaller(OWNER)
                                   && Legal(s, OwnerReleases(s.flag)) && |OwnerReleases(s.flag)| <= 2
                                   && WatchdogCanGoOn(After(s, OwnerReleases(s.flag))))
  {
    ReachableInv(setup, s);
    if s.flag.holder.ACaller? {
      OwnerGivesMutexBack(s);
    }
  }

  // ---------------------------------------------------------------------------
  // `kill` and `drop` return
  // ---------------------------------------------------------------------------

  predicate InsideKillOrDrop(o: Owner) {
    || o.KillingCgroup? || o.KillPolling? || o.KillSignalling? || o.KillBlocking?
    || o.DropPolling? || o.RemovingLeaf?
    || o in {Cancelling(ThenKill(false)), Cancelling(ThenKill(true)), Cancelling(ThenTryWait)}
  }

  /** The next step of the owner inside `cancel`. */
  function NextCancelStep(f: F.Flag): F.Step {
    if OWNER !in f.callers then F.Lock(OWNER)
    else match f.callers[OWNER]
      case Locked => F.Store(OWNER)
      case Stored => F.Unlock(OWNER)
      case Unlocked => F.Notify(OWNER)
  }

  function NextOwnerStep(s: System, writes: bool, foreign: Foreign): Step {
    if s.owner.Cancelling? then FlagStep(NextCancelStep(s.flag)) else OwnerStep(writes, foreign)
  }

  /** The owner can take its next step, whatever the environment answers. */
  ghost predicate OwnerCanGoOn(s: System) {
    forall writes, foreign :: Enabled(s, NextOwnerStep(s, writes, foreign))
  }

  /** The steps by which the watchdog gives the mutex back. */
  function ReleaseMutex(f: F.Flag): seq<Step> {
    if f.waiter.Leaving? then [FlagStep(F.Leave)]
    else if f.waiter.Checking? then
      if f.cancelled || f.now - f.waiter.since > f.timeout then [FlagStep(F.Check), FlagStep(F.Leave)]
      else [FlagStep(F.Check)]
    else []
  }

  lemma MutexComesBack(s: System)
    requires Inv(s) && OWNER !in s.flag.callers
    ensures Legal(s, ReleaseMutex(s.flag))
    ensures var t := After(s, ReleaseMutex(s.flag));
            t == s.(flag := t.flag) && t.flag.callers == s.flag.callers && t.flag.holder == F.Nobody
  {
    var run := ReleaseMutex(s.flag);
    if run == [] {
      assert s.flag.holder == F.Nobody;
    } else {
      var t := Apply(s, run[0]);
      if |run| == 2 {
        assert run[1..] == [run[1]] && After(t, run[1..]) == Apply(t, run[1]);
      } else {
        assert run[1..] == [] && After(t, []) == t;
      }
    }
  }

  /** At once, or after the at most two steps by which the watchdog gives the mutex back. */
  ghost predicate OwnerIsNotStuck(s: System) {
    OwnerCanGoOn(s) || (Legal(s, ReleaseMutex(s.flag)) && OwnerCanGoOn(After(s, ReleaseMutex(s.flag))))
  }

  /** Unless the watchdog signals by number, `kill` and `drop` never get stuck. */
  lemma KillNeverBlocks(setup: Setup, s: System)
    requires Reachable(setup, s) && NeverByNumber(setup) && InsideKillOrDrop(s.owner)
    ensures OwnerIsNotStuck(s)
  {
    ReachableInv(setup, s);
    if s.owner.Cancelling? && OWNER !in s.flag.callers {
      MutexComesBack(s);
    } else {
      assert OwnerCanGoOn(s);
    }
  }

  /** How many owner steps `kill` or `drop` still takes at most. */
  function StepsToReturn(s: System): nat {
    var cancelling := if OWNER !in s.flag.callers then 4
                      else match s.flag.callers[OWNER] case Locked => 3 case Stored => 2 case Unlocked => 1;
    match s.owner
    case RemovingLeaf => 1
    case KillBlocking(dropping) => if dropping then 2 else 1
    case KillSignalling(_) => 3
    case KillPolling(_) => 4
    case KillingCgroup(_) => 5
    case Cancelling(ThenKill(_)) => 5 + cancelling
    case DropPolling => 10
    case Cancelling(ThenTryWait) => 10 + cancelling
    case _ => 0
  }

  predicate IsOwnerStep(step: Step) {
    step.OwnerStep? || (step.FlagStep? && IsCallerStep(step.step))
  }

  predicate KillHasReturned(o: Owner) {
    o == Ready(Killed) || o.Dropped?
  }

  lemma OwnerStepGetsNearer(s: System, writes: bool, foreign: Foreign)
    requires InsideKillOrDrop(s.owner) && OwnerEnabled(s, foreign) && OWNER !in s.flag.callers
    ensures var t := OwnerNext(s, writes, foreign);
            StepsToReturn(t) < StepsToReturn(s) && (InsideKillOrDrop(t.owner) || KillHasReturned(t.owner))
  {
    assert OwnerNext(s, writes, foreign).flag == s.flag;
  }

  /** The steps of the environment. */
  predicate IsOutsideStep(step: Step) {
    || step.ChildExits? || step.ChildLeavesGroup? || step.MemberForks? || step.MemberExits?
    || step.PidReissued? || step.StrangerExits?
  }

  lemma OutsideStepLeavesThreads(s: System, step: Step)
    requires Enabled(s, step) && IsOutsideStep(step)
    ensures Apply(s, step) == s.(kernel := Apply(s, step).kernel)
  {
  }

  lemma FlagStepGetsNearer(s: System, step: F.Step)
    requires InsideKillOrDrop(s.owner) && FlagStepAllowed(s, step)
    ensures var t := Apply(s, FlagStep(step));
            && (IsCallerStep(step) ==> StepsToReturn(t) < StepsToReturn(s))
            && (!IsCallerStep(step) ==> StepsToReturn(t) == StepsToReturn(s))
            && (InsideKillOrDrop(t.owner) || KillHasReturned(t.owner))
  {
  }

  /** ... and each one brings the return nearer, while nothing else puts it off. */
  lemma KillGetsNearerToReturning(setup: Setup, s: System, step: Step)
    requires Reachable(setup, s) && InsideKillOrDrop(s.owner) && Enabled(s, step)
    ensures var t := Apply(s, step);
            && (IsOwnerStep(step) ==> StepsToReturn(t) < StepsToReturn(s))
            && (!IsOwnerStep(step) ==> StepsToReturn(t) == StepsToReturn(s))
            && (InsideKillOrDrop(t.owner) || KillHasReturned(t.owner))
  {
    match step
    case OwnerStep(writes, foreign) =>
      ReachableInv(setup, s);
      OwnerStepGetsNearer(s, writes, foreign);
    case FlagStep(f) => FlagStepGetsNearer(s, f);
    case WatchdogStep(writes, foreign) => WatchdogRespectsFrame(s, writes, foreign);
    case _ =>
      if IsOutsideStep(step) {
        OutsideStepLeavesThreads(s, step);
      }
  }
}
