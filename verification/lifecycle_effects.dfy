/** What a call or the watchdog has done by the time it is through, stated on whole runs. */
module LifecycleEffects {
  import opened Text
  import opened Wrappers
  import opened Lifecycle
  import opened LifecycleSafety
  import opened LifecycleLimits
  import F = WatchdogFlag

  // ---------------------------------------------------------------------------
  // A lifecycle run is an interleaving of the flag
  // ---------------------------------------------------------------------------

  function FlagSteps(run: seq<Step>): seq<F.Step> {
    if run == [] then []
    else (if run[0].FlagStep? then [run[0].step] else []) + FlagSteps(run[1..])
  }

  lemma OnlyFlagStepsMoveFlag(s: System, step: Step)
    requires Enabled(s, step)
    ensures if step.FlagStep? then F.Enabled(s.flag, step.step) && Apply(s, step).flag == F.Apply(s.flag, step.step)
            else Apply(s, step).flag == s.flag
  {
    match step
    case OwnerStep(writes, foreign) => FrameOfOwner(s, writes, foreign);
    case WatchdogStep(writes, foreign) => WatchdogRespectsFrame(s, writes, foreign);
    case _ =>
  }

  /** The flag cannot tell a run of the whole system from one of its own interleavings. */
  lemma {:induction false} RunProjectsToFlag(s: System, run: seq<Step>)
    requires Legal(s, run)
    ensures F.Legal(s.flag, FlagSteps(run)) && F.After(s.flag, FlagSteps(run)) == After(s, run).flag
    decreases |run|
  {
    if run != [] {
      OnlyFlagStepsMoveFlag(s, run[0]);
      RunProjectsToFlag(Apply(s, run[0]), run[1..]);
      ProjectsOneMore(s.flag, run[0], FlagSteps(run[1..]));
    }
  }

  lemma ProjectsOneMore(f: F.Flag, step: Step, later: seq<F.Step>)
    requires step.FlagStep? ==> F.Enabled(f, step.step) && F.Legal(F.Apply(f, step.step), later)
    requires !step.FlagStep? ==> F.Legal(f, later)
    ensures var steps := (if step.FlagStep? then [step.step] else []) + later;
            && F.Legal(f, steps)
            && F.After(f, steps) == F.After(if step.FlagStep? then F.Apply(f, step.step) else f, later)
  {
    var steps := (if step.FlagStep? then [step.step] else []) + later;
    assert step.FlagStep? ==> steps[0] == step.step && steps[1..] == later;
    assert !step.FlagStep? ==> steps == later;
  }

  /**
   A watchdog that has fired, and with it every report of a timeout, comes after a call of
   `wait_until_cancelled_or` and after more than the timeout has gone by since that call.
   */
  lemma FiringTakesWholeTimeout(setup: Setup, run: seq<Step>)
    requires Legal(Init(setup), run)
    requires var s := After(Init(setup), run); s.timedOut || s.killedByTimeout
    ensures var steps := FlagSteps(run);
            exists i :: 0 <= i < |steps| && steps[i] == F.Enter && F.Elapsed(steps[i + 1..]) > setup.timeout
  {
    RunKeepsInv(Init(setup), run);
    RunProjectsToFlag(Init(setup), run);
    F.TimeoutFollowsCall(F.Init(setup.timeout), FlagSteps(run));
  }

  // ---------------------------------------------------------------------------
  // What holds at each place of a run
  // ---------------------------------------------------------------------------

  /** Every write that the owner, or the watchdog, makes to cgroup.kill succeeds if the file is there. */
  predicate WritesSucceed(run: seq<Step>, byOwner: bool, byWatchdog: bool) {
    forall step :: step in run ==>
      && (byOwner && step.OwnerStep? ==> step.writes)
      && (byWatchdog && step.WatchdogStep? ==> step.writes)
  }

  /** The places of the owner behind a call of `cancel`. */
  predicate HasCancelled(o: Owner) {
    || o.Loading? || o.KillingCgroup? || o.KillPolling? || o.KillSignalling? || o.KillBlocking?
    || o.DropPolling? || o.RemovingLeaf? || o.Dropped? || o in {Ready(WaitOk), Ready(Killed)}
  }

  /** The places of the owner behind `kill`'s write to cgroup.kill. */
  predicate HasKilledLeaf(o: Owner) {
    o.KillPolling? || o.KillSignalling? || o.KillBlocking? || o == Ready(Killed)
  }

  /** The places of the watchdog behind its write to cgroup.kill. */
  predicate WatchdogHasKilledLeaf(w: Watchdog) {
    w in {Signalling, GroupKilling, Reaping, Finished(true)}
  }

  ghost predicate Effects(s: System, byOwner: bool, byWatchdog: bool) {
    && (s.setup.cgroup && s.kernel.leaf.NoLeaf? ==> !s.kernel.child.Running?)
    && (byOwner && s.setup.cgroup && HasKilledLeaf(s.owner) ==> LeafIsDead(s.kernel))
    && (byWatchdog && s.setup.cgroup && WatchdogHasKilledLeaf(s.watchdog) ==> LeafIsDead(s.kernel))
    && (HasCancelled(s.owner) ==> s.flag.cancelled)
    && (NeverByNumber(s.setup) ==> s.owner != Ready(WaitErr))
    && (s.watchdog.NotStarted? <==>
          s.owner.OpeningPidfd? || s.owner.StartingWatchdog? || s.setup.timeout == 0 || s.setup.pid == 0)
  }

  lemma WaitKeepsEffects(s: System, foreign: Foreign, byOwner: bool, byWatchdog: bool)
    requires Inv(s) && Effects(s, byOwner, byWatchdog) && WaitsForChild(s.owner) && OwnerEnabled(s, foreign)
    requires Follows(s, OwnerNext(s, false, foreign))
    ensures Effects(OwnerNext(s, false, foreign), byOwner, byWatchdog)
  {
  }

  lemma ActKeepsEffects(s: System, writes: bool, byOwner: bool, byWatchdog: bool)
    requires Inv(s) && Effects(s, byOwner, byWatchdog) && OwnerEnabled(s, NotOurs) && !WaitsForChild(s.owner)
    requires byOwner ==> writes
    requires Follows(s, OwnerActs(s, writes))
    ensures Effects(OwnerActs(s, writes), byOwner, byWatchdog)
  {
  }

  lemma WatchdogKeepsEffects(s: System, writes: bool, foreign: Foreign, byOwner: bool, byWatchdog: bool)
    requires Inv(s) && Effects(s, byOwner, byWatchdog) && WatchdogEnabled(s)
    requires byWatchdog ==> writes
    requires Follows(s, WatchdogNext(s, writes, foreign))
    ensures Effects(WatchdogNext(s, writes, foreign), byOwner, byWatchdog)
  {
  }

  lemma FlagKeepsEffects(s: System, step: F.Step, byOwner: bool, byWatchdog: bool)
    requires Inv(s) && Effects(s, byOwner, byWatchdog) && FlagStepAllowed(s, step)
    requires Follows(s, Apply(s, FlagStep(step)))
    ensures Effects(Apply(s, FlagStep(step)), byOwner, byWatchdog)
  {
  }

  lemma StepKeepsEffects(s: System, step: Step, byOwner: bool, byWatchdog: bool)
    requires Inv(s) && Effects(s, byOwner, byWatchdog) && Enabled(s, step)
    requires WritesSucceed([step], byOwner, byWatchdog)
    ensures Effects(Apply(s, step), byOwner, byWatchdog)
  {
    assert step in [step];
    StepKeepsFacts(s, step);
    match step
    case OwnerStep(writes, foreign) =>
      if WaitsForChild(s.owner) {
        WaitKeepsEffects(s, foreign, byOwner, byWatchdog);
      } else {
        ActKeepsEffects(s, writes, byOwner, byWatchdog);
      }
    case WatchdogStep(writes, foreign) => WatchdogKeepsEffects(s, writes, foreign, byOwner, byWatchdog);
    case FlagStep(f) => FlagKeepsEffects(s, f, byOwner, byWatchdog);
    case _ =>
  }

  lemma {:induction false} RunKeepsEffects(s: System, run: seq<Step>, byOwner: bool, byWatchdog: bool)
    requires Inv(s) && Effects(s, byOwner, byWatchdog) && Legal(s, run)
    requires WritesSucceed(run, byOwner, byWatchdog)
    ensures Effects(After(s, run), byOwner, byWatchdog)
    decreases |run|
  {
    if run != [] {
      StepKeepsEffects(s, run[0], byOwner, byWatchdog);
      StepKeepsInv(s, run[0]);
      RunKeepsEffects(Apply(s, run[0]), run[1..], byOwner, byWatchdog);
    }
  }

  lemma EffectsOfRun(setup: Setup, run: seq<Step>, byOwner: bool, byWatchdog: bool)
    requires Legal(Init(setup), run) && WritesSucceed(run, byOwner, byWatchdog)
    ensures Inv(After(Init(setup), run)) && Effects(After(Init(setup), run), byOwner, byWatchdog)
    ensures After(Init(setup), run).setup == setup
  {
    RunKeepsInv(Init(setup), run);
    RunKeepsFacts(Init(setup), run);
    RunKeepsEffects(Init(setup), run, byOwner, byWatchdog);
  }

  // ---------------------------------------------------------------------------
  // The watchdog
  // ---------------------------------------------------------------------------

  /** Once `spawn` has returned there is a watchdog, exactly if neither timeout nor PID is zero. */
  lemma WatchdogIsStarted(setup: Setup, s: System)
    requires Reachable(setup, s) && !s.owner.OpeningPidfd? && !s.owner.StartingWatchdog?
    ensures s.watchdog != NotStarted <==> setup.timeout > 0 && setup.pid != 0
  {
    var run :| Legal(Init(setup), run) && After(Init(setup), run) == s;
    EffectsOfRun(setup, run, false, false);
  }

  /** A watchdog that has fired has killed everything in the leaf, if its write to cgroup.kill succeeded. */
  lemma FiredWatchdogKillsLeaf(setup: Setup, run: seq<Step>)
    requires setup.cgroup && Legal(Init(setup), run) && WritesSucceed(run, false, true)
    requires After(Init(setup), run).watchdog == Finished(true)
    ensures LeafIsDead(After(Init(setup), run).kernel)
  {
    EffectsOfRun(setup, run, false, true);
  }

  /** The child forks, and the watchdog's write to cgroup.kill fails: the descendant runs on. */
  lemma DescendantOutlivesWatchdog(setup: Setup) returns (s: System)
    requires StartsWatchdog(setup) && !LeafIsForChildOnly(setup)
    ensures Reachable(setup, s) && s.watchdog == Finished(true) && s.kernel.leaf == Leaf(1, 0)
  {
    s := DeadlinePasses(setup);
    s := Take(Init(setup), s, MemberForks);
    s := Take(Init(setup), s, DOG);
    s := Take(Init(setup), s, DOG);
    s := SignalsChild(Init(setup), s);
  }

  /** From the write to cgroup.kill to the end, by whichever route. */
  lemma SignalsChild(from: System, s: System) returns (t: System)
    requires Leads(from, s) && s.watchdog == Signalling && s.kernel.group == {Child}
    ensures Leads(from, t) && t.watchdog == Finished(true) && t.kernel.leaf == s.kernel.leaf
  {
    t := Take(from, s, DOG);
    if t.watchdog.GroupKilling? {
      t := Take(from, t, DOG);
      if t.watchdog.Reaping? {
        t := Take(from, t, DOG);
      }
    }
  }

  /**
   Where writes may fail, a fired watchdog leaves nothing of the sandbox running in every run, if and
   only if there is no watchdog, or the kill of the child is sure and nobody else is in the leaf.
   */
  lemma FiredWatchdogKillsAllExactly(setup: Setup)
    ensures (forall s :: Reachable(setup, s) && s.watchdog == Finished(true) ==> LeafIsDead(s.kernel))
            <==> setup.timeout == 0 || setup.pid == 0 || (KillsForSure(setup) && LeafIsForChildOnly(setup))
  {
    if !StartsWatchdog(setup) || (KillsForSure(setup) && LeafIsForChildOnly(setup)) {
      forall s | Reachable(setup, s) && s.watchdog == Finished(true) ensures LeafIsDead(s.kernel) {
        ReachableInv(setup, s);
      }
    } else if !KillsForSure(setup) {
      var s := ChildOutlivesWatchdog(setup);
    } else {
      var s := DescendantOutlivesWatchdog(setup);
    }
  }

  // ---------------------------------------------------------------------------
  // The owner
  // ---------------------------------------------------------------------------

  /** When `kill`, `drop` or a successful `wait_with_usage` has returned, the watchdog has been cancelled. */
  lemma ReturnedCallHasCancelled(setup: Setup, s: System)
    requires Reachable(setup, s) && (s.owner in {Ready(WaitOk), Ready(Killed)} || s.owner.Dropped?)
    ensures s.flag.cancelled
  {
    var run :| Legal(Init(setup), run) && After(Init(setup), run) == s;
    EffectsOfRun(setup, run, false, false);
  }

  /** When `kill` has returned and its write to cgroup.kill succeeded, nothing in the leaf runs. */
  lemma ReturnedKillHasKilledLeaf(setup: Setup, run: seq<Step>)
    requires Legal(Init(setup), run) && WritesSucceed(run, true, false)
    requires After(Init(setup), run).owner == Ready(Killed)
    ensures LeafIsDead(After(Init(setup), run).kernel)
  {
    EffectsOfRun(setup, run, true, false);
  }

  /** A poll on a child that nobody has reaped answers whether it runs, and reaps it if it does not. */
  lemma PollAnswersTruly(setup: Setup, s: System, writes: bool, foreign: Foreign)
    requires Reachable(setup, s) && s.owner.Polling? && !s.kernel.child.Reaped?
    ensures Enabled(s, OwnerStep(writes, foreign))
    ensures var t := Apply(s, OwnerStep(writes, foreign));
            && t.owner == Ready(Alive(s.kernel.child.Running?))
            && (t.kernel.child.Reaped? <==> !s.kernel.child.Running?)
            && t.flag == s.flag
  {
    ReachableInv(setup, s);
  }

  /** `drop` goes on to kill exactly if it finds the child running; its poll kills nobody. */
  lemma DropKillsOnlyRunning(setup: Setup, s: System, writes: bool, foreign: Foreign)
    requires Reachable(setup, s) && s.owner.DropPolling? && !s.kernel.child.Reaped?
    ensures Enabled(s, OwnerStep(writes, foreign))
    ensures var t := Apply(s, OwnerStep(writes, foreign));
            && (s.kernel.child.Running? ==> t.owner == Cancelling(ThenKill(true)) && t.kernel == s.kernel)
            && (!s.kernel.child.Running? ==> t.owner == RemovingLeaf && t.kernel.leaf == s.kernel.leaf)
  {
    ReachableInv(setup, s);
  }

  lemma WaitFails(setup: Setup) returns (s: System)
    requires !NeverByNumber(setup)
    ensures Reachable(setup, s) && s.owner == Ready(WaitErr)
  {
    s := WatchdogReaps(setup);
    s := Take(Init(setup), s, CallWait);
    s := Take(Init(setup), s, ANY);
  }

  /** `wait_with_usage` never fails for want of a child, exactly when the watchdog never signals by number. */
  lemma WaitFailsExactly(setup: Setup)
    ensures (forall s :: Reachable(setup, s) ==> s.owner != Ready(WaitErr)) <==> NeverByNumber(setup)
  {
    if NeverByNumber(setup) {
      forall s | Reachable(setup, s) ensures s.owner != Ready(WaitErr) {
        var run :| Legal(Init(setup), run) && After(Init(setup), run) == s;
        EffectsOfRun(setup, run, false, false);
      }
    } else {
      var s := WaitFails(setup);
    }
  }

  // ---------------------------------------------------------------------------
  // Who cancels, and when
  // ---------------------------------------------------------------------------

  predicate NeverKills(run: seq<Step>) {
    CallKill !in run && CallDrop !in run
  }

  /** Without `kill` and `drop`, `cancel` is reached through a wait that has its status, and not otherwise. */
  ghost predicate CancelsLate(s: System) {
    && !InsideKillOrDrop(s.owner) && !KillHasReturned(s.owner)
    && (s.owner.Cancelling? || s.owner.Loading? || s.flag.cancelled ==> s.kernel.child.Reaped?)
    && (s.owner.Cancelling? ==> s.owner.next == ThenLoad)
  }

  lemma StepCancelsLate(s: System, step: Step)
    requires Inv(s) && CancelsLate(s) && Enabled(s, step) && step != CallKill && step != CallDrop
    ensures CancelsLate(Apply(s, step))
  {
    StepKeepsFacts(s, step);
    OnlyFlagStepsMoveFlag(s, step);
    match step
    case WatchdogStep(writes, foreign) => WatchdogRespectsFrame(s, writes, foreign);
    case _ =>
  }

  lemma {:induction false} RunCancelsLate(s: System, run: seq<Step>)
    requires Inv(s) && CancelsLate(s) && Legal(s, run) && NeverKills(run)
    ensures CancelsLate(After(s, run))
    decreases |run|
  {
    if run != [] {
      assert run[0] in run;
      StepCancelsLate(s, run[0]);
      StepKeepsInv(s, run[0]);
      RunCancelsLate(Apply(s, run[0]), run[1..]);
    }
  }

  /**
   The watchdog is not cancelled before a wait has completed: as long as nobody has called `kill` or
   `drop`, the flag is set only when the child has been reaped.
   */
  lemma WaitNeverCancelsEarly(setup: Setup, run: seq<Step>)
    requires Legal(Init(setup), run) && NeverKills(run)
    ensures After(Init(setup), run).flag.cancelled ==> After(Init(setup), run).kernel.child.Reaped?
  {
    RunCancelsLate(Init(setup), run);
  }

  /** The owner has called nothing but `is_alive`. */
  ghost predicate OnlyPolls(s: System) {
    && (s.owner.OpeningPidfd? || s.owner.StartingWatchdog? || s.owner.Ready? || s.owner.Polling?)
    && !s.flag.cancelled && s.flag.callers == map[] && !s.killedByTimeout
  }

  lemma StepOnlyPolls(s: System, step: Step)
    requires Inv(s) && OnlyPolls(s) && Enabled(s, step) && step !in [CallWait, CallKill, CallDrop]
    ensures OnlyPolls(Apply(s, step))
  {
    OnlyFlagStepsMoveFlag(s, step);
    match step
    case WatchdogStep(writes, foreign) => WatchdogRespectsFrame(s, writes, foreign);
    case _ =>
  }

  lemma {:induction false} RunOnlyPolls(s: System, run: seq<Step>)
    requires Inv(s) && OnlyPolls(s) && Legal(s, run) && NeverKills(run) && CallWait !in run
    ensures OnlyPolls(After(s, run))
    decreases |run|
  {
    if run != [] {
      assert run[0] in run;
      StepOnlyPolls(s, run[0]);
      StepKeepsInv(s, run[0]);
      RunOnlyPolls(Apply(s, run[0]), run[1..]);
    }
  }

  /** `is_alive` never cancels the watchdog and never reports a timeout. */
  lemma PollingNeverCancels(setup: Setup, run: seq<Step>)
    requires Legal(Init(setup), run) && NeverKills(run) && CallWait !in run
    ensures !After(Init(setup), run).flag.cancelled && !After(Init(setup), run).killedByTimeout
  {
    RunOnlyPolls(Init(setup), run);
  }
}
