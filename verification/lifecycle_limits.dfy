/** Exactly how far the lifecycle's promises reach: concrete runs at the edges, and what follows. */
module LifecycleLimits {
  import opened Text
  import opened Wrappers
  import opened Lifecycle
  import opened LifecycleSafety
  import F = WatchdogFlag

  const ANY: Step := OwnerStep(false, NotOurs)
  const DOG: Step := WatchdogStep(false, NotOurs)

  lemma Take(from: System, s: System, step: Step) returns (t: System)
    requires Leads(from, s) && Enabled(s, step)
    ensures Leads(from, t) && t == Apply(s, step)
  {
    t := Apply(s, step);
    LeadsToNext(s, step);
    LeadsOn(from, s, t);
  }

  /** `spawn` returns, and a watchdog has been started if the setup wants one. */
  lemma SpawnReturns(setup: Setup) returns (s: System)
    ensures Reachable(setup, s)
    ensures s == Init(setup).(
      pidfd := OpenPidfd(setup, Init(setup).kernel), owner := Ready(Started),
      watchdog := if StartsWatchdog(setup) then Waiting else NotStarted)
  {
    LeadsToItself(Init(setup));
    s := Take(Init(setup), Init(setup), ANY);
    s := Take(Init(setup), s, ANY);
  }

  /** A run in which the deadline passes before anything else happens. */
  lemma DeadlinePasses(setup: Setup) returns (s: System)
    requires StartsWatchdog(setup)
    ensures Reachable(setup, s)
    ensures s == Init(setup).(
      pidfd := OpenPidfd(setup, Init(setup).kernel), owner := Ready(Started), watchdog := Storing,
      flag := F.Init(setup.timeout).(now := setup.timeout + 1, waiter := F.Decided(false, 0, setup.timeout + 1)))
  {
    s := SpawnReturns(setup);
    s := Take(Init(setup), s, FlagStep(F.Enter));
    s := Take(Init(setup), s, FlagStep(F.Tick(setup.timeout + 1)));
    s := Take(Init(setup), s, FlagStep(F.Check));
    s := Take(Init(setup), s, FlagStep(F.Leave));
    s := Take(Init(setup), s, DOG);
  }

  /** No call is in progress, and the watchdog has decided. */
  ghost predicate Quiet(s: System) {
    && s.owner.Ready?
    && s.flag.callers == map[] && s.flag.holder == F.Nobody && s.flag.waiter.Decided?
  }

  lemma CancelStores(from: System, s: System) returns (t: System)
    requires Leads(from, s) && s.owner.Cancelling? && s.flag.callers == map[] && s.flag.holder == F.Nobody
    ensures Leads(from, t)
    ensures t == s.(flag := s.flag.(cancelled := true, holder := F.ACaller(OWNER), callers := map[OWNER := F.Stored]))
  {
    t := Take(from, s, FlagStep(F.Lock(OWNER)));
    t := Take(from, t, FlagStep(F.Store(OWNER)));
  }

  /** `cancel` runs from start to end with the watchdog out of the way. */
  lemma CancelCompletes(from: System, s: System) returns (t: System)
    requires Leads(from, s) && s.owner.Cancelling? && s.flag.callers == map[] && s.flag.holder == F.Nobody
    requires !s.flag.waiter.Parked?
    ensures Leads(from, t) && t == s.(owner := Continue(s.owner.next), flag := s.flag.(cancelled := true))
  {
    t := CancelStores(from, s);
    t := Take(from, t, FlagStep(F.Unlock(OWNER)));
    t := Take(from, t, FlagStep(F.Notify(OWNER)));
  }

  /** `wait_with_usage` runs from start to end on a child that is not running. */
  lemma WaitCompletes(from: System, s: System) returns (t: System)
    requires Leads(from, s) && Quiet(s)
    requires s.status.Some? || s.kernel.child.Zombie?
    ensures Leads(from, t) && Quiet(t)
    ensures t == TryWaitEffect(s, NotOurs).(owner := Ready(WaitOk), flag := s.flag.(cancelled := true),
                                            killedByTimeout := s.timedOut)
  {
    t := Take(from, s, CallWait);
    t := Take(from, t, ANY);
    t := CancelCompletes(from, t);
    t := Take(from, t, ANY);
  }

  /**
   A child that exits by itself between the watchdog's decision and the owner's load is reported as
   killed by timeout.
   */
  lemma OwnExitIsReported(setup: Setup) returns (s: System)
    requires StartsWatchdog(setup)
    ensures Reachable(setup, s) && s.owner == Ready(WaitOk) && s.killedByTimeout && s.kernel.child == Reaped(ByItself)
  {
    s := DeadlinePasses(setup);
    s := Take(Init(setup), s, ChildExits);
    s := Take(Init(setup), s, DOG);
    s := WaitCompletes(Init(setup), s);
  }

  /**
   What a report of a timeout says about the cause of death, exactly: it names the killer in every
   run if and only if there is no watchdog.
   */
  lemma ReportNamesTheKiller(setup: Setup)
    ensures (forall s :: Reachable(setup, s) && s.owner == Ready(WaitOk) && s.kernel.child.Reaped? ==>
               (s.killedByTimeout <==> IsWatchdogKill(s.kernel.child.cause)))
            <==> !StartsWatchdog(setup)
  {
    if StartsWatchdog(setup) {
      var s := OwnExitIsReported(setup);
    } else {
      forall s | Reachable(setup, s) && s.kernel.child.Reaped?
        ensures s.killedByTimeout <==> IsWatchdogKill(s.kernel.child.cause)
      {
        NoWatchdogNeverFires(setup, s);
      }
    }
  }

  /** The watchdog sets the atomic between two calls of `wait_with_usage` on a child that exited by itself. */
  lemma SecondWaitReports(setup: Setup) returns (s: System, t: System)
    requires StartsWatchdog(setup)
    ensures Reachable(setup, s) && s.owner == Ready(WaitOk) && !s.killedByTimeout
    ensures Leads(s, t) && t.owner == Ready(WaitOk) && t.killedByTimeout
  {
    s := DeadlinePasses(setup);
    s := Take(Init(setup), s, ChildExits);
    s := WaitCompletes(Init(setup), s);
    LeadsToItself(s);
    t := Take(s, s, DOG);
    t := WaitCompletes(s, t);
  }

  /** Any two calls of `wait_with_usage` report the same, if and only if there is no watchdog. */
  lemma WaitsAgree(setup: Setup)
    ensures (forall s, t :: Reachable(setup, s) && Leads(s, t)
                            && s.owner == Ready(WaitOk) && t.owner == Ready(WaitOk) ==>
               s.killedByTimeout == t.killedByTimeout)
            <==> !StartsWatchdog(setup)
  {
    if StartsWatchdog(setup) {
      var s, t := SecondWaitReports(setup);
    } else {
      forall s, t | Reachable(setup, s) && Leads(s, t) ensures s.killedByTimeout == t.killedByTimeout {
        LeadsOn(Init(setup), s, t);
        NoWatchdogNeverFires(setup, s);
        NoWatchdogNeverFires(setup, t);
      }
    }
  }

  /** A run in which the watchdog is about to signal the group by its number. */
  lemma FallsBack(setup: Setup) returns (s: System)
    requires StartsWatchdog(setup) && (setup.pid > I32_MAX || !(setup.pidfdOpens && setup.pidfdSignals))
    ensures Reachable(setup, s)
    ensures s.watchdog == GroupKilling && s.owner == Ready(Started) && s.status == None && s.setup == setup
    ensures s.flag.callers == map[] && s.flag.holder == F.Nobody && s.flag.waiter.Decided?
    ensures s.kernel == Init(setup).kernel
  {
    s := DeadlinePasses(setup);
    s := Take(Init(setup), s, DOG);
    if setup.cgroup {
      s := Take(Init(setup), s, DOG);
    }
    s := Take(Init(setup), s, DOG);
  }

  /** The number is refused, or the child has left the group: the watchdog signals nobody. */
  lemma ChildOutlivesWatchdog(setup: Setup) returns (s: System)
    requires StartsWatchdog(setup) && !KillsForSure(setup)
    ensures Reachable(setup, s) && s.watchdog == Finished(true) && s.kernel.child.Running?
  {
    s := FallsBack(setup);
    if setup.pid <= I32_MAX {
      s := Take(Init(setup), s, ChildLeavesGroup);
    }
    s := Take(Init(setup), s, DOG);
  }

  /**
   Enforcement of the timeout, exactly: a watchdog that has fired has killed the child in every run,
   if and only if there is none, or the number is one that `kill_process` accepts and the pidfd works
   or the child cannot leave its group.
   */
  lemma TimeoutIsEnforcedExactly(setup: Setup)
    ensures (forall s :: Reachable(setup, s) && s.watchdog == Finished(true) ==> !s.kernel.child.Running?)
            <==> !StartsWatchdog(setup) || KillsForSure(setup)
  {
    if !StartsWatchdog(setup) || KillsForSure(setup) {
      forall s | Reachable(setup, s) && s.watchdog == Finished(true) ensures !s.kernel.child.Running? {
        if StartsWatchdog(setup) {
          TimeoutIsEnforced(setup, s);
        } else {
          NoWatchdogNeverFires(setup, s);
        }
      }
    } else {
      var s := ChildOutlivesWatchdog(setup);
    }
  }

  /** The owner reaps a child that has exited by itself. */
  lemma OwnerReaps(from: System, s: System) returns (t: System)
    requires Leads(from, s) && s.owner == Ready(Started) && s.status == None && s.kernel.child.Running?
    ensures Leads(from, t) && t.watchdog == s.watchdog && t.setup == s.setup
    ensures t.kernel == Forget(s.kernel, Child).(child := Reaped(ByItself), reaps := s.kernel.reaps + 1)
  {
    t := Take(from, s, ChildExits);
    t := Take(from, t, CallWait);
    t := Take(from, t, ANY);
  }

  lemma StrangerIsHit(setup: Setup) returns (s: System)
    requires !NeverByNumber(setup)
    ensures Reachable(setup, s) && Stranger(1) in s.kernel.watchdogHits
  {
    s := FallsBack(setup);
    s := OwnerReaps(Init(setup), s);
    s := Take(Init(setup), s, PidReissued(1, true));
    s := Take(Init(setup), s, DOG);
  }

  /**
   PID-reuse safety, exactly: over whole runs no signal of the watchdog or of the owner reaches a
   process other than the child if and only if the watchdog never signals by number.
   */
  lemma SignalsStayOnChild(setup: Setup)
    ensures (forall s :: Reachable(setup, s) ==>
               s.kernel.watchdogHits <= {Child} && s.kernel.ownerHits <= {Child})
            <==> NeverByNumber(setup)
  {
    if NeverByNumber(setup) {
      forall s | Reachable(setup, s)
        ensures s.kernel.watchdogHits <= {Child} && s.kernel.ownerHits <= {Child}
      {
        ReachableInv(setup, s);
      }
    } else {
      var s := StrangerIsHit(setup);
      assert Stranger(1) !in {Child};
    }
  }

  /** A run in which the watchdog has killed the child and reaped it behind the owner's back. */
  lemma WatchdogReaps(setup: Setup) returns (s: System)
    requires !NeverByNumber(setup)
    ensures Reachable(setup, s)
    ensures s.owner == Ready(Started) && s.status == None && s.kernel.child.Reaped? && s.kernel.pidHolder == None
    ensures s.watchdog == Finished(true)
    ensures s.flag.callers == map[] && s.flag.holder == F.Nobody && s.flag.waiter.Decided?
  {
    s := FallsBack(setup);
    s := Take(Init(setup), s, DOG);
    s := Take(Init(setup), s, DOG);
  }

  lemma SiblingIsTakenForTheChild(setup: Setup) returns (s: System)
    requires !NeverByNumber(setup)
    ensures Reachable(setup, s) && s.owner.Polling? && s.kernel.child.Reaped?
    ensures Enabled(s, OwnerStep(false, OursRunning))
    ensures Apply(s, OwnerStep(false, OursRunning)).owner == Ready(Alive(true))
  {
    s := WatchdogReaps(setup);
    s := Take(Init(setup), s, PidReissued(1, false));
    s := Take(Init(setup), s, CallIsAlive);
  }

  /**
   `is_alive` is never wrong about a reaped child, exactly when the watchdog never signals by
   number: the fallback reaps behind the owner's back, and the PID may go to another child.
   */
  lemma IsAliveIsTruthful(setup: Setup)
    ensures (forall s, writes, foreign ::
               Reachable(setup, s) && s.owner.Polling? && s.kernel.child.Reaped?
               && Enabled(s, OwnerStep(writes, foreign)) ==>
                 Apply(s, OwnerStep(writes, foreign)).owner == Ready(Alive(false)))
            <==> NeverByNumber(setup)
  {
    if NeverByNumber(setup) {
      forall s, writes, foreign | Reachable(setup, s) && s.owner.Polling? && s.kernel.child.Reaped?
                                  && Enabled(s, OwnerStep(writes, foreign))
        ensures Apply(s, OwnerStep(writes, foreign)).owner == Ready(Alive(false))
      {
        ReapedIsNeverAlive(setup, s, writes, foreign);
      }
    } else {
      var s := SiblingIsTakenForTheChild(setup);
    }
  }

  /** `kill` finds no child, signals nobody and goes to wait. */
  lemma KillGoesToWait(from: System, s: System) returns (t: System)
    requires Leads(from, s) && s.owner == KillingCgroup(false)
    requires s.status == None && s.kernel.child.Reaped? && s.kernel.pidHolder == None
    ensures Leads(from, t) && t == s.(owner := KillBlocking(false))
  {
    t := Take(from, s, ANY);
    t := Take(from, t, ANY);
    t := Take(from, t, ANY);
  }

  /** The number goes to a sibling between the last two calls of `kill`, which then waits for it. */
  lemma KillWaitsForSibling(setup: Setup) returns (s: System)
    requires !NeverByNumber(setup)
    ensures Reachable(setup, s) && InsideKillOrDrop(s.owner) && !OwnerIsNotStuck(s)
  {
    s := WatchdogReaps(setup);
    s := Take(Init(setup), s, CallKill);
    s := CancelCompletes(Init(setup), s);
    s := KillGoesToWait(Init(setup), s);
    s := Take(Init(setup), s, PidReissued(1, false));
    assert ReleaseMutex(s.flag) == [] && (Legal(s, []) ==> After(s, []) == s);
    assert !Enabled(s, NextOwnerStep(s, true, OursRunning));
  }

  /** `kill` and `drop` never wait for anybody but the child, exactly when the watchdog never signals by number. */
  lemma KillNeverBlocksExactly(setup: Setup)
    ensures (forall s :: Reachable(setup, s) && InsideKillOrDrop(s.owner) ==> OwnerIsNotStuck(s))
            <==> NeverByNumber(setup)
  {
    if NeverByNumber(setup) {
      forall s | Reachable(setup, s) && InsideKillOrDrop(s.owner) ensures OwnerIsNotStuck(s) {
        KillNeverBlocks(setup, s);
      }
    } else {
      var s := KillWaitsForSibling(setup);
    }
  }

  /** A run off the condition below, in which a wait goes on after the watchdog is finished. */
  lemma WaitOutlastsWatchdog(setup: Setup) returns (s: System, foreign: Foreign)
    requires StartsWatchdog(setup) && (setup.pid > I32_MAX || !(setup.pidfdOpens && setup.pidfdSignals))
    ensures Reachable(setup, s) && s.owner.Blocking? && s.watchdog == Finished(true) && !OwnerEnabled(s, foreign)
  {
    foreign := OursRunning;
    if setup.pid > I32_MAX {
      s := FallsBack(setup);
      s := Take(Init(setup), s, DOG);
    } else {
      s := WatchdogReaps(setup);
      s := Take(Init(setup), s, PidReissued(1, false));
    }
    s := Take(Init(setup), s, CallWait);
  }

  /**
   `wait_with_usage` leaves the watchdog running so as not to hang.  A wait can end once the watchdog
   has fired, whatever the kernel answers, if and only if there is no watchdog or it kills through its
   pidfd; else a child with a refused number runs on, or the wait is for a sibling that got the PID.
   */
  lemma WaitEndsAfterTimeoutExactly(setup: Setup)
    ensures (forall s, foreign :: Reachable(setup, s) && s.owner.Blocking? && s.watchdog == Finished(true) ==>
               OwnerEnabled(s, foreign))
            <==> !StartsWatchdog(setup) || (setup.pid <= I32_MAX && setup.pidfdOpens && setup.pidfdSignals)
  {
    if !StartsWatchdog(setup) || (setup.pid <= I32_MAX && setup.pidfdOpens && setup.pidfdSignals) {
      forall s, foreign | Reachable(setup, s) && s.owner.Blocking? && s.watchdog == Finished(true)
        ensures OwnerEnabled(s, foreign)
      {
        ReachableInv(setup, s);
      }
    } else {
      var s, foreign := WaitOutlastsWatchdog(setup);
    }
  }

  // ---------------------------------------------------------------------------
  // What `drop` leaves in the leaf
  // ---------------------------------------------------------------------------

  /** `spawn` has returned and the child has a descendant in the leaf. */
  lemma ChildForks(setup: Setup) returns (s: System)
    requires !LeafIsForChildOnly(setup)
    ensures Reachable(setup, s)
    ensures s == SpawnedWith(setup, Leaf(1, 0))
  {
    s := SpawnReturns(setup);
    s := Take(Init(setup), s, MemberForks);
  }

  function SpawnedWith(setup: Setup, leaf: Leaf): System {
    Init(setup).(
      kernel := Init(setup).kernel.(leaf := leaf),
      pidfd := OpenPidfd(setup, Init(setup).kernel), owner := Ready(Started),
      watchdog := if StartsWatchdog(setup) then Waiting else NotStarted)
  }

  /** `drop` up to its `try_wait`. */
  lemma DropPolls(from: System, s: System) returns (t: System)
    requires Leads(from, s) && s.owner.Ready? && s.flag.callers == map[] && s.flag.holder == F.Nobody
    requires !s.flag.waiter.Parked?
    ensures Leads(from, t) && t == s.(owner := DropPolling, flag := s.flag.(cancelled := true))
  {
    t := Take(from, s, CallDrop);
    t := CancelCompletes(from, t);
  }

  /** The child forks and exits; `drop` finds it exited and writes to no cgroup.kill. */
  lemma DescendantOutlivesDrop(setup: Setup) returns (s: System)
    requires !LeafIsForChildOnly(setup)
    ensures Reachable(setup, s) && s.owner.Dropped? && s.kernel.leaf == Leaf(1, 0)
  {
    s := ChildForks(setup);
    s := Take(Init(setup), s, ChildExits);
    s := DropPolls(Init(setup), s);
    s := Take(Init(setup), s, ANY);
    s := Take(Init(setup), s, ANY);
  }

  /**
   `drop` leaves no leaf, and nothing running in one, in every run, if and only if there is no leaf or
   its pids.max keeps the child from forking.
   */
  lemma DropCleansUpExactly(setup: Setup)
    ensures (forall s :: Reachable(setup, s) && s.owner.Dropped? ==> s.kernel.leaf.NoLeaf?)
            <==> LeafIsForChildOnly(setup)
    ensures (forall s :: Reachable(setup, s) && s.owner.Dropped? ==> LeafIsDead(s.kernel))
            <==> LeafIsForChildOnly(setup)
  {
    if LeafIsForChildOnly(setup) {
      forall s | Reachable(setup, s) && s.owner.Dropped? ensures s.kernel.leaf.NoLeaf? && LeafIsDead(s.kernel) {
        ReachableInv(setup, s);
      }
    } else {
      var s := DescendantOutlivesDrop(setup);
    }
  }

  /** `drop` with a running child, up to its write to cgroup.kill. */
  lemma DropReachesCgroupKill(setup: Setup) returns (s: System)
    requires !LeafIsForChildOnly(setup)
    ensures Reachable(setup, s)
    ensures s == SpawnedWith(setup, Leaf(1, 0)).(
                   owner := KillingCgroup(true), flag := F.Init(setup.timeout).(cancelled := true))
  {
    s := ChildForks(setup);
    s := DropPolls(Init(setup), s);
    s := Take(Init(setup), s, ANY);
    s := CancelCompletes(Init(setup), s);
  }

  /** `drop` writes to cgroup.kill and removes the leaf before the killed descendant has exited. */
  lemma KilledLeafStays(setup: Setup) returns (s: System, step: Step, t: System)
    requires !LeafIsForChildOnly(setup)
    ensures Reachable(setup, s) && WritesCgroupKill(s, step) && Leads(Apply(s, step), t)
    ensures t.owner.Dropped? && t.kernel.leaf == Leaf(0, 1)
  {
    s := DropReachesCgroupKill(setup);
    step := OwnerStep(true, NotOurs);
    LeadsToItself(Apply(s, step));
    t := Take(Apply(s, step), Apply(s, step), ANY);
    t := Take(Apply(s, step), t, ANY);
  }

  /**
   Even a `drop` whose write to cgroup.kill succeeded removes the leaf in every run only under that
   condition: it waits for the child, and for nobody else that it has killed.
   */
  lemma KilledLeafIsRemovedExactly(setup: Setup)
    ensures (forall s, step, t ::
               Reachable(setup, s) && WritesCgroupKill(s, step) && Leads(Apply(s, step), t) && t.owner.Dropped? ==>
                 t.kernel.leaf.NoLeaf?)
            <==> LeafIsForChildOnly(setup)
  {
    if LeafIsForChildOnly(setup) {
      forall s, step, t | Reachable(setup, s) && WritesCgroupKill(s, step) && Leads(Apply(s, step), t)
                          && t.owner.Dropped?
        ensures t.kernel.leaf.NoLeaf?
      {
        StepIsReachable(setup, s, step);
        LaterFacts(setup, Apply(s, step), t);
      }
    } else {
      var s, step, t := KilledLeafStays(setup);
    }
  }
}
