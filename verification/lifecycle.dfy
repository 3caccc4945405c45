/**
 One sandboxed process from the moment `spawn` has a running child: the owner thread inside
 `spawn`'s tail, `is_alive`, `wait_with_usage`, `kill` and `drop`, the watchdog thread, the child,
 and a kernel that may give the child's PID to another process once the child has been reaped.
 Every system call, atomic access and lock operation is one step; a label fixes everything the
 environment chooses, so a run is a sequence of labels.
 */
module Lifecycle {
  import opened Text
  import opened Wrappers
  import F = WatchdogFlag

  /** The canceller that the owner thread is. */
  const OWNER: nat := 0

  /** What is fixed before the run: arguments, and which kernel facilities work. */
  datatype Setup = Setup(
    pid: nat,
    timeout: nat,        // timeout_seconds
    cgroup: bool,        // a cgroup leaf is attached
    maxProcesses: nat,   // what the leaf's pids.max says
    pidfdOpens: bool,    // pidfd_open and the close-on-exec fcntl succeed
    pidfdSignals: bool,  // pidfd_send_signal is not blocked
    leavesGroup: bool)   // the child may change its process group: the seccomp filter, which allows
                         // neither setpgid nor setsid, is not installed

  datatype Who = Child | Stranger(id: nat)

  datatype Cause = ByItself | ByOwner | ByWatchdogCgroup | ByWatchdogSignal

  datatype ChildState = Running | Zombie(cause: Cause) | Reaped(cause: Cause)

  /**
   The cgroup directory.  Besides the child there may be its descendants: those that run, and those
   that `cgroup.kill` has reached and that have not exited yet.
   */
  datatype Leaf = NoLeaf | Leaf(members: nat, doomed: nat)

  datatype Kernel = Kernel(
    child: ChildState,
    pidHolder: Option<Who>,   // which process the PID number names now
    group: set<Who>,          // the process group with that number
    leaf: Leaf,
    reaps: nat,               // successful waits for the child so far
    watchdogHits: set<Who>,   // who has been signalled by the watchdog so far
    ownerHits: set<Who>)      // who has been signalled by the owner so far

  datatype Watchdog =
    | NotStarted
    | Waiting        // in wait_until_cancelled_or
    | Storing        // about to store `true` to timed_out
    | CgroupKilling  // about to write cgroup.kill
    | Signalling     // about to signal
    | GroupKilling   // in kill_process, about to kill the process group
    | Reaping        // in kill_process, about to call waitpid with WNOHANG
    | Finished(fired: bool)

  datatype Answer = Started | Alive(alive: bool) | WaitOk | WaitErr | Killed

  datatype Continuation = ThenKill(dropping: bool) | ThenLoad | ThenTryWait

  datatype Owner =
    | OpeningPidfd                   // spawn: about to call open_pidfd
    | StartingWatchdog               // spawn: about to start the watchdog
    | Ready(last: Answer)            // between calls
    | Polling                        // is_alive: about to call try_wait
    | Blocking                       // wait_with_usage: in child.wait()
    | Cancelling(next: Continuation) // inside WatchdogCancel::cancel
    | Loading                        // wait_with_usage: about to load timed_out
    | KillingCgroup(dropping: bool)  // kill: about to write cgroup.kill
    | KillPolling(dropping: bool)    // kill: about to call try_wait
    | KillSignalling(dropping: bool) // kill: about to call child.kill()
    | KillBlocking(dropping: bool)   // kill: in child.wait()
    | DropPolling                    // drop: about to call try_wait
    | RemovingLeaf                   // drop: the fields are dropped, the leaf directory goes
    | Dropped

  datatype System = System(
    setup: Setup,
    kernel: Kernel,
    flag: F.Flag,
    watchdog: Watchdog,
    timedOut: bool,          // the shared atomic
    owner: Owner,
    pidfd: Option<Who>,      // which process the watchdog's pidfd names
    status: Option<Cause>,   // the exit status the child handle caches
    killedByTimeout: bool)

  /** What `waitpid` finds when the PID has gone to another process. */
  datatype Foreign = NotOurs | OursRunning | OursExited

  datatype Step =
    | CallIsAlive
    | CallWait
    | CallKill
    | CallDrop
    | OwnerStep(writes: bool, foreign: Foreign)
    | WatchdogStep(writes: bool, foreign: Foreign)
    | FlagStep(step: F.Step)
    | ChildExits
    | ChildLeavesGroup
    | MemberForks              // the child, or a descendant of it in the leaf
    | MemberExits(doomed: bool)
    | PidReissued(id: nat, leads: bool)
    | StrangerExits

  // ---------------------------------------------------------------------------
  // Kernel
  // ---------------------------------------------------------------------------

  datatype WaitResult = Status(cause: Cause) | StillRunning | NoChild

  /** SIGKILL, or a write to cgroup.kill, reaches the child. */
  function Die(c: ChildState, cause: Cause): ChildState {
    if c.Running? then Zombie(cause) else c
  }

  function Forget(k: Kernel, who: Who): Kernel {
    k.(pidHolder := None, group := k.group - {who})
  }

  /** What `waitpid` on the PID number answers, as far as it can go without blocking. */
  function WaitAnswer(k: Kernel, foreign: Foreign): WaitResult {
    match k.child
    case Running => StillRunning
    case Zombie(cause) => Status(cause)
    case Reaped(_) =>
      if k.pidHolder.None? || foreign.NotOurs? then NoChild
      else if foreign.OursRunning? then StillRunning
      else Status(ByItself)
  }

  /** The kernel after that `waitpid`: the process whose status it answers is reaped. */
  function WaitEffect(k: Kernel, foreign: Foreign): Kernel {
    match k.child
    case Running => k
    case Zombie(cause) => Forget(k, Child).(child := Reaped(cause), reaps := k.reaps + 1)
    case Reaped(_) =>
      if k.pidHolder.Some? && foreign.OursExited? then Forget(k, k.pidHolder.value) else k
  }

  /** `kill(pid, SIGKILL)` by the owner. */
  function SignalPid(k: Kernel): Kernel {
    match k.pidHolder
    case None => k
    case Some(Child) => k.(child := Die(k.child, ByOwner), ownerHits := k.ownerHits + {Child})
    case Some(who) => k.(ownerHits := k.ownerHits + {who})
  }

  /** `kill(-pid, SIGKILL)` by the watchdog, for a group that is not empty. */
  function SignalGroup(k: Kernel): Kernel {
    k.(child := if Child in k.group then Die(k.child, ByWatchdogSignal) else k.child,
       watchdogHits := k.watchdogHits + k.group)
  }

  /** A write to cgroup.kill, if the file is there: everything in the leaf gets SIGKILL. */
  function KillLeaf(k: Kernel, cause: Cause): Kernel {
    match k.leaf
    case NoLeaf => k
    case Leaf(members, doomed) => k.(child := Die(k.child, cause), leaf := Leaf(0, members + doomed))
  }

  /** The processes that count against pids.max; the child counts until it is reaped. */
  function Charged(k: Kernel): nat {
    (if k.child.Reaped? then 0 else 1) + (if k.leaf.Leaf? then k.leaf.members + k.leaf.doomed else 0)
  }

  /** `remove_dir` on the leaf, which the kernel refuses while a process in it has not exited. */
  function RemoveLeaf(k: Kernel): Kernel {
    if k.leaf == Leaf(0, 0) && !k.child.Running? then k.(leaf := NoLeaf) else k
  }

  /** `pidfd_send_signal` by the watchdog; a process that has been reaped gives ESRCH. */
  function SignalPidfd(k: Kernel, target: Who): Kernel {
    match target
    case Child =>
      if k.child.Reaped? then k
      else k.(child := Die(k.child, ByWatchdogSignal), watchdogHits := k.watchdogHits + {Child})
    case Stranger(_) => k.(watchdogHits := k.watchdogHits + {target})
  }

  // ---------------------------------------------------------------------------
  // The child handle of the standard library
  // ---------------------------------------------------------------------------

  /** The answer of `try_wait`: the cached status, or that of one `waitpid`. */
  function TryWaitAnswer(s: System, foreign: Foreign): WaitResult {
    if s.status.Some? then Status(s.status.value) else WaitAnswer(s.kernel, foreign)
  }

  /** After `try_wait`: a status that `waitpid` answered is cached. */
  function TryWaitEffect(s: System, foreign: Foreign): System {
    if s.status.Some? then s
    else
      var answer := WaitAnswer(s.kernel, foreign);
      s.(kernel := WaitEffect(s.kernel, foreign),
         status := if answer.Status? then Some(answer.cause) else None)
  }

  /** `Child::kill`: nothing once a status is cached, else a signal to the PID. */
  function ChildKill(s: System): Kernel {
    if s.status.Some? then s.kernel else SignalPid(s.kernel)
  }

  // ---------------------------------------------------------------------------
  // Owner
  // ---------------------------------------------------------------------------

  function OpenPidfd(setup: Setup, k: Kernel): Option<Who> {
    if setup.pid == 0 || setup.pid > I32_MAX || !setup.pidfdOpens then None else k.pidHolder
  }

  predicate StartsWatchdog(setup: Setup) {
    setup.timeout > 0 && setup.pid != 0
  }

  /** Where the owner goes when `cancel` returns. */
  function Continue(next: Continuation): Owner {
    match next
    case ThenKill(dropping) => KillingCgroup(dropping)
    case ThenLoad => Loading
    case ThenTryWait => DropPolling
  }

  /** `kill` returns to its caller, which is `drop` or the user. */
  function KillReturns(dropping: bool): Owner {
    if dropping then RemovingLeaf else Ready(Killed)
  }

  /** The places where the owner waits for the child, blocking or not. */
  predicate WaitsForChild(o: Owner) {
    o.Polling? || o.Blocking? || o.KillPolling? || o.KillBlocking? || o.DropPolling?
  }

  /** What the owner does with the answer. */
  function AfterWait(o: Owner, answer: WaitResult): Owner
    requires WaitsForChild(o)
  {
    match o
    case Polling => Ready(Alive(answer.StillRunning?))
    case Blocking => if answer.NoChild? then Ready(WaitErr) else Cancelling(ThenLoad)
    case KillPolling(dropping) =>
      if answer.Status? then KillReturns(dropping) else KillSignalling(dropping)
    case KillBlocking(dropping) => KillReturns(dropping)
    case DropPolling => if answer.Status? then RemovingLeaf else Cancelling(ThenKill(true))
  }

  predicate OwnerEnabled(s: System, foreign: Foreign) {
    && !s.owner.Ready? && !s.owner.Cancelling? && !s.owner.Dropped?
    && (s.owner.Blocking? || s.owner.KillBlocking? ==> !TryWaitAnswer(s, foreign).StillRunning?)
  }

  function OwnerNext(s: System, writes: bool, foreign: Foreign): System
    requires OwnerEnabled(s, foreign)
  {
    if WaitsForChild(s.owner) then
      TryWaitEffect(s, foreign).(owner := AfterWait(s.owner, TryWaitAnswer(s, foreign)))
    else
      OwnerActs(s, writes)
  }

  function OwnerActs(s: System, writes: bool): System
    requires !s.owner.Ready? && !s.owner.Cancelling? && !s.owner.Dropped? && !WaitsForChild(s.owner)
  {
    match s.owner
    case OpeningPidfd => s.(pidfd := OpenPidfd(s.setup, s.kernel), owner := StartingWatchdog)
    case StartingWatchdog =>
      s.(watchdog := if StartsWatchdog(s.setup) then Waiting else NotStarted, owner := Ready(Started))
    case Loading => s.(killedByTimeout := s.timedOut, owner := Ready(WaitOk))
    case KillingCgroup(dropping) =>
      s.(kernel := if s.setup.cgroup && writes then KillLeaf(s.kernel, ByOwner) else s.kernel,
         owner := KillPolling(dropping))
    case KillSignalling(dropping) => s.(kernel := ChildKill(s), owner := KillBlocking(dropping))
    case RemovingLeaf => s.(kernel := RemoveLeaf(s.kernel), owner := Dropped)
  }

  // ---------------------------------------------------------------------------
  // Watchdog
  // ---------------------------------------------------------------------------

  predicate WatchdogEnabled(s: System) {
    match s.watchdog
    case NotStarted => false
    case Waiting => s.flag.waiter.Decided?
    case Finished(_) => false
    case _ => true
  }

  function WatchdogNext(s: System, writes: bool, foreign: Foreign): System
    requires WatchdogEnabled(s)
  {
    match s.watchdog
    case Waiting => s.(watchdog := if s.flag.waiter.cancelled then Finished(false) else Storing)
    case Storing =>
      s.(timedOut := true, watchdog := if s.setup.cgroup then CgroupKilling else Signalling)
    case CgroupKilling =>
      s.(kernel := if writes then KillLeaf(s.kernel, ByWatchdogCgroup) else s.kernel, watchdog := Signalling)
    case Signalling =>
      if s.pidfd.Some? && s.setup.pidfdSignals then
        s.(kernel := SignalPidfd(s.kernel, s.pidfd.value), watchdog := Finished(true))
      else s.(watchdog := GroupKilling)
    case GroupKilling =>
      if s.setup.pid == 0 || s.setup.pid > I32_MAX || s.kernel.group == {} then
        s.(watchdog := Finished(true))
      else s.(kernel := SignalGroup(s.kernel), watchdog := Reaping)
    case Reaping => s.(kernel := WaitEffect(s.kernel, foreign), watchdog := Finished(true))
  }

  // ---------------------------------------------------------------------------
  // The whole system
  // ---------------------------------------------------------------------------

  predicate IsCallerStep(step: F.Step) {
    step.Lock? || step.Store? || step.Unlock? || step.Notify?
  }

  /** The owner takes `cancel`'s steps, the watchdog the waiter's, and the clock ticks by itself. */
  predicate FlagStepAllowed(s: System, step: F.Step) {
    && F.Enabled(s.flag, step)
    && (IsCallerStep(step) ==> s.owner.Cancelling? && step.id == OWNER)
    && (F.IsWaiterStep(step) ==> s.watchdog == Waiting)
  }

  predicate Enabled(s: System, step: Step) {
    match step
    case CallIsAlive => s.owner.Ready?
    case CallWait => s.owner.Ready?
    case CallKill => s.owner.Ready?
    case CallDrop => s.owner.Ready?
    case OwnerStep(_, foreign) => OwnerEnabled(s, foreign)
    case WatchdogStep(_, _) => WatchdogEnabled(s)
    case FlagStep(f) => FlagStepAllowed(s, f)
    case ChildExits => s.kernel.child.Running?
    case ChildLeavesGroup => s.setup.leavesGroup && s.kernel.child.Running?
    case MemberForks =>
      && s.kernel.leaf.Leaf? && (s.kernel.child.Running? || s.kernel.leaf.members > 0)
      && Charged(s.kernel) < s.setup.maxProcesses
    case MemberExits(doomed) =>
      s.kernel.leaf.Leaf? && (if doomed then s.kernel.leaf.doomed else s.kernel.leaf.members) > 0
    case PidReissued(_, _) => s.kernel.pidHolder == None
    case StrangerExits => s.kernel.pidHolder.Some? && s.kernel.pidHolder.value.Stranger?
  }

  function Apply(s: System, step: Step): System
    requires Enabled(s, step)
  {
    match step
    case CallIsAlive => s.(owner := Polling)
    case CallWait => s.(owner := Blocking)
    case CallKill => s.(owner := Cancelling(ThenKill(false)))
    case CallDrop => s.(owner := Cancelling(ThenTryWait))
    case OwnerStep(writes, foreign) => OwnerNext(s, writes, foreign)
    case WatchdogStep(writes, foreign) => WatchdogNext(s, writes, foreign)
    case FlagStep(f) =>
      var t := s.(flag := F.Apply(s.flag, f));
      if f.Notify? then t.(owner := Continue(s.owner.next)) else t
    case ChildExits => s.(kernel := s.kernel.(child := Die(s.kernel.child, ByItself)))
    case ChildLeavesGroup => s.(kernel := s.kernel.(group := s.kernel.group - {Child}))
    case MemberForks =>
      s.(kernel := s.kernel.(leaf := s.kernel.leaf.(members := s.kernel.leaf.members + 1)))
    case MemberExits(doomed) =>
      var leaf := if doomed then s.kernel.leaf.(doomed := s.kernel.leaf.doomed - 1)
                  else s.kernel.leaf.(members := s.kernel.leaf.members - 1);
      s.(kernel := s.kernel.(leaf := leaf))
    case PidReissued(id, leads) =>
      s.(kernel := s.kernel.(pidHolder := Some(Stranger(id)),
                             group := s.kernel.group + if leads then {Stranger(id)} else {}))
    case StrangerExits => s.(kernel := Forget(s.kernel, s.kernel.pidHolder.value))
  }

  /** The child has just been started and, if there is a cgroup, attached. */
  function Init(setup: Setup): System {
    var leaf := if setup.cgroup then Leaf(0, 0) else NoLeaf;
    System(setup, Kernel(Running, Some(Child), {Child}, leaf, 0, {}, {}), F.Init(setup.timeout), NotStarted,
           false, OpeningPidfd, None, None, false)
  }

  ghost predicate Legal(s: System, run: seq<Step>)
    decreases |run|
  {
    run != [] ==> Enabled(s, run[0]) && Legal(Apply(s, run[0]), run[1..])
  }

  ghost function After(s: System, run: seq<Step>): System
    requires Legal(s, run)
    decreases |run|
  {
    if run == [] then s else After(Apply(s, run[0]), run[1..])
  }

  /** Some run goes from `s` to `t`. */
  ghost predicate Leads(s: System, t: System) {
    exists run :: Legal(s, run) && After(s, run) == t
  }

  /** `s` is the state after some run from the start. */
  ghost predicate Reachable(setup: Setup, s: System) {
    Leads(Init(setup), s)
  }

  lemma {:induction false} RunsCompose(s: System, past: seq<Step>, future: seq<Step>)
    requires Legal(s, past) && Legal(After(s, past), future)
    ensures Legal(s, past + future) && After(s, past + future) == After(After(s, past), future)
    decreases |past|
  {
    if past == [] {
      assert past + future == future;
    } else {
      RunsCompose(Apply(s, past[0]), past[1..], future);
      assert (past + future)[1..] == past[1..] + future;
    }
  }

  lemma LeadsToItself(s: System)
    ensures Leads(s, s)
  {
    assert Legal(s, []) && After(s, []) == s;
  }

  lemma LeadsOn(s: System, t: System, u: System)
    requires Leads(s, t) && Leads(t, u)
    ensures Leads(s, u)
  {
    var past :| Legal(s, past) && After(s, past) == t;
    var future :| Legal(t, future) && After(t, future) == u;
    RunsCompose(s, past, future);
  }

  lemma LeadsToNext(s: System, step: Step)
    requires Enabled(s, step)
    ensures Leads(s, Apply(s, step))
  {
    var t := Apply(s, step);
    var run := [step];
    assert run[0] == step && run[1..] == [];
    assert Legal(t, run[1..]) && After(t, run[1..]) == t;
    assert Legal(s, run) && After(s, run) == t;
  }
}
