/**
 `SandboxedProcess::spawn` and the cgroup it sets up, as changes of a host: the child, and the cgroup
 leaf named after the child's PID.  Which system calls fail is fixed beforehand and arbitrary.
 */
module Spawn {
  import opened Wrappers
  import opened Text

  /** The calls of `spawn` that can fail, in the order in which they are made. */
  datatype Call =
    | ValidateInputs
    | FindRuntime
    | BuildCommand
    | StartChild
    | TakeStdin
    | TakeStdout
    | FindCgroupMount
    | FindControllers
    | CreateLeaf
    | WriteMemoryMax
    | WriteSwapMax
    | WriteCpuMax
    | WritePidsMax
    | WriteProcs
    | StartThread

  datatype Child = NotStarted | Running | Reaped

  datatype Limit = MemoryMax | SwapMax | CpuMax | PidsMax

  /** A cgroup directory; one with the same name may have been left behind by an earlier process. */
  datatype Leaf = Absent | Present(limits: map<Limit, string>, members: set<nat>)

  datatype Config = Config(
    maxMemoryBytes: nat,
    maxProcesses: nat,
    requireHardwareLimits: bool,
    timeoutSeconds: nat)

  /** Quota and period, in microseconds: one full processor. */
  const CPU_PERIOD: nat := 100_000

  /** What is written to each file. */
  function Limits(cfg: Config): map<Limit, string> {
    map[MemoryMax := Decimal(cfg.maxMemoryBytes), SwapMax := "0", CpuMax := "100000 100000",
        PidsMax := Decimal(cfg.maxProcesses)]
  }

  class Host {
    const fails: set<Call>
    const pid: nat  // the PID that the child gets
    var child: Child
    var leaf: Leaf
    /** The limits in force when the child joined the leaf. */
    var joinedUnder: Option<map<Limit, string>>

    constructor (fails: set<Call>, pid: nat, leaf: Leaf)
      ensures this.fails == fails && this.pid == pid && this.leaf == leaf
      ensures child == NotStarted && joinedUnder == None
    {
      this.fails, this.pid, this.leaf := fails, pid, leaf;
      child, joinedUnder := NotStarted, None;
    }

    /** A system call that does nothing but succeed or fail. */
    method Try(call: Call) returns (r: Result<(), Call>)
      ensures r == if call in fails then Err(call) else Ok(())
    {
      r := if call in fails then Err(call) else Ok(());
    }

    /** `kill_and_reap`: a child that is killed and waited for leaves its cgroup. */
    method KillAndReap()
      requires child == Running
      modifies this`child, this`leaf
      ensures child == Reaped
      ensures leaf == (if old(leaf).Absent? then Absent else old(leaf).(members := old(leaf.members) - {pid}))
    {
      child := Reaped;
      if leaf.Present? {
        leaf := leaf.(members := leaf.members - {pid});
      }
    }
  }

  /** The handle on a leaf. */
  class CgroupV2 {
    const host: Host

    constructor (host: Host)
      ensures this.host == host
    {
      this.host := host;
    }

    /** `CgroupV2::new`: the mount must be a v2 one, and the leaf can be created or is there. */
    static method New(host: Host) returns (r: Result<CgroupV2, Call>)
      modifies host`leaf
      ensures r.Ok? <==> FirstFailure(CREATION, host.fails).None?
      ensures r.Ok? ==> fresh(r.value) && r.value.host == host
      ensures r.Err? ==> host.leaf == old(host.leaf)
                         && FirstFailure(CREATION, host.fails) == Some(r.error)
      ensures r.Ok? ==> host.leaf == if old(host.leaf).Absent? then Present(map[], {}) else old(host.leaf)
    {
      var step := host.Try(FindCgroupMount);
      if step.Err? {
        FirstFailureIsAt(CREATION, host.fails, 0);
        return Err(FindCgroupMount);
      }
      step := host.Try(FindControllers);
      if step.Err? {
        FirstFailureIsAt(CREATION, host.fails, 1);
        return Err(FindControllers);
      }
      step := host.Try(CreateLeaf);
      if step.Err? {
        FirstFailureIsAt(CREATION, host.fails, 2);
        return Err(CreateLeaf);
      }
      if host.leaf.Absent? {
        host.leaf := Present(map[], {});
      }
      var cgroup := new CgroupV2(host);
      return Ok(cgroup);
    }

    /** A write to one of the limit files. */
    method Write(call: Call, limit: Limit, value: string) returns (r: Result<(), Call>)
      requires host.leaf.Present?
      modifies host`leaf
      ensures r == if call in host.fails then Err(call) else Ok(())
      ensures host.leaf == if r.Ok? then old(host.leaf).(limits := old(host.leaf.limits)[limit := value])
                           else old(host.leaf)
    {
      r := host.Try(call);
      if r.Ok? {
        host.leaf := host.leaf.(limits := host.leaf.limits[limit := value]);
      }
    }

    method SetMemoryLimit(bytes: nat) returns (r: Result<(), Call>)
      requires host.leaf.Present?
      modifies host`leaf
      ensures host.leaf.Present? && host.leaf.members == old(host.leaf.members)
      ensures r == if WriteMemoryMax in host.fails then Err(WriteMemoryMax)
                   else if WriteSwapMax in host.fails then Err(WriteSwapMax)
                   else Ok(())
      ensures r.Ok? ==> host.leaf.limits == old(host.leaf.limits)[MemoryMax := Decimal(bytes)][SwapMax := "0"]
      ensures r == Err(WriteMemoryMax) ==> host.leaf.limits == old(host.leaf.limits)
      ensures r == Err(WriteSwapMax) ==> host.leaf.limits == old(host.leaf.limits)[MemoryMax := Decimal(bytes)]
    {
      r := Write(WriteMemoryMax, MemoryMax, Decimal(bytes));
      if r.Ok? {
        r := Write(WriteSwapMax, SwapMax, "0");
      }
    }

    method SetCpuLimit(quota: nat, period: nat) returns (r: Result<(), Call>)
      requires host.leaf.Present?
      modifies host`leaf
      ensures host.leaf.Present? && host.leaf.members == old(host.leaf.members)
      ensures r == if WriteCpuMax in host.fails then Err(WriteCpuMax) else Ok(())
      ensures r.Ok? ==>
                host.leaf.limits == old(host.leaf.limits)[CpuMax := Decimal(quota) + " " + Decimal(period)]
      ensures r.Err? ==> host.leaf == old(host.leaf)
    {
      r := Write(WriteCpuMax, CpuMax, Decimal(quota) + " " + Decimal(period));
    }

    method SetPidsLimit(max: nat) returns (r: Result<(), Call>)
      requires host.leaf.Present?
      modifies host`leaf
      ensures host.leaf.Present? && host.leaf.members == old(host.leaf.members)
      ensures r == if WritePidsMax in host.fails then Err(WritePidsMax) else Ok(())
      ensures r.Ok? ==> host.leaf.limits == old(host.leaf.limits)[PidsMax := Decimal(max)]
      ensures r.Err? ==> host.leaf == old(host.leaf)
    {
      r := Write(WritePidsMax, PidsMax, Decimal(max));
    }

    /** Moves the child into the leaf: from now on it runs under the limits that are there. */
    method AttachPid() returns (r: Result<(), Call>)
      requires host.leaf.Present?
      modifies host`leaf, host`joinedUnder
      ensures r == if WriteProcs in host.fails then Err(WriteProcs) else Ok(())
      ensures r.Err? ==> host.leaf == old(host.leaf) && host.joinedUnder == old(host.joinedUnder)
      ensures r.Ok? ==> host.leaf == old(host.leaf).(members := old(host.leaf.members) + {host.pid})
      ensures r.Ok? ==> host.joinedUnder == Some(host.leaf.limits)
    {
      r := host.Try(WriteProcs);
      if r.Ok? {
        host.leaf := host.leaf.(members := host.leaf.members + {host.pid});
        host.joinedUnder := Some(host.leaf.limits);
      }
    }

    method SetLimits(cfg: Config) returns (r: Result<(), Call>)
      requires host.leaf.Present?
      modifies host`leaf
      ensures host.leaf.Present? && host.leaf.members == old(host.leaf.members)
      ensures r == if WriteMemoryMax in host.fails then Err(WriteMemoryMax)
                   else if WriteSwapMax in host.fails then Err(WriteSwapMax)
                   else if WriteCpuMax in host.fails then Err(WriteCpuMax)
                   else if WritePidsMax in host.fails then Err(WritePidsMax)
                   else Ok(())
      ensures r.Ok? ==> host.leaf.limits == old(host.leaf.limits) + Limits(cfg)
    {
      r := SetMemoryLimit(cfg.maxMemoryBytes);
      if r.Ok? { r := SetCpuLimit(CPU_PERIOD, CPU_PERIOD); }
      if r.Ok? { r := SetPidsLimit(cfg.maxProcesses); }
      WrittenLimits(old(host.leaf.limits), cfg);
    }

    /** The four limits, then the attachment; the first failure ends it. */
    method Apply(cfg: Config) returns (r: Result<(), Call>)
      requires host.leaf.Present?
      modifies host`leaf, host`joinedUnder
      ensures host.leaf.Present?
      ensures r == ToResult(FirstFailure(CONFINEMENT, host.fails))
      ensures r.Err? ==> host.leaf.members == old(host.leaf.members) && host.joinedUnder == old(host.joinedUnder)
      ensures r.Ok? ==> host.leaf == Present(old(host.leaf.limits) + Limits(cfg), old(host.leaf.members) + {host.pid})
      ensures r.Ok? ==> host.joinedUnder == Some(host.leaf.limits)
    {
      ConfinementFailure(host.fails);
      r := SetLimits(cfg);
      if r.Ok? { r := AttachPid(); }
    }

    /** `Drop`: the directory goes unless somebody lives in it. */
    method Drop()
      modifies host`leaf
      ensures host.leaf ==
                if old(host.leaf).Present? && old(host.leaf.members) == {} then Absent else old(host.leaf)
    {
      if host.leaf.Present? && host.leaf.members == {} {
        host.leaf := Absent;
      }
    }
  }

  lemma ConfinementFailure(fails: set<Call>)
    ensures FirstFailure(CONFINEMENT, fails) ==
              if WriteMemoryMax in fails then Some(WriteMemoryMax)
              else if WriteSwapMax in fails then Some(WriteSwapMax)
              else if WriteCpuMax in fails then Some(WriteCpuMax)
              else if WritePidsMax in fails then Some(WritePidsMax)
              else if WriteProcs in fails then Some(WriteProcs)
              else None
  {
    if WriteMemoryMax in fails {
      FirstFailureIsAt(CONFINEMENT, fails, 0);
    } else if WriteSwapMax in fails {
      FirstFailureIsAt(CONFINEMENT, fails, 1);
    } else if WriteCpuMax in fails {
      FirstFailureIsAt(CONFINEMENT, fails, 2);
    } else if WritePidsMax in fails {
      FirstFailureIsAt(CONFINEMENT, fails, 3);
    } else if WriteProcs in fails {
      FirstFailureIsAt(CONFINEMENT, fails, 4);
    }
  }

  /** The four writes, one after the other. */
  lemma WrittenLimits(limits: map<Limit, string>, cfg: Config)
    ensures limits[MemoryMax := Decimal(cfg.maxMemoryBytes)][SwapMax := "0"]
                  [CpuMax := Decimal(CPU_PERIOD) + " " + Decimal(CPU_PERIOD)][PidsMax := Decimal(cfg.maxProcesses)]
            == limits + Limits(cfg)
  {
    CpuLimitText();
  }

  lemma CpuLimitText()
    ensures Decimal(CPU_PERIOD) + " " + Decimal(CPU_PERIOD) == "100000 100000"
  {
    assert Decimal(1) == "1";
    assert Decimal(10) == "10";
    assert Decimal(100) == "100";
    assert Decimal(1_000) == "1000";
    assert Decimal(10_000) == "10000";
    assert Decimal(100_000) == "100000";
  }

  // ---------------------------------------------------------------------------
  // When spawn fails, and with what
  // ---------------------------------------------------------------------------

  const PREPARATION: seq<Call> := [ValidateInputs, FindRuntime, BuildCommand, StartChild]
  const PIPES: seq<Call> := [TakeStdin, TakeStdout]
  const CREATION: seq<Call> := [FindCgroupMount, FindControllers, CreateLeaf]
  const CONFINEMENT: seq<Call> := [WriteMemoryMax, WriteSwapMax, WriteCpuMax, WritePidsMax, WriteProcs]

  function FirstFailure(calls: seq<Call>, fails: set<Call>): (r: Option<Call>)
    ensures r.Some? ==> r.value in calls && r.value in fails
    ensures r.None? ==> forall call :: call in calls ==> call !in fails
  {
    if calls == [] then None
    else if calls[0] in fails then Some(calls[0])
    else FirstFailure(calls[1..], fails)
  }

  lemma {:induction false} FirstFailureIsAt(calls: seq<Call>, fails: set<Call>, i: nat)
    requires i < |calls| && calls[i] in fails
    requires forall j :: 0 <= j < i ==> calls[j] !in fails
    ensures FirstFailure(calls, fails) == Some(calls[i])
    decreases |calls|
  {
    if i > 0 {
      FirstFailureIsAt(calls[1..], fails, i - 1);
    }
  }

  function ToResult(failure: Option<Call>): Result<(), Call> {
    match failure case None => Ok(()) case Some(call) => Err(call)
  }

  /** The call that makes `spawn` return an error, if any. */
  function Obstacle(fails: set<Call>, requireHardwareLimits: bool): Option<Call> {
    var preparation, pipes := FirstFailure(PREPARATION, fails), FirstFailure(PIPES, fails);
    var creation := FirstFailure(CREATION, fails);
    if preparation.Some? then preparation
    else if pipes.Some? then pipes
    else if creation.Some? then (if requireHardwareLimits then creation else None)
    else FirstFailure(CONFINEMENT, fails)
  }

  class SandboxedProcess {
    const cgroup: Option<CgroupV2>
    const watchdogStarted: bool

    constructor (cgroup: Option<CgroupV2>, watchdogStarted: bool)
      ensures this.cgroup == cgroup && this.watchdogStarted == watchdogStarted
    {
      this.cgroup := cgroup;
      this.watchdogStarted := watchdogStarted;
    }
  }

  /** Everything up to and including the start of the child. */
  method Prepare(host: Host) returns (r: Result<(), Call>)
    ensures r == ToResult(FirstFailure(PREPARATION, host.fails))
  {
    r := host.Try(ValidateInputs);
    if r.Err? {
      FirstFailureIsAt(PREPARATION, host.fails, 0);
      return;
    }
    r := host.Try(FindRuntime);
    if r.Err? {
      FirstFailureIsAt(PREPARATION, host.fails, 1);
      return;
    }
    r := host.Try(BuildCommand);
    if r.Err? {
      FirstFailureIsAt(PREPARATION, host.fails, 2);
      return;
    }
    r := host.Try(StartChild);
    if r.Err? {
      FirstFailureIsAt(PREPARATION, host.fails, 3);
    }
  }

  /** `setup_io`. */
  method SetupIo(host: Host) returns (r: Result<(), Call>)
    ensures r == ToResult(FirstFailure(PIPES, host.fails))
  {
    r := host.Try(TakeStdin);
    if r.Err? {
      FirstFailureIsAt(PIPES, host.fails, 0);
      return;
    }
    r := host.Try(TakeStdout);
    if r.Err? {
      FirstFailureIsAt(PIPES, host.fails, 1);
    }
  }

  /** A thread that cannot be started is a panic, not an error. */
  datatype Outcome = Started(process: SandboxedProcess) | Failed(call: Call) | Panicked

  /** The cgroup of a running child, or none where it may be missing; on an error the child is gone. */
  method Confine(host: Host, cfg: Config) returns (r: Result<Option<CgroupV2>, Call>)
    requires host.child == Running && host.joinedUnder == None
    requires host.leaf.Present? ==> host.pid !in host.leaf.members
    modifies host
    ensures var creation := FirstFailure(CREATION, host.fails);
            var confinement := FirstFailure(CONFINEMENT, host.fails);
            if creation.Some? then
              && r == (if cfg.requireHardwareLimits then Err(creation.value) else Ok(None))
              && host.leaf == old(host.leaf) && host.joinedUnder == None
            else if confinement.Some? then
              && r == Err(confinement.value) && host.joinedUnder == None
              && if old(host.leaf).Absent? || old(host.leaf.members) == {} then host.leaf == Absent
                 else host.leaf.Present? && host.leaf.members == old(host.leaf.members)
            else
              && r.Ok? && r.value.Some? && r.value.value.host == host && fresh(r.value.value)
              && IsConfined(host, cfg)
    ensures host.child == if r.Err? then Reaped else Running
  {
    var created := CgroupV2.New(host);
    match created
    case Ok(cgroup) =>
      var limits := cgroup.Apply(cfg);
      if limits.Err? {
        host.KillAndReap();
        cgroup.Drop();
        return Err(limits.error);
      }
      return Ok(Some(cgroup));
    case Err(e) =>
      if cfg.requireHardwareLimits {
        host.KillAndReap();
        return Err(e);
      }
      return Ok(None);
  }

  /** `spawn_parent_watchdog`; `unwinds` is the panic of `thread::spawn`. */
  method SpawnParentWatchdog(host: Host, cfg: Config) returns (started: bool, unwinds: bool)
    ensures started <==> cfg.timeoutSeconds > 0 && host.pid != 0 && StartThread !in host.fails
    ensures unwinds <==> cfg.timeoutSeconds > 0 && host.pid != 0 && StartThread in host.fails
  {
    if cfg.timeoutSeconds == 0 || host.pid == 0 {
      return false, false;
    }
    var thread := host.Try(StartThread);
    return thread.Ok?, thread.Err?;
  }

  /** The limits that the configuration asks for, no swap, and one full processor. */
  predicate AreInForce(limits: map<Limit, string>, cfg: Config) {
    && MemoryMax in limits && limits[MemoryMax] == Decimal(cfg.maxMemoryBytes)
    && SwapMax in limits && limits[SwapMax] == "0"
    && CpuMax in limits && limits[CpuMax] == "100000 100000"
    && PidsMax in limits && limits[PidsMax] == Decimal(cfg.maxProcesses)
  }

  /** The place of a call in the order in which `spawn` makes them. */
  function Rank(call: Call): nat {
    match call
    case ValidateInputs => 0
    case FindRuntime => 1
    case BuildCommand => 2
    case StartChild => 3
    case TakeStdin => 4
    case TakeStdout => 5
    case FindCgroupMount => 6
    case FindControllers => 7
    case CreateLeaf => 8
    case WriteMemoryMax => 9
    case WriteSwapMax => 10
    case WriteCpuMax => 11
    case WritePidsMax => 12
    case WriteProcs => 13
    case StartThread => 14
  }

  /** A failure that ends `spawn`: of anything but the watchdog's thread, unless the cgroup may be missing. */
  predicate IsFatal(call: Call, fails: set<Call>, requireHardwareLimits: bool) {
    && call in fails && call != StartThread
    && (6 <= Rank(call) <= 8 ==> requireHardwareLimits)
    && (9 <= Rank(call) ==> FindCgroupMount !in fails && FindControllers !in fails && CreateLeaf !in fails)
  }

  /** The obstacle is the earliest failure that ends `spawn`, and there is one exactly if some failure does. */
  lemma ObstacleIsFirstFatal(fails: set<Call>, requireHardwareLimits: bool)
    ensures var obstacle := Obstacle(fails, requireHardwareLimits);
            && (obstacle.Some? <==> exists call :: IsFatal(call, fails, requireHardwareLimits))
            && (obstacle.Some? ==> IsFatal(obstacle.value, fails, requireHardwareLimits))
            && (forall call :: obstacle.Some? && IsFatal(call, fails, requireHardwareLimits) ==>
                                 Rank(obstacle.value) <= Rank(call))
  {
    var obstacle := Obstacle(fails, requireHardwareLimits);
    if obstacle.Some? {
      ObstacleIsFatal(fails, requireHardwareLimits);
    }
    forall call | IsFatal(call, fails, requireHardwareLimits)
      ensures obstacle.Some? && Rank(obstacle.value) <= Rank(call)
    {
      FatalIsNoEarlier(fails, requireHardwareLimits, call);
    }
  }

  lemma ObstacleIsFatal(fails: set<Call>, requireHardwareLimits: bool)
    requires Obstacle(fails, requireHardwareLimits).Some?
    ensures IsFatal(Obstacle(fails, requireHardwareLimits).value, fails, requireHardwareLimits)
  {
    PreparationFailure(fails);
    PipesFailure(fails);
    CreationFailure(fails);
    ConfinementFailure(fails);
  }

  lemma FatalIsNoEarlier(fails: set<Call>, requireHardwareLimits: bool, call: Call)
    requires IsFatal(call, fails, requireHardwareLimits)
    ensures var obstacle := Obstacle(fails, requireHardwareLimits);
            obstacle.Some? && Rank(obstacle.value) <= Rank(call)
  {
    PreparationFailure(fails);
    PipesFailure(fails);
    CreationFailure(fails);
    ConfinementFailure(fails);
  }

  lemma PreparationFailure(fails: set<Call>)
    ensures FirstFailure(PREPARATION, fails) ==
              if ValidateInputs in fails then Some(ValidateInputs)
              else if FindRuntime in fails then Some(FindRuntime)
              else if BuildCommand in fails then Some(BuildCommand)
              else if StartChild in fails then Some(StartChild)
              else None
  {
    if ValidateInputs in fails {
      FirstFailureIsAt(PREPARATION, fails, 0);
    } else if FindRuntime in fails {
      FirstFailureIsAt(PREPARATION, fails, 1);
    } else if BuildCommand in fails {
      FirstFailureIsAt(PREPARATION, fails, 2);
    } else if StartChild in fails {
      FirstFailureIsAt(PREPARATION, fails, 3);
    }
  }

  lemma PipesFailure(fails: set<Call>)
    ensures FirstFailure(PIPES, fails) ==
              if TakeStdin in fails then Some(TakeStdin)
              else if TakeStdout in fails then Some(TakeStdout)
              else None
  {
    if TakeStdin in fails {
      FirstFailureIsAt(PIPES, fails, 0);
    } else if TakeStdout in fails {
      FirstFailureIsAt(PIPES, fails, 1);
    }
  }

  lemma CreationFailure(fails: set<Call>)
    ensures FirstFailure(CREATION, fails) ==
              if FindCgroupMount in fails then Some(FindCgroupMount)
              else if FindControllers in fails then Some(FindControllers)
              else if CreateLeaf in fails then Some(CreateLeaf)
              else None
  {
    if FindCgroupMount in fails {
      FirstFailureIsAt(CREATION, fails, 0);
    } else if FindControllers in fails {
      FirstFailureIsAt(CREATION, fails, 1);
    } else if CreateLeaf in fails {
      FirstFailureIsAt(CREATION, fails, 2);
    }
  }

  lemma FailedCallIsRanked(call: Call)
    ensures call in PREPARATION <==> Rank(call) <= 3
    ensures call in CONFINEMENT <==> 9 <= Rank(call) <= 13
  {
  }

  /** The child is in the leaf, under all four limits from the moment it joined. */
  ghost predicate IsConfined(host: Host, cfg: Config)
    reads host
  {
    && host.leaf.Present? && host.pid in host.leaf.members
    && host.joinedUnder.Some?
    && AreInForce(host.joinedUnder.value, cfg)
  }

  /** The calls of `spawn` in their order, answered by the obstacle. */
  method SpawnInOrder(host: Host, cfg: Config) returns (r: Outcome)
    requires host.child == NotStarted && host.joinedUnder == None
    requires host.leaf.Present? ==> host.pid !in host.leaf.members
    modifies host
    ensures match Obstacle(host.fails, cfg.requireHardwareLimits)
            case Some(call) =>
              && r == Failed(call)
              && host.joinedUnder == None
              && host.child == (if call in PREPARATION then NotStarted else Reaped)
              && if call !in CONFINEMENT then host.leaf == old(host.leaf)
                 else if old(host.leaf).Absent? || old(host.leaf.members) == {} then host.leaf == Absent
                 else host.leaf.Present? && host.leaf.members == old(host.leaf.members)
            case None =>
              && host.child == Running
              && (r.Panicked? <==> cfg.timeoutSeconds > 0 && host.pid != 0 && StartThread in host.fails)
              && (r.Started? ==> fresh(r.process)
                                 && (r.process.watchdogStarted <==> cfg.timeoutSeconds > 0 && host.pid != 0)
                                 && (r.process.cgroup.Some? <==> FirstFailure(CREATION, host.fails).None?)
                                 && (r.process.cgroup.Some? ==> r.process.cgroup.value.host == host))
              && !r.Failed?
              && if FirstFailure(CREATION, host.fails).None? then IsConfined(host, cfg)
                 else !cfg.requireHardwareLimits && host.joinedUnder == None && host.leaf == old(host.leaf)
  {
    var prepared := Prepare(host);
    if prepared.Err? {
      return Failed(prepared.error);
    }
    host.child := Running;
    var pipes := SetupIo(host);
    if pipes.Err? {
      host.KillAndReap();
      return Failed(pipes.error);
    }
    var confined := Confine(host, cfg);
    if confined.Err? {
      return Failed(confined.error);
    }
    var attached := confined.value;
    var started, unwinds := SpawnParentWatchdog(host, cfg);
    if unwinds {
      // the stack unwinds, and the handle on the leaf is dropped
      if attached.Some? {
        attached.value.Drop();
      }
      return Panicked;
    }
    var process := new SandboxedProcess(attached, started);
    return Started(process);
  }

  /**
   All or nothing, but for one case.  An error is the first obstacle, and leaves no child, and no leaf
   unless strangers lived in one of that name before.  A success has the child confined, or no cgroup at
   all and a configuration that allows that.  If all that succeeds and the watchdog's thread cannot be
   started, the call panics, and the child runs on, in its leaf if there is one, with nobody to kill it.
   */
  method Spawn(host: Host, cfg: Config) returns (r: Outcome)
    requires host.child == NotStarted && host.joinedUnder == None
    // a process that does not exist yet is in no cgroup
    requires host.leaf.Present? ==> host.pid !in host.leaf.members
    modifies host
    // what it answers
    ensures r.Failed? <==> exists call :: IsFatal(call, host.fails, cfg.requireHardwareLimits)
    ensures r.Failed? ==> IsFatal(r.call, host.fails, cfg.requireHardwareLimits)
    ensures r.Failed? ==> forall call :: IsFatal(call, host.fails, cfg.requireHardwareLimits) ==>
                                           Rank(r.call) <= Rank(call)
    ensures r.Panicked? <==>
              && !r.Failed?
              && cfg.timeoutSeconds > 0 && host.pid != 0 && StartThread in host.fails
    // nothing left behind
    ensures r.Failed? ==> host.child == if Rank(r.call) <= 3 then NotStarted else Reaped
    ensures r.Failed? ==> host.joinedUnder == None
    ensures r.Failed? && Rank(r.call) < 9 ==> host.leaf == old(host.leaf)
    ensures r.Failed? && Rank(r.call) >= 9 ==>
              if old(host.leaf).Absent? || old(host.leaf.members) == {} then host.leaf == Absent
              else host.leaf.Present? && host.leaf.members == old(host.leaf.members)
    // or everything in place
    ensures !r.Failed? ==> host.child == Running
    ensures !r.Failed? ==>
              if {FindCgroupMount, FindControllers, CreateLeaf} !! host.fails then IsConfined(host, cfg)
              else !cfg.requireHardwareLimits && host.joinedUnder == None && host.leaf == old(host.leaf)
    ensures r.Started? ==> fresh(r.process) && (r.process.watchdogStarted <==> cfg.timeoutSeconds > 0 && host.pid != 0)
    ensures r.Started? ==> (r.process.cgroup.Some? <==> {FindCgroupMount, FindControllers, CreateLeaf} !! host.fails)
    ensures r.Started? && r.process.cgroup.Some? ==> r.process.cgroup.value.host == host
  {
    r := SpawnInOrder(host, cfg);
    ObstacleIsFirstFatal(host.fails, cfg.requireHardwareLimits);
    CreationFailure(host.fails);
    if r.Failed? {
      FailedCallIsRanked(r.call);
    }
  }
}
