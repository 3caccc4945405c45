# procjail in Dafny

procjail runs untrusted code in a child process: it builds a sandbox command, strips secrets from the
environment, starts the child under cgroup limits, talks to it line by line, and kills it when a
deadline passes. This project models the parts of it whose correctness spans several functions,
threads or system calls, and proves what they promise for every input and every run.

Verify with `dafny verify dfyconfig.toml`.

## What is modelled

**The cancellation flag** (`watchdog_flag.dfy`). `WatchdogCancel` as a transition system: any number
of callers inside `cancel`, one watchdog inside `wait_until_cancelled_or`, a mutex, a condition
variable with spurious wakeups, and a clock. `Apply` is one atomic step; a run is a sequence of steps,
so the theorems quantify over all interleavings. `wait_timeout_while` is its documented loop: under
the mutex, leave if the predicate fails or the time is up, else park and give the mutex back in one
step.

**The process lifecycle** (`lifecycle.dfy`, `lifecycle_safety.dfy`, `lifecycle_limits.dfy`,
`lifecycle_effects.dfy`). The owner
thread in the tail of `spawn` and in `is_alive`, `wait_with_usage`, `kill` and `drop`; the watchdog
thread; the flag above; the child; and a kernel that may give the PID to another process, possibly
another child of the same program, once the child has been reaped. Descendants of the child live in
its cgroup leaf within the leaf's `pids.max`; those that `cgroup.kill` reaches exit some time later. Every system call, atomic access and
lock operation is one step, and a step's label carries what the environment chooses. The owner and
watchdog code changes state step by step, but because the steps of two threads interleave it is
modelled as a transition system rather than as methods of a class. `OwnerNext` follows
`src/process/mod.rs:370-515`, `WatchdogNext` follows `src/process/builder.rs:654-672` and
`src/process/kill.rs:6-106`, and `WaitAnswer`, `TryWaitAnswer` and `ChildKill` are `waitpid` and the
child handle of the standard library, which caches the exit status. `lifecycle_limits.dfy` has the
concrete runs that show where a promise ends, and the exact conditions; `lifecycle_effects.dfy` says
what each call and the watchdog have done by the time they are through.

**Spawn and cgroups** (`spawn.dfy`). `spawn` with its error paths, `kill_and_reap`, and `CgroupV2` with
its destructor, as methods that change a host. Which calls fail is an arbitrary set.

**The environment** (`command.dfy`, `environment.dfy`, `environment_laws.dfy`). `apply_environment` as in-place edits on a
command that has a clear flag and a map of overrides, against a declarative map;
`validate_environment`; and the `name=value` block of section 8.1 of the Base Definitions of
IEEE Std 1003.1-2017.

**The bubblewrap command** (`bwrap.dfy`, `bwrap_laws.dfy`, `mounts.dfy`). `build_command` for this
strategy, an option parser that knows only how many arguments each option takes, and a mount semantics
in which a path is what the latest mount at or above it makes of it. `canonicalize` is an arbitrary
partial function, and each `--ro-bind-try` may be skipped.

**The pipes** (`utf8.dfy`, `line_io.dfy`). `recv` over a buffered reader whose pipe delivers the stream
in arbitrary pieces, and `send`.

**/proc** (`text.dfy`, `proc_text.dfy`) and **inherited descriptors** (`inherited_fds.dfy`). The text
readers, with the string operations of the standard library they use, and `close_inherited_fds`.

## Where code and documentation differ

The model follows the code.

- `killed_by_timeout` is documented as true if the watchdog killed the process. It is true whenever
  the watchdog had fired by the time the owner looked, so it names the killer, and two waits agree,
  only where there is no watchdog: `ReportNamesTheKiller`, `WaitsAgree`.
- Where the watchdog has to fall back to signalling by number, a signal may reach a process that
  reused the PID, `is_alive` may take such a process for the child, and `kill` and `wait_with_usage`
  may wait for it. `SignalsStayOnChild`, `IsAliveIsTruthful`, `KillNeverBlocksExactly` and
  `WaitEndsAfterTimeoutExactly` give the exact setups in which this cannot happen.
- A PID above 2^31 - 1 would be signalled by neither route, and a child that has left its process
  group would be missed by the fallback: `TimeoutIsEnforcedExactly`. `spawn` starts no such child: its
  PID is a positive `pid_t`, and the seccomp filter, which allows neither `setpgid` nor `setsid`
  (`src/seccomp/mod.rs:148-325`), is installed or the payload does not start
  (`src/process/builder.rs:322-326`). So for every child that `spawn` starts the timeout is enforced:
  `SpawnedChildDiesInTime`.
- `drop` writes `cgroup.kill` only if it does not find the child exited, and waits for nobody but the
  child. A descendant can outlive it in the leaf, and the leaf can outlive it: `DropCleansUpExactly`,
  `KilledLeafIsRemovedExactly`.
- `spawn` is all or nothing except where the watchdog's thread cannot be started: `Spawn`.
- The command line names work dir, harness and runtime as they were given, while what is bound is
  canonical, so a harness behind a symbolic link may not be there: `PayloadWordShows`.
- `EnvMode::Blocklist` keeps exactly what `EnvMode::StripSecrets` keeps: `ModesCompare`.
- `close_inherited_fds` answers Ok without closing anything when `close_range` does not exist and
  `/proc/self/fd` cannot be read: `CloseInheritedFds`.
- `recv` fails on well-formed text when the limit cuts a character, and only then:
  `FailsOnlyInsideCharacter`.
- The stat reader takes the first `") "`, so a command name that contains one shifts the fields:
  `StatTimesExactly`.

## Model

| member | source | states |
|---|---|---|
| WatchdogFlag.StepKeepsInv | src/process/builder.rs:598-640 | every step of every caller and of the waiter keeps mutual exclusion, the visibility of stores, and that a parked waiter with the flag set has a notification pending |
| WatchdogFlag.NoLostWakeup | src/process/builder.rs:598-609 | in no interleaving is the watchdog parked with the flag set and no caller between its store and its notify |
| WatchdogFlag.PendingNotifyWakes | src/process/builder.rs:604-608 | a pending notification can always be delivered, and leaves nobody parked |
| WatchdogFlag.DecidesOnce | src/process/builder.rs:621-640 | a decision is final; a store before it makes it `cancelled`; a decision for the timeout means more than the timeout went by with the flag clear |
| WatchdogFlag.WaitsWholeTimeout | src/process/builder.rs:629-640 | from the call of `wait_until_cancelled_or` on: an answer that the timeout came first comes after clock ticks of more than the timeout, in every interleaving |
| WatchdogFlag.CancelledMeansStored | src/process/builder.rs:597-609 | the flag is set exactly if some caller has stored |
| WatchdogFlag.CancelledWaiterCountsDown | src/process/builder.rs:629-640 | once the flag is set every step of the waiter brings its return nearer and no other step puts it off |
| WatchdogFlag.CancelIsPrompt | src/process/builder.rs:597-640 | after a cancellation the watchdog returns within four of its own steps, relying on no timer or spurious wakeup once the callers are out |
| LifecycleSafety.StepKeepsInv | src/process/mod.rs:370-515 | every step of owner, watchdog, child and kernel keeps the invariant behind the theorems below |
| LifecycleSafety.WatchdogKillIsReported | src/process/mod.rs:445-463 | if a watchdog kill was the cause of death and `wait_with_usage` returns Ok, `killed_by_timeout` is true, then and ever after |
| LifecycleSafety.ReportMeansFullTimeout | src/process/builder.rs:654-661 | `killed_by_timeout` implies a non-zero timeout that went by in full with the flag clear |
| LifecycleEffects.FiringTakesWholeTimeout | src/process/builder.rs:654-661 | a watchdog that has fired, and a report of a timeout, come after a wait whose own clock ticks exceed the timeout |
| LifecycleSafety.CancelledWatchdogNeverFires | src/process/builder.rs:657-672 | a cancellation stored before the decision: the watchdog never sets the atomic, never signals and never kills, in any continuation |
| LifecycleSafety.NoWatchdogNeverFires | src/process/builder.rs:650-652 | with timeout 0 or PID 0 no run has a watchdog, a report, a watchdog kill or a signal of the watchdog |
| LifecycleEffects.WatchdogIsStarted | src/process/builder.rs:650-654 | once `spawn` has returned there is a watchdog exactly if timeout and PID are not zero |
| LifecycleSafety.KillAndDropReapOnce | src/process/mod.rs:370-383 | after `kill` or `drop` returns the child is reaped, exactly once over the whole run, whatever came before and comes after |
| LifecycleSafety.CgroupKillIsFinal | src/cgroups.rs:97-100 | once owner or watchdog has written `cgroup.kill`, neither the child nor a descendant in the leaf runs, in any continuation, and what is still exiting only gets less |
| LifecycleEffects.FiredWatchdogKillsLeaf | src/process/builder.rs:661-671 | a watchdog that has fired has killed everything in the leaf, in every run in which its writes succeed |
| LifecycleEffects.FiredWatchdogKillsAllExactly | src/process/builder.rs:661-671 | whatever writes fail, a fired watchdog leaves nothing running, if and only if there is none, or the kill of the child is sure and nobody else can be in the leaf |
| LifecycleEffects.ReturnedKillHasKilledLeaf | src/process/mod.rs:370-383 | when `kill` has returned nothing in the leaf runs, in every run in which the owner's writes succeed |
| LifecycleEffects.DropKillsOnlyRunning | src/process/mod.rs:507-515 | `drop` goes on to kill exactly if it finds the child running, and its poll touches nobody in the leaf |
| LifecycleEffects.ReturnedCallHasCancelled | src/process/mod.rs:370-371 | when `kill`, `drop` or a successful wait has returned the watchdog has been cancelled |
| LifecycleEffects.WaitNeverCancelsEarly | src/process/mod.rs:455-461 | without `kill` and `drop` the watchdog is cancelled only when the child has been reaped |
| LifecycleEffects.PollingNeverCancels | src/process/mod.rs:396-412 | polling alone never cancels the watchdog and never reports a timeout |
| LifecycleSafety.VacatedLeafGoes | src/cgroups.rs:103-109 | once everybody in the leaf has exited it stays empty, and `drop` does not leave it behind |
| LifecycleSafety.OverdueGetsNearer | src/process/builder.rs:654-672 | once more than the timeout has gone by, each step of the watchdog brings its end nearer and no step of anybody puts it off |
| LifecycleSafety.OverdueWatchdogFinishes | src/process/builder.rs:654-672 | from then on it takes at most ten steps in any run, and after the last one the flag was set or it has fired, and where the timeout is enforced the child is dead |
| LifecycleSafety.SpawnedChildDiesInTime | src/process/builder.rs:654-672 | for every child that `spawn` starts, with or without a working pidfd: after those steps the child is dead, unless the owner has cancelled |
| LifecycleSafety.OverdueWatchdogNeverBlocks | src/process/builder.rs:621-672 | until then its next step is always possible, at once or after at most two steps of the owner that give the mutex back |
| LifecycleSafety.ReapedIsNeverAlive | src/process/mod.rs:396-412 | unless the watchdog signals by number, `is_alive` answers false once the child is reaped |
| LifecycleEffects.PollAnswersTruly | src/process/mod.rs:396-412 | on a child that nobody has reaped `is_alive` answers whether it runs, and reaps it if not |
| LifecycleSafety.KillGetsNearerToReturning | src/process/mod.rs:507-515 | each owner step inside `kill` or `drop` brings its return nearer, no other step puts it off, and it ends nowhere else |
| LifecycleLimits.SignalsStayOnChild | src/process/kill.rs:83-106 | over whole runs no signal of watchdog or owner reaches another process, if and only if the watchdog is not started, or has a working pidfd, or the PID is one `kill_process` refuses |
| LifecycleLimits.IsAliveIsTruthful | src/process/kill.rs:34-41 | `is_alive` is right about every reaped child under exactly the same condition, because the fallback reaps behind the owner's back |
| LifecycleLimits.TimeoutIsEnforcedExactly | src/process/kill.rs:6-106 | a watchdog that has fired has killed the child in every run, if and only if none is started, or the PID is one `kill_process` accepts and the pidfd works or the child cannot leave its process group |
| LifecycleLimits.KillNeverBlocksExactly | src/process/mod.rs:370-383 | inside `kill` and `drop` the owner's next step is always possible whatever the kernel answers, at once or after at most two steps of the watchdog, if and only if the watchdog never signals by number; else `kill` can wait for a sibling that got the PID |
| LifecycleLimits.WaitEndsAfterTimeoutExactly | src/process/mod.rs:455-458 | once the watchdog has fired a `wait_with_usage` can always end, if and only if there is no watchdog or it kills through a working pidfd; else it can wait for a sibling that got the PID |
| LifecycleEffects.WaitFailsExactly | src/process/mod.rs:458 | `wait_with_usage` never fails for want of a child, if and only if the watchdog never signals by number |
| LifecycleLimits.DropCleansUpExactly | src/process/mod.rs:507-515 | `drop` leaves no leaf, and nothing running in one, in every run, if and only if there is no leaf or its `pids.max` is at most 1 |
| LifecycleLimits.KilledLeafIsRemovedExactly | src/cgroups.rs:103-109 | the same condition decides whether every `drop` whose `cgroup.kill` was written removes the leaf, because nobody waits for the descendants it killed |
| LifecycleLimits.ReportNamesTheKiller | src/process/mod.rs:458-462 | `killed_by_timeout` after `wait_with_usage` says in every run whether the watchdog killed the child, if and only if there is no watchdog |
| LifecycleLimits.WaitsAgree | src/process/mod.rs:458-462 | two waits report the same in every run, if and only if there is no watchdog |
| Spawn.Spawn | src/process/mod.rs:118-252 | an error is the earliest fatal failure, a missing cgroup being fatal exactly if limits are required, and leaves no child and no fresh leaf; a success has the child in the leaf, the four configured limits in force when it joined, or no cgroup and a configuration that allows it; exactly if only the watchdog's thread cannot be started it panics, with the child running on |
| Spawn.ObstacleIsFirstFatal | src/process/mod.rs:118-213 | the obstacle computed call by call is the fatal failure of lowest rank, and there is one exactly if some failure is fatal |
| Spawn.CgroupV2.New | src/cgroups.rs:19-42 | fails with its first failing check and then changes nothing; else the leaf is there, an old one as it was |
| Spawn.CgroupV2.Apply | src/process/mod.rs:184-192 | all four limits before the attachment; the first failure ends it with nobody attached |
| Environment.StrippedEnvVars | src/config/mod.rs:204-212 | exactly the configured names and, if secrets are stripped, the defaults; all are secret, and every other secret name has a secret prefix |
| Environment.ApplyBase | src/process/builder.rs:126-155 | the base by mode is the parent's environment restricted to inheritable names |
| Environment.ApplyEnvironment | src/process/builder.rs:123-172 | for every parent environment and configuration the child's environment is exactly the declarative map |
| EnvironmentLaws.ControlVariablesAreSet | src/process/builder.rs:166-171 | each control variable has the decimal of the limit it is named after, or the work dir |
| EnvironmentLaws.KeptNameIsAbsent | src/config/mod.rs:226-233 | a name that is stripped, a default secret or has one of the three prefixes is not in the child, wherever it came from |
| EnvironmentLaws.LastConfiguredValueWins | src/process/builder.rs:158-164 | the last value configured for another name is there, whatever the parent has |
| EnvironmentLaws.ParentValueIsInherited | src/process/builder.rs:126-155 | a parent variable that nothing else touches is there, unless the mode is Allowlist and the name is not listed; then it is not |
| EnvironmentLaws.AllowlistAdmitsNothingElse | src/process/builder.rs:127-135 | in Allowlist mode a name in the child is a control variable, configured, or listed and the parent's |
| Environment.NoSecretAppears | src/config/mod.rs:226-233 | no secret name is in the child except a control variable |
| Environment.ModesCompare | src/process/builder.rs:126-155 | StripSecrets and Blocklist give equal environments, and Allowlist a submap of them |
| Environment.StrippingMoreRemovesExactlyThat | src/config/mod.rs:226-227 | more names in `env_strip` remove exactly those that are not control variables and change no other entry |
| Environment.ValidateEnvironment | src/process/builder.rs:102-121 | accepts exactly the lists without an offending entry; else the first failing check of the first offending entry |
| EnvironmentLaws.EntryPassesExactly | src/process/builder.rs:103-119 | an entry passes exactly if the name is non-empty without `=`, NUL and whitespace and the value has no NUL and at most 32768 bytes of UTF-8; each error is given exactly for its cause |
| Environment.BlockRoundTrip | src/process/builder.rs:107-112 | a list is recovered from its block if and only if no name has `=` or NUL and no value NUL |
| Environment.AcceptedListIsRecovered | src/process/builder.rs:102-121 | every accepted list is recovered |
| Bwrap.RenderedParses | src/process/builder.rs:363-447 | for arbitrary strings the parser recovers the options in order and the payload |
| Bwrap.RenderingIsInjective | src/process/builder.rs:363-447 | equal command lines have equal options and payloads |
| Bwrap.MountOptsAreInOrder | src/process/builder.rs:414-439 | one bind per mount in order, if and only if every mount is acceptable |
| Bwrap.FirstBadMount | src/process/builder.rs:415-422 | the first bad mount decides the error of the whole list |
| Bwrap.BuildBwrapCommand | src/process/builder.rs:357-448 | the plan, `--` and the runtime, or the first thing that is wrong |
| BwrapLaws.PlanIsolates | src/process/builder.rs:441-444 | the network is unshared exactly if localhost is not allowed; PIDs always, and the payload dies with its parent |
| BwrapLaws.PlanWords | src/process/builder.rs:364-444 | the options of the command line word for word |
| BwrapLaws.PlanExistsExactly | src/process/builder.rs:380-439 | there is a plan exactly if every path resolves and every mount's host is absolute |
| BwrapLaws.PlanErrorIsFirst | src/process/builder.rs:380-439 | the plan fails over work dir, harness, runtime, read-only or writable mounts, in this order |
| BwrapLaws.MountErrorIsTrue | src/process/builder.rs:414-439 | an error about mounts has the kind and the host of the first that cannot be bound |
| Bwrap.BuildCommand | src/process/builder.rs:23-100 | the command line read back is the plan and runtime, runtime arguments, harness, work dir, and the child's environment is the declarative map; a refusal is the first failing check |
| BwrapLaws.RefusedFirst | src/process/builder.rs:30-47 | a relative work dir, an empty and a relative harness are refused in this order, and nothing is planned with a variable that is not acceptable |
| Mounts.WritableIsConfigured | src/process/builder.rs:427-439 | a host path writable in the sandbox lies under the canonical host of a writable mount and is reached through its container path |
| Mounts.WritableMountIsWritable | src/process/builder.rs:427-439 | a writable mount is writable at and below its container path unless a later one covers it |
| Mounts.ReadonlyMountIsReadonly | src/process/builder.rs:414-426 | a read-only mount shows its host path read-only unless a later mount covers it |
| Mounts.ReachableIsRooted | src/process/builder.rs:364-439 | a host path reachable at all lies under a system directory, the work dir, the harness, the absolute runtime or a configured mount |
| Mounts.PayloadIsVisible | src/process/builder.rs:364-412 | the canonical work dir, harness and absolute runtime are themselves, read-only, wherever no configured mount lies over them; there they are what that mount shows |
| Mounts.UnmountedPathShows | src/process/builder.rs:364-412 | away from configured mounts a path shows the host's object of that name, read-only, exactly if it is in the canonical payload or a system directory, and else nothing of the host |
| Mounts.PayloadWordShows | src/process/builder.rs:80-89 | the words the command line has for the payload lead to the bound objects if they are canonical; one that is not leads to the host's object of its name exactly if that lies in the payload or a system directory |
| Mounts.PlanSees | src/process/builder.rs:364-446 | a path is what configured mounts, then the payload binds, then the base make of it, and there is always something |
| Mounts.NamesSplitAtSlash | src/process/builder.rs:364-446 | the names of a path are those before and after each slash |
| LineIO.Pipes.Recv | src/process/mod.rs:327-337 | the answer and the rest are functions of the stream alone, however it is fragmented; no piece of the pipe is read before the line needs it, and its end is reached exactly if no line ends and no limit is met before it |
| LineIO.RecvUntilEof | tests/regression/mod.rs:64-66 | a caller that receives until EOF or an error gets the well-formed lines up to the first bad one, from any stream; on well-formed text it reaches EOF with all lines if and only if no cut falls inside a character |
| LineIO.RecvLines | src/process/mod.rs:306-337 | a caller that receives as many lines as it sent to an echoing child gets each back with its newline, leaves what came after them, never waits for the end of the pipe, and reads no piece once it has all lines |
| LineIO.SendAll | src/process/mod.rs:306-310 | a caller that sends several lines writes them one after the other, each with a newline |
| LineIO.LinesMakeUpStream | src/process/mod.rs:327-337 | successive results make up the stream; each is within the limit, has no interior newline, and ends in a newline or is exactly the limit or is last |
| LineIO.RecvTakesExactly | src/process/mod.rs:327-337 | and there is no other way to cut a stream like that |
| LineIO.NoneOnlyAtEof | src/process/mod.rs:333-335 | None is answered at the end of the stream and nowhere else |
| LineIO.FailsOnlyInsideCharacter | src/process/mod.rs:330-336 | on well-formed text `recv` fails if and only if the limit ends the line inside a character; otherwise what is left is well-formed again |
| LineIO.BoundariesDecide | src/process/mod.rs:330-336 | every line of well-formed text is answered if and only if no cut of the limit falls inside a character |
| Utf8.PrefixIsValid | src/process/mod.rs:330-336 | a prefix of well-formed UTF-8 is well-formed if and only if it is everything or no continuation byte follows it |
| Utf8.ValidExactly | src/process/mod.rs:330-336 | bytes are text if and only if they are the encoding of some string of Unicode scalar values |
| LineIO.AsciiNeverFails | src/process/mod.rs:330-336 | an ASCII stream is well-formed and is cut on boundaries only |
| LineIO.LimitMayCutACharacter | src/process/mod.rs:331-332 | for every limit some well-formed stream makes `recv` fail, so no limit is safe for all text |
| LineIO.EchoRoundTrip | src/process/mod.rs:306-337 | lines sent to an echoing child come back one for one if and only if each is newline-free and shorter than the limit |
| LineIO.SentLineIsAnswered | src/process/mod.rs:306-337 | such a line is answered Ok, not only for ASCII |
| ProcText.CountThreadsForUid | src/process/builder.rs:215-247 | the u64 count is the total of the matching entries if that fits; if not, a build with overflow checks panics and any other is short by whole wraps |
| ProcText.CountIsTrue | src/process/builder.rs:215-247 | reading the directory rendered for any process table totals the threads of the processes whose real UID matches |
| ProcText.UnlabelledCountsForNobody | src/process/builder.rs:224-243 | a status without a Uid or a Threads line counts for nobody |
| ProcText.UnreadableUidIsLargest | src/process/builder.rs:224-234 | a Uid line without a u32 stands for UID 2^32 - 1 |
| ProcText.OrderDoesNotMatter | src/process/builder.rs:217-218 | the order of the directory does not matter |
| ProcText.NprocLimitOfTable | src/process/builder.rs:253-258 | for any listing of a process table whose total fits, the limit is exactly min(threads + max_processes + 64, 2^64 - 1), saturating twice or once |
| ProcText.StatTimesAreRead | src/process/kill.rs:138-145 | fields 14 and 15 are read from every stat line whose command name has no `") "` |
| ProcText.StatTimesAreShifted | src/process/kill.rs:138-145 | otherwise every field is read as many places too early as the rest of the name has words |
| ProcText.StatTimesExactly | src/process/kill.rs:138-145 | the right fields are read for all fields if and only if the name has no `") "` |
| ProcText.CpuTimeIsTrue | src/process/kill.rs:134-151 | the CPU time is (utime + stime) over the clock rate, or None without a clock rate |
| ProcText.ShortStatGivesNothing | src/process/kill.rs:138-145 | a line with fewer than fifteen fields after the name gives no times |
| ProcText.UnreadableTimesGiveNothing | src/process/kill.rs:134-151 | one time that does not parse gives no CPU time |
| ProcText.PeakMemoryIsRead | src/process/kill.rs:109-126 | the first VmPeak line gives min(kilobytes * 1024, 2^64 - 1) |
| ProcText.NoVmPeakLine | src/process/kill.rs:109-126 | a status without a VmPeak line gives no peak |
| ProcText.NoVmPeakNumber | src/process/kill.rs:109-126 | nor does one whose first VmPeak line has no u64 |
| InheritedFds.CloseInheritedFds | src/process/builder.rs:178-208 | only standard descriptors stay open exactly when `close_range` works, or it does not exist and the listing can be read; the answer is an error only if `close_range` is refused |

## Left out

- ProcText.CpuTimeIsTrue: the floating-point parser is a parameter that is right on the two numbers, and the arithmetic is over reals.
- LifecycleLimits.SignalsStayOnChild: is about signals; a write to `cgroup.kill` of a leaf that another program re-created under the same name is not modelled, and descendants in the child's own process group, which are meant to be signalled with it, are not counted.
- LifecycleSafety.CgroupKillIsFinal: is about the leaf; descendants forked before the attachment are not in it.
- LifecycleLimits.DropCleansUpExactly: PID namespaces, in which descendants die with the first process, are not modelled; a killed child counts as dead at once, because the owner waits for it.
- Bwrap.BuildCommand: is the bubblewrap arm; the process group and the closure run before exec are not part of the command that is modelled.
- LifecycleSafety.OverdueWatchdogFinishes: counts steps; that a thread with a possible step is scheduled at all is left to the operating system.
- Spawn.Spawn: the limits of a leaf that an earlier process of the same PID left behind with members in it are overwritten as in the code, and the leaf then stays.
- Mounts.Sees: names in a mount destination are taken literally; `..`, symbolic links inside mounts and mounts below a bound host directory are not modelled.
- The seccomp filter itself, and setting the resource limits in the child between fork and exec.
- Custom providers, which may edit the command in any way.
- The unshare, firejail and rlimits command lines, capability probing and the choice of strategy.
- `which`, TOML loading, the configuration builder, error texts and log output.
- Exit codes, wall time, and the cgroup's own peak memory reading.
- Non-UTF-8 paths and variable names, weak memory effects, and I/O errors of the pipes.
