/**
 The cancellation flag the parent watchdog blocks on: a mutex-guarded boolean with a condition
 variable.  Any number of callers may be inside `cancel` at once; one thread, the watchdog, is
 inside `wait_until_cancelled_or`.  Every atomic step is a value of `Step`, so an interleaving is a
 sequence of steps, and a theorem about every interleaving quantifies over sequences.
 */
module WatchdogFlag {

  /** Where a caller is inside `cancel`; a caller that is absent from the map is outside it. */
  datatype Caller =
    | Locked    // has the mutex, has not stored yet
    | Stored    // has stored `true`, still has the mutex
    | Unlocked  // has released the mutex, has not notified yet

  /** Where the watchdog is inside `wait_until_cancelled_or`; `since` is when its wait began. */
  datatype Waiter =
    | Outside
    | Checking(since: nat)  // has the mutex, at the head of the wait loop
    | Parked(since: nat)    // on the condition variable, without the mutex
    | Woken(since: nat)     // off the condition variable, needs the mutex again
    | Leaving(since: nat)   // has the mutex, out of the loop, about to read the flag
    | Decided(cancelled: bool, since: nat, at: nat)

  datatype Holder = Nobody | TheWaiter | ACaller(id: nat)

  datatype Flag = Flag(
    timeout: nat,
    now: nat,
    cancelled: bool,
    holder: Holder,
    waiter: Waiter,
    callers: map<nat, Caller>)

  datatype Step =
    | Lock(id: nat)
    | Store(id: nat)
    | Unlock(id: nat)
    | Notify(id: nat)
    | Enter
    | Check           // one turn of the wait loop
    | Wake            // a spurious wakeup, or the operating system's timer
    | Relock
    | Leave
    | Tick(elapsed: nat)

  function Init(timeout: nat): Flag {
    Flag(timeout, 0, false, Nobody, Outside, map[])
  }

  predicate Enabled(f: Flag, step: Step) {
    match step
    case Lock(id) => f.holder == Nobody && id !in f.callers
    case Store(id) => id in f.callers && f.callers[id] == Locked
    case Unlock(id) => id in f.callers && f.callers[id] == Stored
    case Notify(id) => id in f.callers && f.callers[id] == Unlocked
    case Enter => f.holder == Nobody && f.waiter == Outside
    case Check => f.waiter.Checking?
    case Wake => f.waiter.Parked?
    case Relock => f.holder == Nobody && f.waiter.Woken?
    case Leave => f.waiter.Leaving?
    case Tick(_) => true
  }

  function Apply(f: Flag, step: Step): Flag
    requires Enabled(f, step)
  {
    match step
    case Lock(id) => f.(holder := ACaller(id), callers := f.callers[id := Locked])
    case Store(id) => f.(cancelled := true, callers := f.callers[id := Stored])
    case Unlock(id) => f.(holder := Nobody, callers := f.callers[id := Unlocked])
    case Notify(id) =>
      f.(waiter := if f.waiter.Parked? then Woken(f.waiter.since) else f.waiter,
         callers := f.callers - {id})
    case Enter => f.(holder := TheWaiter, waiter := Checking(f.now))
    case Check =>
      var since := f.waiter.since;
      if f.cancelled || f.now - since > f.timeout then
        f.(waiter := Leaving(since))
      else
        f.(holder := Nobody, waiter := Parked(since))
    case Wake => f.(waiter := Woken(f.waiter.since))
    case Relock => f.(holder := TheWaiter, waiter := Checking(f.waiter.since))
    case Leave => f.(holder := Nobody, waiter := Decided(f.cancelled, f.waiter.since, f.now))
    case Tick(elapsed) => f.(now := f.now + elapsed)
  }

  /** `steps` is an interleaving that can run from `f`. */
  ghost predicate Legal(f: Flag, steps: seq<Step>)
    decreases |steps|
  {
    steps != [] ==> Enabled(f, steps[0]) && Legal(Apply(f, steps[0]), steps[1..])
  }

  ghost function After(f: Flag, steps: seq<Step>): Flag
    requires Legal(f, steps)
    decreases |steps|
  {
    if steps == [] then f else After(Apply(f, steps[0]), steps[1..])
  }

  // ---------------------------------------------------------------------------
  // What every step keeps
  // ---------------------------------------------------------------------------

  ghost predicate MutexExcludes(f: Flag) {
    && (f.holder == TheWaiter <==> f.waiter.Checking? || f.waiter.Leaving?)
    && (forall id :: id in f.callers ==>
          (f.holder == ACaller(id) <==> f.callers[id] in {Locked, Stored}))
    && (f.holder.ACaller? ==> f.holder.id in f.callers)
  }

  ghost predicate StoresAreVisible(f: Flag) {
    forall id :: id in f.callers && f.callers[id] in {Stored, Unlocked} ==> f.cancelled
  }

  /** A caller that has stored `true` and has not yet notified. */
  ghost predicate NotifyPending(f: Flag, id: nat) {
    id in f.callers && f.callers[id] in {Stored, Unlocked}
  }

  ghost predicate ParkedIsNotForgotten(f: Flag) {
    f.waiter.Parked? && f.cancelled ==> exists id :: NotifyPending(f, id)
  }

  ghost predicate ExitIsJustified(f: Flag) {
    && (f.waiter.Leaving? ==>
          f.waiter.since <= f.now && (f.cancelled || f.now - f.waiter.since > f.timeout))
    && (f.waiter.Decided? && !f.waiter.cancelled ==>
          f.waiter.since <= f.waiter.at <= f.now && f.waiter.at - f.waiter.since > f.timeout)
    && (f.waiter.Checking? || f.waiter.Parked? || f.waiter.Woken? ==> f.waiter.since <= f.now)
    && (f.waiter.Decided? && f.waiter.cancelled ==> f.cancelled)
  }

  ghost predicate Inv(f: Flag) {
    && MutexExcludes(f)
    && StoresAreVisible(f)
    && ParkedIsNotForgotten(f)
    && ExitIsJustified(f)
  }

  lemma StepKeepsInv(f: Flag, step: Step)
    requires Inv(f) && Enabled(f, step)
    ensures Inv(Apply(f, step))
  {
    var g := Apply(f, step);
    assert step.Store? ==> NotifyPending(g, step.id);
    forall id | NotifyPending(f, id) && !step.Notify? ensures NotifyPending(g, id) {
    }
  }

  lemma {:induction false} RunKeepsInv(f: Flag, steps: seq<Step>)
    requires Inv(f) && Legal(f, steps)
    ensures Inv(After(f, steps))
    decreases |steps|
  {
    if steps != [] {
      StepKeepsInv(f, steps[0]);
      RunKeepsInv(Apply(f, steps[0]), steps[1..]);
    }
  }

  lemma {:induction false} RunsCompose(f: Flag, past: seq<Step>, future: seq<Step>)
    requires Legal(f, past) && Legal(After(f, past), future)
    ensures Legal(f, past + future)
    ensures After(f, past + future) == After(After(f, past), future)
    decreases |past|
  {
    if past == [] {
      assert past + future == future;
    } else {
      RunsCompose(Apply(f, past[0]), past[1..], future);
      assert (past + future)[1..] == past[1..] + future;
    }
  }

  // ---------------------------------------------------------------------------
  // No lost wakeup
  // ---------------------------------------------------------------------------

  /** In every interleaving, a watchdog parked after a cancellation has a notification on its way. */
  lemma NoLostWakeup(timeout: nat, steps: seq<Step>)
    requires Legal(Init(timeout), steps)
    ensures var f := After(Init(timeout), steps);
            f.waiter.Parked? && f.cancelled ==> exists id :: NotifyPending(f, id)
  {
    RunKeepsInv(Init(timeout), steps);
  }

  lemma OneStepRun(f: Flag, step: Step)
    requires Enabled(f, step)
    ensures Legal(f, [step]) && After(f, [step]) == Apply(f, step)
  {
    var g := Apply(f, step);
    var run := [step];
    assert run[0] == step && run[1..] == [];
    assert Legal(g, run[1..]) && After(g, run[1..]) == g;
  }

  /** A pending notification can always be delivered, and its delivery leaves nobody parked. */
  lemma PendingNotifyWakes(timeout: nat, steps: seq<Step>, id: nat)
    requires Legal(Init(timeout), steps)
    requires NotifyPending(After(Init(timeout), steps), id)
    ensures var f := After(Init(timeout), steps);
            var toNotify := if f.callers[id] == Stored then [Unlock(id), Notify(id)] else [Notify(id)];
            Legal(f, toNotify) && !After(f, toNotify).waiter.Parked?
  {
    RunKeepsInv(Init(timeout), steps);
    var f := After(Init(timeout), steps);
    if f.callers[id] == Stored {
      OneStepRun(f, Unlock(id));
      OneStepRun(After(f, [Unlock(id)]), Notify(id));
      RunsCompose(f, [Unlock(id)], [Notify(id)]);
      assert [Unlock(id)] + [Notify(id)] == [Unlock(id), Notify(id)];
    } else {
      OneStepRun(f, Notify(id));
    }
  }

  // ---------------------------------------------------------------------------
  // The watchdog decides once, and a cancellation that came first wins
  // ---------------------------------------------------------------------------

  /** The flag is set and the watchdog has not decided that the timeout came first. */
  ghost predicate CancelWon(f: Flag) {
    f.cancelled && (f.waiter.Decided? ==> f.waiter.cancelled)
  }

  lemma StepKeepsOutcome(f: Flag, step: Step)
    requires Inv(f) && Enabled(f, step)
    ensures CancelWon(f) ==> CancelWon(Apply(f, step))
    ensures f.waiter.Decided? ==> Apply(f, step).waiter == f.waiter
    ensures f.cancelled ==> Apply(f, step).cancelled
    ensures Apply(f, step).timeout == f.timeout
  {
  }

  lemma {:induction false} RunKeepsOutcome(f: Flag, steps: seq<Step>)
    requires Inv(f) && Legal(f, steps)
    ensures CancelWon(f) ==> CancelWon(After(f, steps))
    ensures f.waiter.Decided? ==> After(f, steps).waiter == f.waiter
    ensures After(f, steps).timeout == f.timeout
    decreases |steps|
  {
    if steps != [] {
      StepKeepsInv(f, steps[0]);
      StepKeepsOutcome(f, steps[0]);
      RunKeepsOutcome(Apply(f, steps[0]), steps[1..]);
    }
  }

  /**
   Split any interleaving in two.  A decision taken in the past is still there; a store that
   precedes the decision makes the decision `cancelled`; and a decision that the timeout came first
   means that more than the whole timeout went by and that the flag was still clear before it.
   */
  lemma DecidesOnce(timeout: nat, past: seq<Step>, future: seq<Step>)
    requires Legal(Init(timeout), past)
    requires Legal(After(Init(timeout), past), future)
    ensures var f := After(Init(timeout), past);
            var g := After(f, future);
            && (f.waiter.Decided? ==> g.waiter == f.waiter)
            && (f.cancelled && !f.waiter.Decided? && g.waiter.Decided? ==> g.waiter.cancelled)
            && (g.waiter.Decided? && !g.waiter.cancelled ==> g.waiter.at - g.waiter.since > timeout)
  {
    var f := After(Init(timeout), past);
    RunKeepsInv(Init(timeout), past);
    RunKeepsOutcome(Init(timeout), past);
    RunKeepsInv(f, future);
    RunKeepsOutcome(f, future);
  }

  // ---------------------------------------------------------------------------
  // A timeout takes the whole timeout, counted from the call
  // ---------------------------------------------------------------------------

  /** The time that goes by in a run. */
  function Elapsed(steps: seq<Step>): nat {
    if steps == [] then 0
    else (if steps[0].Tick? then steps[0].elapsed else 0) + Elapsed(steps[1..])
  }

  lemma {:induction false} ClockRuns(f: Flag, steps: seq<Step>)
    requires Legal(f, steps)
    ensures After(f, steps).now == f.now + Elapsed(steps)
    decreases |steps|
  {
    if steps != [] {
      ClockRuns(Apply(f, steps[0]), steps[1..]);
    }
  }

  /** When the wait in progress began does not change. */
  lemma {:induction false} BeginningStays(f: Flag, steps: seq<Step>)
    requires Legal(f, steps) && !f.waiter.Outside?
    ensures !After(f, steps).waiter.Outside? && After(f, steps).waiter.since == f.waiter.since
    decreases |steps|
  {
    if steps != [] {
      BeginningStays(Apply(f, steps[0]), steps[1..]);
    }
  }

  /**
   From the call of `wait_until_cancelled_or` on, in every interleaving: if it answers that the timeout
   came first, more than the timeout has gone by since the call.
   */
  lemma WaitsWholeTimeout(timeout: nat, past: seq<Step>, future: seq<Step>)
    requires Legal(Init(timeout), past) && Enabled(After(Init(timeout), past), Enter)
    requires Legal(Apply(After(Init(timeout), past), Enter), future)
    ensures var g := After(Apply(After(Init(timeout), past), Enter), future);
            g.waiter.Decided? && !g.waiter.cancelled ==> Elapsed(future) > timeout
  {
    var f := After(Init(timeout), past);
    RunKeepsInv(Init(timeout), past);
    RunKeepsOutcome(Init(timeout), past);
    StepKeepsInv(f, Enter);
    WaitFromHere(Apply(f, Enter), future);
  }

  lemma WaitFromHere(f: Flag, future: seq<Step>)
    requires Inv(f) && !f.waiter.Outside? && f.waiter.since == f.now && !f.waiter.Decided? && Legal(f, future)
    ensures var g := After(f, future);
            g.waiter.Decided? && !g.waiter.cancelled ==> Elapsed(future) > f.timeout
  {
    ClockRuns(f, future);
    BeginningStays(f, future);
    RunKeepsInv(f, future);
    RunKeepsOutcome(f, future);
  }

  /** A decision that the timeout came first comes after a call, and the timeout lies between them. */
  lemma {:induction false} TimeoutFollowsCall(f: Flag, steps: seq<Step>)
    requires Inv(f) && Legal(f, steps) && f.waiter.Outside?
    requires After(f, steps).waiter.Decided? && !After(f, steps).waiter.cancelled
    ensures exists i :: 0 <= i < |steps| && steps[i] == Enter && Elapsed(steps[i + 1..]) > f.timeout
    decreases |steps|
  {
    var g, later := Apply(f, steps[0]), steps[1..];
    StepKeepsInv(f, steps[0]);
    if steps[0] == Enter {
      WaitFromHere(g, later);
      assert steps[0 + 1..] == later;
    } else {
      TimeoutFollowsCall(g, later);
      var i :| 0 <= i < |later| && later[i] == Enter && Elapsed(later[i + 1..]) > g.timeout;
      assert steps[i + 1] == Enter && steps[i + 1 + 1..] == later[i + 1..];
    }
  }

  /** The flag is set by a caller's store and by nothing else. */
  lemma {:induction false} CancelledMeansStored(f: Flag, steps: seq<Step>)
    requires Legal(f, steps)
    ensures After(f, steps).cancelled <==> f.cancelled || exists i :: 0 <= i < |steps| && steps[i].Store?
    decreases |steps|
  {
    if steps != [] {
      var later := steps[1..];
      CancelledMeansStored(Apply(f, steps[0]), later);
      assert forall i :: 0 <= i < |later| ==> later[i] == steps[i + 1];
      if exists i :: 0 <= i < |steps| && steps[i].Store? {
        var i :| 0 <= i < |steps| && steps[i].Store?;
        assert i > 0 ==> later[i - 1] == steps[i];
      }
    }
  }

  // ---------------------------------------------------------------------------
  // A cancellation is prompt
  // ---------------------------------------------------------------------------

  /** The watchdog steps left before it decides, once the flag is set. */
  function StepsLeft(w: Waiter): nat {
    match w
    case Parked(_) => 4
    case Woken(_) => 3
    case Outside => 3
    case Checking(_) => 2
    case Leaving(_) => 1
    case Decided(_, _, _) => 0
  }

  predicate IsWaiterStep(step: Step) {
    step.Enter? || step.Check? || step.Wake? || step.Relock? || step.Leave?
  }

  function CountWaiterSteps(steps: seq<Step>): nat {
    if steps == [] then 0
    else (if IsWaiterStep(steps[0]) then 1 else 0) + CountWaiterSteps(steps[1..])
  }

  lemma {:induction false} CancelledWaiterCountsDown(f: Flag, steps: seq<Step>)
    requires Inv(f) && f.cancelled && Legal(f, steps)
    ensures CountWaiterSteps(steps) + StepsLeft(After(f, steps).waiter) <= StepsLeft(f.waiter)
    decreases |steps|
  {
    if steps != [] {
      var g := Apply(f, steps[0]);
      StepKeepsInv(f, steps[0]);
      assert g.cancelled;
      assert (if IsWaiterStep(steps[0]) then 1 else 0) + StepsLeft(g.waiter) <= StepsLeft(f.waiter);
      CancelledWaiterCountsDown(g, steps[1..]);
    }
  }

  /**
   Once the flag is set the watchdog takes at most four more steps, whatever the interleaving and
   however many spurious wakeups it sees; and when no caller is inside `cancel`, its next step
   needs neither the timer nor a spurious wakeup.
   */
  lemma CancelIsPrompt(timeout: nat, past: seq<Step>, future: seq<Step>)
    requires Legal(Init(timeout), past) && After(Init(timeout), past).cancelled
    requires Legal(After(Init(timeout), past), future)
    ensures CountWaiterSteps(future) <= 4
    ensures var g := After(After(Init(timeout), past), future);
            g.callers == map[] && !g.waiter.Decided? ==>
              exists step :: IsWaiterStep(step) && step != Wake && Enabled(g, step)
  {
    var f := After(Init(timeout), past);
    RunKeepsInv(Init(timeout), past);
    CancelledWaiterCountsDown(f, future);
    RunKeepsInv(f, future);
    RunKeepsOutcome(f, future);
    CancelSticks(f, future);
    var g := After(f, future);
    if g.callers == map[] && !g.waiter.Decided? {
      var step := match g.waiter
        case Outside => Enter
        case Checking(_) => Check
        case Woken(_) => Relock
        case _ => Leave;
      assert forall id :: !NotifyPending(g, id);
      assert Enabled(g, step);
    }
  }

  lemma {:induction false} CancelSticks(f: Flag, steps: seq<Step>)
    requires Legal(f, steps) && f.cancelled
    ensures After(f, steps).cancelled
    decreases |steps|
  {
    if steps != [] {
      CancelSticks(Apply(f, steps[0]), steps[1..]);
    }
  }
}
