/**
 * The agent's poll loop (leaf/agent/agent.go, sync_outcomes.go): a one-slot trigger that `SyncNow`
 * fills, cycles that attempt every sync target, and the report at the end of each cycle.
 */
module PollLoop {
  import opened Common

  datatype SyncError = NoResponders | Canceled | Other | Wrapped(inner: SyncError)

  /** One attempt: which target, and its error if it failed. */
  datatype Attempt = Attempt(target: nat, error: Option<SyncError>)

  datatype Level = Debug | Error

  // ---------- the report of one cycle ----------

  /** `errors.Is` looks through wrapping. */
  predicate Benign(e: SyncError)
  {
    match e
    case NoResponders => true
    case Canceled => true
    case Other => false
    case Wrapped(inner) => Benign(inner)
  }

  /** What an error wraps in the end. */
  function Root(e: SyncError): SyncError
  {
    if e.Wrapped? then Root(e.inner) else e
  }

  lemma {:induction false} BenignByRoot(e: SyncError)
    ensures Benign(e) <==> Root(e) == NoResponders || Root(e) == Canceled
    decreases e
  {
    if e.Wrapped? {
      BenignByRoot(e.inner);
    }
  }

  lemma {:induction false} RootIsBare(e: SyncError)
    ensures !Root(e).Wrapped?
    decreases e
  {
    if e.Wrapped? {
      RootIsBare(e.inner);
    }
  }

  /** The targets that succeeded, in order. */
  function Succeeded(outcomes: seq<Attempt>): seq<nat>
  {
    if outcomes == [] then []
    else
      var last := outcomes[|outcomes| - 1];
      Succeeded(outcomes[..|outcomes| - 1]) + if last.error.None? then [last.target] else []
  }

  /** The levels the failed attempts are logged at, in order. */
  function FailureLevels(outcomes: seq<Attempt>, anySuccess: bool): seq<Level>
  {
    if outcomes == [] then []
    else
      var last := outcomes[|outcomes| - 1];
      FailureLevels(outcomes[..|outcomes| - 1], anySuccess) +
      if last.error.None? then []
      else if anySuccess || Benign(last.error.value) then [Debug] else [Error]
  }

  lemma PrefixSucceeded(outcomes: seq<Attempt>, i: nat)
    requires i < |outcomes|
    ensures Succeeded(outcomes[..i + 1]) ==
      Succeeded(outcomes[..i]) + if outcomes[i].error.None? then [outcomes[i].target] else []
  {
    assert outcomes[..i + 1][..i] == outcomes[..i];
  }

  lemma PrefixLevels(outcomes: seq<Attempt>, i: nat, anySuccess: bool)
    requires i < |outcomes|
    ensures FailureLevels(outcomes[..i + 1], anySuccess) ==
      FailureLevels(outcomes[..i], anySuccess) +
      if outcomes[i].error.None? then []
      else if anySuccess || Benign(outcomes[i].error.value) then [Debug] else [Error]
  {
    assert outcomes[..i + 1][..i] == outcomes[..i];
  }

  /** How many sync targets there are, and whether a post-sync hook is set. */
  datatype Config = Config(targets: nat, hook: bool)

  /** The hook calls for one cycle. */
  function Hooks(c: Config, outcomes: seq<Attempt>): seq<nat>
  {
    if c.hook then Succeeded(outcomes) else []
  }

  /** What one cycle does to the trigger and the hook, and what it attempts. */
  predicate CycleDone(
      c: Config, trigger: bool, hooked: seq<nat>, manual: bool, answers: seq<Option<SyncError>>,
      trigger': bool, hooked': seq<nat>, outcomes: seq<Attempt>)
  {
    && trigger' == (trigger && !manual)
    && |outcomes| == |answers| == c.targets
    && (forall i :: 0 <= i < c.targets ==> outcomes[i] == Attempt(i, answers[i]))
    && hooked' == hooked + Hooks(c, outcomes)
  }

  class Agent {
    const targets: nat
    const hook: bool
    var trigger: bool
    var hooked: seq<nat>
    var logged: seq<Level>

    constructor (targets: nat, hook: bool)
      ensures this.targets == targets && this.hook == hook && !trigger && hooked == [] && logged == []
    {
      this.targets, this.hook := targets, hook;
      trigger, hooked, logged := false, [], [];
    }

    /** Never blocks: a trigger already pending stays the only one. */
    method SyncNow()
      modifies this`trigger
      ensures trigger
    {
      if !trigger {
        trigger := true;
      }
    }

    static method AnySuccess(outcomes: seq<Attempt>) returns (any: bool)
      ensures any <==> Succeeded(outcomes) != []
    {
      any := false;
      for i := 0 to |outcomes|
        invariant !any && Succeeded(outcomes[..i]) == []
      {
        PrefixSucceeded(outcomes, i);
        if outcomes[i].error.None? {
          SucceededSome(outcomes, i);
          any := true;
          break;
        }
      }
      assert outcomes[..|outcomes|] == outcomes;
    }

    method EmitSyncOutcomes(outcomes: seq<Attempt>)
      modifies this`hooked, this`logged
      ensures hooked == old(hooked) + if hook then Succeeded(outcomes) else []
      ensures logged == old(logged) + FailureLevels(outcomes, Succeeded(outcomes) != [])
    {
      var anySuccess := AnySuccess(outcomes);
      assert outcomes[..|outcomes|] == outcomes;
      for i := 0 to |outcomes|
        invariant hooked == old(hooked) + if hook then Succeeded(outcomes[..i]) else []
        invariant logged == old(logged) + FailureLevels(outcomes[..i], anySuccess)
      {
        PrefixSucceeded(outcomes, i);
        PrefixLevels(outcomes, i, anySuccess);
        var o := outcomes[i];
        if o.error.Some? {
          var level := if anySuccess || Benign(o.error.value) then Debug else Error;
          logged := logged + [level];
          continue;
        }
        if hook {
          hooked := hooked + [o.target];
        }
      }
    }

    /** One cycle that is not skipped: every target once, in order, then the report. A manual cycle
        has taken the trigger. */
    method Cycle(manual: bool, answers: seq<Option<SyncError>>) returns (outcomes: seq<Attempt>)
      requires |answers| == targets
      modifies this
      ensures CycleDone(Config(targets, hook), old(trigger), old(hooked), manual, answers, trigger, hooked, outcomes)
      ensures logged == old(logged) + FailureLevels(outcomes, Succeeded(outcomes) != [])
    {
      if manual {
        trigger := false;
      }
      outcomes := [];
      for i := 0 to targets
        invariant |outcomes| == i && forall j :: 0 <= j < i ==> outcomes[j] == Attempt(j, answers[j])
      {
        outcomes := outcomes + [Attempt(i, answers[i])];
      }
      EmitSyncOutcomes(outcomes);
    }
  }

  lemma {:induction false} SucceededSome(outcomes: seq<Attempt>, i: nat)
    requires i < |outcomes| && outcomes[i].error.None?
    ensures Succeeded(outcomes) != []
    decreases |outcomes|
  {
    if i < |outcomes| - 1 {
      SucceededSome(outcomes[..|outcomes| - 1], i);
    }
  }

  /** When the targets are attempted in order, the hook is called for exactly those without an error, each
      once and in order. */
  lemma {:induction false} HookedTargets(outcomes: seq<Attempt>)
    requires forall i :: 0 <= i < |outcomes| ==> outcomes[i].target == i
    ensures forall t: nat :: t in Succeeded(outcomes) <==> t < |outcomes| && outcomes[t].error.None?
    ensures forall i, j :: 0 <= i < j < |Succeeded(outcomes)| ==> Succeeded(outcomes)[i] < Succeeded(outcomes)[j]
    decreases |outcomes|
  {
    if outcomes != [] {
      var init := outcomes[..|outcomes| - 1];
      HookedTargets(init);
      var s := Succeeded(init);
      assert forall i :: 0 <= i < |s| ==> s[i] in s;
      assert forall t: nat :: t < |init| ==> init[t] == outcomes[t];
    }
  }

  /** Each attempt's log entry: none for a success; a failure is an error unless another target
      succeeded or what it wraps in the end is a cancellation or a lack of responders. */
  lemma LevelOf(outcomes: seq<Attempt>, a: Attempt, anySuccess: bool)
    ensures FailureLevels(outcomes + [a], anySuccess) == FailureLevels(outcomes, anySuccess) +
      match a.error
      case None => []
      case Some(e) => if anySuccess || Root(e) == NoResponders || Root(e) == Canceled then [Debug] else [Error]
  {
    assert (outcomes + [a])[..|outcomes|] == outcomes;
    if a.error.Some? {
      BenignByRoot(a.error.value);
    }
  }

  /** A failure is logged as an error exactly when the whole cycle failed and it is not benign. */
  lemma {:induction false} ErrorsMeanTheCycleFailed(outcomes: seq<Attempt>)
    ensures var levels := FailureLevels(outcomes, Succeeded(outcomes) != []);
      Error in levels <==>
        (forall i :: 0 <= i < |outcomes| ==> outcomes[i].error.Some?) &&
        exists i :: 0 <= i < |outcomes| && outcomes[i].error.Some? && Root(outcomes[i].error.value) == Other
  {
    LevelsHaveError(outcomes, Succeeded(outcomes) != []);
    forall i | 0 <= i < |outcomes| && outcomes[i].error.Some?
      ensures Benign(outcomes[i].error.value) <==> Root(outcomes[i].error.value) != Other
    {
      BenignByRoot(outcomes[i].error.value);
      RootIsBare(outcomes[i].error.value);
    }
    if forall i :: 0 <= i < |outcomes| ==> outcomes[i].error.Some? {
      NoneSucceeded(outcomes);
    } else {
      var i :| 0 <= i < |outcomes| && outcomes[i].error.None?;
      SucceededSome(outcomes, i);
    }
  }

  lemma {:induction false} NoneSucceeded(outcomes: seq<Attempt>)
    requires forall i :: 0 <= i < |outcomes| ==> outcomes[i].error.Some?
    ensures Succeeded(outcomes) == []
    decreases |outcomes|
  {
    if outcomes != [] {
      NoneSucceeded(outcomes[..|outcomes| - 1]);
    }
  }

  lemma {:induction false} LevelsHaveError(outcomes: seq<Attempt>, any: bool)
    ensures Error in FailureLevels(outcomes, any) <==>
      !any && exists i :: 0 <= i < |outcomes| && outcomes[i].error.Some? && !Benign(outcomes[i].error.value)
    decreases |outcomes|
  {
    if outcomes != [] {
      var init := outcomes[..|outcomes| - 1];
      LevelsHaveError(init, any);
      assert forall i :: 0 <= i < |init| ==> init[i] == outcomes[i];
    }
  }

  // ---------- the loop and its callers ----------

  datatype Phase = Selecting | Syncing(outcomes: seq<Attempt>) | Stopped

  /** A `SyncNow` call: how many cycles had begun before it, and the manual cycle that took its
      trigger, if one has. */
  datatype Call = Call(begunBefore: nat, servedBy: Option<nat>)

  datatype State = State(
    trigger: bool, phase: Phase, cancelled: bool,
    // history
    calls: seq<Call>,
    cycles: seq<seq<Attempt>>,     // outcomes of the finished cycles
    begun: nat, manual: nat,
    hooked: seq<nat>)

  const START := State(false, Selecting, false, [], [], 0, 0, [])

  datatype Step =
    | SyncNow | Cancel
    | TakeDone | TakeTimer(skipped: bool) | TakeTrigger
    | Sync(error: Option<SyncError>) | Report

  predicate Enabled(c: Config, s: State, st: Step)
  {
    match st
    case SyncNow => true
    case Cancel => true
    case TakeDone => s.phase.Selecting? && s.cancelled
    case TakeTimer(_) => s.phase.Selecting?
    case TakeTrigger => s.phase.Selecting? && s.trigger
    case Sync(_) => s.phase.Syncing? && |s.phase.outcomes| < c.targets
    case Report => s.phase.Syncing? && |s.phase.outcomes| == c.targets
  }

  function Serve(calls: seq<Call>, cycle: nat): seq<Call>
  {
    if calls == [] then []
    else
      var last := calls[|calls| - 1];
      Serve(calls[..|calls| - 1], cycle) + [Served(last, cycle)]
  }

  function Served(c: Call, cycle: nat): Call
  {
    if c.servedBy.None? then c.(servedBy := Some(cycle)) else c
  }

  function Next(c: Config, s: State, st: Step): State
    requires Enabled(c, s, st)
  {
    match st
    case SyncNow => s.(trigger := true, calls := s.calls + [Call(s.begun, None)])
    case Cancel => s.(cancelled := true)
    case TakeDone => s.(phase := Stopped)
    case TakeTimer(skipped) => if skipped then s else s.(phase := Syncing([]), begun := s.begun + 1)
    case TakeTrigger =>
      s.(trigger := false, phase := Syncing([]), begun := s.begun + 1, manual := s.manual + 1,
         calls := Serve(s.calls, s.begun))
    case Sync(e) => s.(phase := Syncing(s.phase.outcomes + [Attempt(|s.phase.outcomes|, e)]))
    case Report =>
      s.(phase := Selecting, cycles := s.cycles + [s.phase.outcomes], hooked := s.hooked + Hooks(c, s.phase.outcomes))
  }

  predicate Runnable(c: Config, s: State, steps: seq<Step>)
    decreases |steps|
  {
    steps == [] || (Enabled(c, s, steps[0]) && Runnable(c, Next(c, s, steps[0]), steps[1..]))
  }

  function Run(c: Config, s: State, steps: seq<Step>): State
    requires Runnable(c, s, steps)
    decreases |steps|
  {
    if steps == [] then s else Run(c, Next(c, s, steps[0]), steps[1..])
  }

  ghost predicate InOrder(outcomes: seq<Attempt>)
  {
    forall i :: 0 <= i < |outcomes| ==> outcomes[i].target == i
  }

  function AllHooked(c: Config, cycles: seq<seq<Attempt>>): seq<nat>
  {
    if cycles == [] then [] else AllHooked(c, cycles[..|cycles| - 1]) + Hooks(c, cycles[|cycles| - 1])
  }

  ghost predicate CallInv(s: State, c: Call)
  {
    && c.begunBefore <= s.begun
    && (c.servedBy.None? ==> s.trigger)
    && (c.servedBy.Some? ==> c.begunBefore <= c.servedBy.value < s.begun)
  }

  ghost predicate Inv(c: Config, s: State)
  {
    && (forall i :: 0 <= i < |s.calls| ==> CallInv(s, s.calls[i]))
    && (s.trigger ==> s.calls != [] && s.calls[|s.calls| - 1].servedBy.None?)
    && s.manual + (if s.trigger then 1 else 0) <= |s.calls|
    && s.manual <= s.begun
    && s.begun == |s.cycles| + (if s.phase.Syncing? then 1 else 0)
    && (forall k :: 0 <= k < |s.cycles| ==> |s.cycles[k]| == c.targets && InOrder(s.cycles[k]))
    && (s.phase.Syncing? ==> |s.phase.outcomes| <= c.targets && InOrder(s.phase.outcomes))
    && s.hooked == AllHooked(c, s.cycles)
  }

  lemma {:induction false} ServeServes(calls: seq<Call>, cycle: nat)
    ensures |Serve(calls, cycle)| == |calls|
    ensures forall i :: 0 <= i < |calls| ==> Serve(calls, cycle)[i] == Served(calls[i], cycle)
    decreases |calls|
  {
    if calls != [] {
      ServeServes(calls[..|calls| - 1], cycle);
    }
  }

  lemma StepKeeps(c: Config, s: State, st: Step)
    requires Inv(c, s) && Enabled(c, s, st)
    ensures Inv(c, Next(c, s, st))
  {
    match st
    case SyncNow =>
      var t := Next(c, s, st);
      forall i | 0 <= i < |t.calls| ensures CallInv(t, t.calls[i]) {
        if i < |s.calls| {
          assert CallInv(s, s.calls[i]);
        }
      }
    case Cancel =>
    case TakeDone =>
    case TakeTimer(_) =>
    case TakeTrigger =>
      ServeServes(s.calls, s.begun);
      assert forall i :: 0 <= i < |s.calls| ==> CallInv(s, s.calls[i]);
    case Sync(_) =>
    case Report =>
      assert (s.cycles + [s.phase.outcomes])[..|s.cycles|] == s.cycles;
  }

  lemma {:induction false} RunKeeps(c: Config, s: State, steps: seq<Step>)
    requires Inv(c, s) && Runnable(c, s, steps)
    ensures Inv(c, Run(c, s, steps))
    decreases |steps|
  {
    if steps != [] {
      StepKeeps(c, s, steps[0]);
      RunKeeps(c, Next(c, s, steps[0]), steps[1..]);
    }
  }

  /**
   * No `SyncNow` call is lost: after any run each call either still has its trigger pending, or was
   * taken by a cycle that began after the call; and every finished cycle attempted each target once,
   * in order.
   */
  lemma NoCallIsLost(c: Config, steps: seq<Step>, i: nat)
    requires Runnable(c, START, steps) && i < |Run(c, START, steps).calls|
    ensures var t := Run(c, START, steps);
      var call := t.calls[i];
      if call.servedBy.None? then t.trigger
      else
        && call.begunBefore <= call.servedBy.value < t.begun
        && (call.servedBy.value < |t.cycles| ==>
              |t.cycles[call.servedBy.value]| == c.targets && InOrder(t.cycles[call.servedBy.value]))
  {
    RunKeeps(c, START, steps);
    assert CallInv(Run(c, START, steps), Run(c, START, steps).calls[i]);
  }

  /** While the loop selects, a pending trigger can be taken, and that serves every waiting call. */
  lemma PendingCanBeServed(c: Config, steps: seq<Step>, i: nat)
    requires Runnable(c, START, steps) && i < |Run(c, START, steps).calls|
    requires var t := Run(c, START, steps); t.phase.Selecting? && t.calls[i].servedBy.None?
    ensures var t := Run(c, START, steps);
      && Enabled(c, t, TakeTrigger)
      && i < |Next(c, t, TakeTrigger).calls|
      && Next(c, t, TakeTrigger).calls[i].servedBy == Some(t.begun)
  {
    NoCallIsLost(c, steps, i);
    ServeServes(Run(c, START, steps).calls, Run(c, START, steps).begun);
  }

  /** A pending trigger goes away only by a manual cycle that begins and takes it. */
  lemma {:induction false} TriggerClearedOnlyByCycle(c: Config, s: State, steps: seq<Step>)
    requires Runnable(c, s, steps) && s.trigger
    ensures var t := Run(c, s, steps);
      && s.manual <= t.manual && s.begun <= t.begun
      && (!t.trigger ==> s.manual < t.manual && s.begun < t.begun)
      && (TakeTrigger !in steps ==> t.trigger)
    decreases |steps|
  {
    if steps != [] {
      var s' := Next(c, s, steps[0]);
      if s'.trigger {
        TriggerClearedOnlyByCycle(c, s', steps[1..]);
      } else {
        assert steps[0] == TakeTrigger;
        CountsGrow(c, s', steps[1..]);
      }
    }
  }

  lemma {:induction false} CountsGrow(c: Config, s: State, steps: seq<Step>)
    requires Runnable(c, s, steps)
    ensures s.manual <= Run(c, s, steps).manual && s.begun <= Run(c, s, steps).begun
    decreases |steps|
  {
    if steps != [] {
      CountsGrow(c, Next(c, s, steps[0]), steps[1..]);
    }
  }

  /** Manual cycles never outnumber calls, and the hook has run exactly once for each success of each
      finished cycle, in order. */
  lemma CyclesAndHooks(c: Config, steps: seq<Step>)
    requires Runnable(c, START, steps)
    ensures var t := Run(c, START, steps);
      && t.manual + (if t.trigger then 1 else 0) <= |t.calls|
      && t.hooked == AllHooked(c, t.cycles)
  {
    RunKeeps(c, START, steps);
  }

  /** A cancelled loop can stop whenever it selects, which attempts and hooks nothing more. */
  lemma CancelStops(c: Config, s: State)
    requires s.phase.Selecting? && s.cancelled
    ensures Enabled(c, s, TakeDone) && Next(c, s, TakeDone) == s.(phase := Stopped)
  {
  }

  /** A timer tick that is skipped does nothing; one that is not begins a cycle and leaves the trigger. */
  lemma TimerTicks(c: Config, s: State)
    requires s.phase.Selecting?
    ensures Enabled(c, s, TakeTimer(true)) && Next(c, s, TakeTimer(true)) == s
    ensures Enabled(c, s, TakeTimer(false))
    ensures Next(c, s, TakeTimer(false)) == s.(phase := Syncing([]), begun := s.begun + 1)
  {
  }

  /** And a stopped loop stays stopped, whoever calls `SyncNow`. */
  lemma {:induction false} StoppedStays(c: Config, s: State, steps: seq<Step>)
    requires Runnable(c, s, steps) && s.phase.Stopped?
    ensures var t := Run(c, s, steps);
      t.phase.Stopped? && t.cycles == s.cycles && t.begun == s.begun && t.hooked == s.hooked
    decreases |steps|
  {
    if steps != [] {
      StoppedStays(c, Next(c, s, steps[0]), steps[1..]);
    }
  }

  // ---------- the agent's cycle as a run ----------

  lemma {:induction false} RunSplit(c: Config, s: State, a: seq<Step>, b: seq<Step>)
    requires Runnable(c, s, a) && Runnable(c, Run(c, s, a), b)
    ensures Runnable(c, s, a + b) && Run(c, s, a + b) == Run(c, Run(c, s, a), b)
    decreases |a|
  {
    if a == [] {
      assert a + b == b;
    } else {
      RunSplit(c, Next(c, s, a[0]), a[1..], b);
      assert (a + b)[1..] == a[1..] + b;
    }
  }

  function Syncs(answers: seq<Option<SyncError>>): seq<Step>
  {
    if answers == [] then [] else Syncs(answers[..|answers| - 1]) + [Sync(answers[|answers| - 1])]
  }

  /** One attempt at each target, in order, with these answers. */
  function Attempts(answers: seq<Option<SyncError>>): (outcomes: seq<Attempt>)
    ensures |outcomes| == |answers| && forall i :: 0 <= i < |answers| ==> outcomes[i] == Attempt(i, answers[i])
  {
    seq(|answers|, i requires 0 <= i < |answers| => Attempt(i, answers[i]))
  }

  lemma SingleStep(c: Config, s: State, st: Step)
    requires Enabled(c, s, st)
    ensures Runnable(c, s, [st]) && Run(c, s, [st]) == Next(c, s, st)
  {
    assert [st][1..] == [];
    assert Runnable(c, Next(c, s, st), []);
  }

  lemma {:induction false} SyncsAreRun(c: Config, s: State, answers: seq<Option<SyncError>>)
    requires s.phase == Syncing([]) && |answers| <= c.targets
    ensures Runnable(c, s, Syncs(answers))
    ensures Run(c, s, Syncs(answers)) == s.(phase := Syncing(Attempts(answers)))
    decreases |answers|
  {
    if answers == [] {
      assert Attempts(answers) == [];
    } else {
      var init, last := answers[..|answers| - 1], answers[|answers| - 1];
      SyncsAreRun(c, s, init);
      var t := Run(c, s, Syncs(init));
      SingleStep(c, t, Sync(last));
      RunSplit(c, s, Syncs(init), [Sync(last)]);
      assert Attempts(answers) == Attempts(init) + [Attempt(|init|, last)];
    }
  }

  /** The agent's cycle is a run of the loop from one selection to the next: the same trigger, the
      same attempts, and the hook called for the same successes. */
  lemma CycleIsRun(c: Config, s: State, manual: bool, answers: seq<Option<SyncError>>) returns (steps: seq<Step>)
    requires s.phase.Selecting? && (manual ==> s.trigger) && |answers| == c.targets
    ensures Runnable(c, s, steps)
    ensures var t := Run(c, s, steps);
      && t.phase.Selecting?
      && CycleDone(c, s.trigger, s.hooked, manual, answers, t.trigger, t.hooked, Attempts(answers))
      && t.cycles == s.cycles + [Attempts(answers)] && t.begun == s.begun + 1
  {
    var take := if manual then TakeTrigger else TakeTimer(false);
    SingleStep(c, s, take);
    var s1 := Next(c, s, take);
    SyncsAreRun(c, s1, answers);
    var s2 := Run(c, s1, Syncs(answers));
    SingleStep(c, s2, Report);
    RunSplit(c, s, [take], Syncs(answers));
    RunSplit(c, s, [take] + Syncs(answers), [Report]);
    steps := [take] + Syncs(answers) + [Report];
  }
}
