/** The orchestrator: one gated transition at a time, and `runAll` under a ceiling. */
module GoalOrchestrator {
  import opened Wrappers
  import opened Texts
  import opened Plans
  import opened GoalStore

  const DEFAULT_STEP_CEILING := 10

  datatype NoopReason =
    | GoalNotFound
    | GoalIsCancelled
    | GoalIsFailed
    | GoalNotApproved
    | PlanNotFound
    | PlanIsCancelled
    | PlanNotApproved
    | AllRunnableStepsAreGated
    | NoRunnableStep
    | FailedToBlock
    | FailedToMarkRunning

  datatype AdvanceResult =
    | Noop(reason: NoopReason)
    | StepCompleted(stepId: Text, kind: Kind, index: int, output: Option<Text>)
    | StepGated(stepId: Text, kind: Kind, index: int)
    | StepFailed(stepId: Text, kind: Kind, index: int, failureReason: Text)
    | TierViolation(stepId: Text, index: int, tier: Tier, permitted: seq<Tier>)
    | CeilingReached(stepCeiling: int)
    | PlanCompleted

  /** `simulateFailure` takes effect when it is not empty. */
  datatype StepOptions = StepOptions(simulateFailure: Text, output: Option<Text>)

  datatype Advanced = Advanced(store: Store, stepsRun: int, result: AdvanceResult)

  function FirstFailed(steps: seq<PlanStep>, from: nat): (k: nat)
    requires from <= |steps|
    ensures from <= k <= |steps|
    ensures forall i :: from <= i < k ==> steps[i].status != Failed
    ensures k < |steps| ==> steps[k].status == Failed
    decreases |steps| - from
  {
    if from == |steps| || steps[from].status == Failed then from else FirstFailed(steps, from + 1)
  }

  predicate AwaitsGate(st: PlanStep) {
    st.status == BlockedNeedsGate || (st.status == Pending && st.isStateMutating)
  }

  // Steps 1 to 3 of `advance`: why it stops before looking for a step.
  function Stopped(s: Store, goalId: Text): Option<AdvanceResult> {
    if goalId !in s.goals then Some(Noop(GoalNotFound))
    else if s.goals[goalId] == GoalCancelled then Some(Noop(GoalIsCancelled))
    else if s.goals[goalId] == GoalDone then Some(PlanCompleted)
    else if s.goals[goalId] == GoalFailed then Some(Noop(GoalIsFailed))
    else if s.goals[goalId] != GoalApproved && s.goals[goalId] != GoalExecuting then Some(Noop(GoalNotApproved))
    else
      var p := PlanOf(s, goalId);
      if p.None? then Some(Noop(PlanNotFound))
      else if p.value.status == PlanCancelled then Some(Noop(PlanIsCancelled))
      else if p.value.status == PlanDone then Some(PlanCompleted)
      else if !Active(p.value.status) then Some(Noop(PlanNotApproved))
      else
        var k := FirstFailed(p.value.steps, 0);
        if k < |p.value.steps| then
          var f := p.value.steps[k];
          Some(StepFailed(f.id, f.kind, f.index, OrElse(f.failureReason, Ascii("unknown"))))
        else None
  }

  function NothingRunnable(p: StoredPlan): AdvanceResult {
    if AllDone(p.steps) then PlanCompleted
    else if exists i :: 0 <= i < |p.steps| && AwaitsGate(p.steps[i]) then Noop(AllRunnableStepsAreGated)
    else Noop(NoRunnableStep)
  }

  /** One call of `advance`, for an orchestrator with this ceiling that has run `stepsRun` steps. */
  function Advance(s: Store, goalId: Text, stepsRun: int, stepCeiling: int, opts: StepOptions): Advanced {
    var stopped := Stopped(s, goalId);
    if stopped.Some? then Advanced(s, stepsRun, stopped.value)
    else
      var plan := PlanOf(s, goalId).value;
      var found := NextRunnable(s, goalId);
      if found.None? then Advanced(s, stepsRun, NothingRunnable(plan))
      else
        var next := found.value;
        if stepsRun >= stepCeiling then Advanced(s, stepsRun, CeilingReached(stepCeiling))
        else if next.tier !in plan.permittedTiers then
          Advanced(s, stepsRun, TierViolation(next.id, next.index, next.tier, plan.permittedTiers))
        else if next.isStateMutating && next.status == Pending then
          if MoveHappens(s, goalId, next.id, BlockForGate) then
            Advanced(AfterMove(s, goalId, next.id, BlockForGate), stepsRun, StepGated(next.id, next.kind, next.index))
          else Advanced(s, stepsRun, Noop(FailedToBlock))
        else if !MoveHappens(s, goalId, next.id, MarkRunning) then Advanced(s, stepsRun, Noop(FailedToMarkRunning))
        else
          var running := AfterMove(s, goalId, next.id, MarkRunning);
          if opts.simulateFailure != [] then
            Advanced(AfterMove(running, goalId, next.id, Fail(opts.simulateFailure)), stepsRun + 1,
                     StepFailed(next.id, next.kind, next.index, opts.simulateFailure))
          else
            Advanced(AfterMove(running, goalId, next.id, Complete(opts.output)), stepsRun + 1,
                     StepCompleted(next.id, next.kind, next.index, opts.output))
  }

  // ---- When an advance does what ----

  /** The goal and its plan let steps run, and no step has failed. */
  ghost predicate Ready(s: Store, goalId: Text) {
    && goalId in s.goals && s.goals[goalId] in {GoalApproved, GoalExecuting}
    && PlanOf(s, goalId).Some? && PlanOf(s, goalId).value.status in {PlanApproved, PlanExecuting}
    && forall i :: 0 <= i < |PlanOf(s, goalId).value.steps| ==> PlanOf(s, goalId).value.steps[i].status != Failed
  }

  predicate MayRun(st: PlanStep) {
    st.status in {Pending, GatedApproved}
  }

  /** The next step to run: of least index among those that may, and the earliest of them. */
  ghost predicate NextAt(steps: seq<PlanStep>, k: nat) {
    && k < |steps| && MayRun(steps[k])
    && forall i :: 0 <= i < |steps| && MayRun(steps[i]) ==>
         steps[k].index < steps[i].index || (steps[k].index == steps[i].index && k <= i)
  }

  /** Unless the goal is ready, nothing happens, and the result says why. */
  lemma StoppedExactly(s: Store, goalId: Text, stepsRun: int, stepCeiling: int, opts: StepOptions)
    ensures var a := Advance(s, goalId, stepsRun, stepCeiling, opts);
            !Ready(s, goalId) ==>
              && a.store == s && a.stepsRun == stepsRun
              && (a.result == Noop(GoalNotFound) <==> goalId !in s.goals)
              && (goalId in s.goals ==>
                    var g, p := s.goals[goalId], PlanOf(s, goalId);
                    && (a.result == Noop(GoalIsCancelled) <==> g == GoalCancelled)
                    && (a.result == Noop(GoalIsFailed) <==> g == GoalFailed)
                    && (a.result == Noop(GoalNotApproved) <==> g in {GoalDraft, GoalPlanned, GoalPaused})
                    && (g in {GoalApproved, GoalExecuting} ==>
                          && (a.result == Noop(PlanNotFound) <==> p.None?)
                          && (p.Some? ==>
                                && (a.result == Noop(PlanIsCancelled) <==> p.value.status == PlanCancelled)
                                && (a.result == Noop(PlanNotApproved) <==>
                                      p.value.status in {PlanDraft, PlanAwaitingApproval, PlanPaused})))
                    && (a.result == PlanCompleted <==>
                          g == GoalDone || (g in {GoalApproved, GoalExecuting} && p.Some? && p.value.status == PlanDone)))
  {
  }

  /** A failed step stops everything after it: the first one is reported again and nothing runs. */
  lemma FailedStops(s: Store, goalId: Text, stepsRun: int, stepCeiling: int, opts: StepOptions, k: nat)
    requires goalId in s.goals && s.goals[goalId] in {GoalApproved, GoalExecuting}
    requires PlanOf(s, goalId).Some? && PlanOf(s, goalId).value.status in {PlanApproved, PlanExecuting}
    requires k < |PlanOf(s, goalId).value.steps| && PlanOf(s, goalId).value.steps[k].status == Failed
    requires forall i :: 0 <= i < k ==> PlanOf(s, goalId).value.steps[i].status != Failed
    ensures var st := PlanOf(s, goalId).value.steps[k];
            Advance(s, goalId, stepsRun, stepCeiling, opts) ==
              Advanced(s, stepsRun, StepFailed(st.id, st.kind, st.index,
                                               if st.failureReason.Some? then st.failureReason.value else Ascii("unknown")))
  {
  }

  /** Ready, but no step may run: the plan is complete, waits for a gate, or is stuck. */
  lemma NothingToRun(s: Store, goalId: Text, stepsRun: int, stepCeiling: int, opts: StepOptions)
    requires Ready(s, goalId) && forall i :: 0 <= i < |PlanOf(s, goalId).value.steps| ==> !MayRun(PlanOf(s, goalId).value.steps[i])
    ensures var a := Advance(s, goalId, stepsRun, stepCeiling, opts);
            var steps := PlanOf(s, goalId).value.steps;
            && a.store == s && a.stepsRun == stepsRun
            && (a.result == PlanCompleted <==> forall i :: 0 <= i < |steps| ==> steps[i].status == Done)
            && (a.result == Noop(AllRunnableStepsAreGated) <==> exists i :: 0 <= i < |steps| && steps[i].status == BlockedNeedsGate)
            && (a.result in {PlanCompleted, Noop(AllRunnableStepsAreGated), Noop(NoRunnableStep)})
  {
    NothingRunnableExactly(PlanOf(s, goalId).value);
  }

  lemma NothingRunnableExactly(p: StoredPlan)
    requires forall i :: 0 <= i < |p.steps| ==> !MayRun(p.steps[i])
    ensures NothingRunnable(p) == PlanCompleted <==> forall i :: 0 <= i < |p.steps| ==> p.steps[i].status == Done
    ensures NothingRunnable(p) == Noop(AllRunnableStepsAreGated) <==>
              exists i :: 0 <= i < |p.steps| && p.steps[i].status == BlockedNeedsGate
    ensures NothingRunnable(p) in {PlanCompleted, Noop(AllRunnableStepsAreGated), Noop(NoRunnableStep)}
  {
    if i :| 0 <= i < |p.steps| && p.steps[i].status == BlockedNeedsGate {
      assert AwaitsGate(p.steps[i]);
    }
    if i :| 0 <= i < |p.steps| && AwaitsGate(p.steps[i]) {
      assert !MayRun(p.steps[i]);
    }
  }

  /** Ready, with a step to run: under the ceiling and within the plan's tiers it is blocked for its gate if it changes state and
      has not passed it, and otherwise run, to the end or to the failure asked for. */
  lemma AdvanceExactly(s: Store, goalId: Text, stepsRun: int, stepCeiling: int, opts: StepOptions, k: nat)
    requires Ready(s, goalId) && NextAt(PlanOf(s, goalId).value.steps, k)
    ensures var a := Advance(s, goalId, stepsRun, stepCeiling, opts);
            var p := PlanOf(s, goalId).value;
            var st := p.steps[k];
            if stepsRun >= stepCeiling then a == Advanced(s, stepsRun, CeilingReached(stepCeiling))
            else if st.tier !in p.permittedTiers then
              a == Advanced(s, stepsRun, TierViolation(st.id, st.index, st.tier, p.permittedTiers))
            else if st.status == Pending && st.isStateMutating then
              && a.stepsRun == stepsRun && a.store == AfterMove(s, goalId, st.id, BlockForGate)
              && a.result == if MoveHappens(s, goalId, st.id, BlockForGate) then StepGated(st.id, st.kind, st.index)
                             else Noop(FailedToBlock)
            else if !MoveHappens(s, goalId, st.id, MarkRunning) then a == Advanced(s, stepsRun, Noop(FailedToMarkRunning))
            else
              var last := if opts.simulateFailure != [] then Fail(opts.simulateFailure) else Complete(opts.output);
              && a.stepsRun == stepsRun + 1 && a.store == AfterMove(AfterMove(s, goalId, st.id, MarkRunning), goalId, st.id, last)
              && a.result == if last.Fail? then StepFailed(st.id, st.kind, st.index, last.reason)
                             else StepCompleted(st.id, st.kind, st.index, last.output)
  {
    var p := PlanOf(s, goalId).value;
    var j := LeastRunnable(p.steps, |p.steps|);
    assert Runnable(p.steps[k]);
    assert MayRun(p.steps[j.value]);
    assert j == Some(k);
  }

  datatype Trace = Trace(store: Store, stepsRun: int, results: seq<AdvanceResult>)

  /** `advance` for this goal, ceiling and options. */
  function Stepper(goalId: Text, stepCeiling: int, opts: StepOptions): (Store, int) -> Advanced {
    (s, stepsRun) => Advance(s, goalId, stepsRun, stepCeiling, opts)
  }

  // Up to `n` steps, stopping after the first result that is not a completed step.
  function Loop(step: (Store, int) -> Advanced, s: Store, stepsRun: int, n: nat): Trace
    decreases n
  {
    if n == 0 then Trace(s, stepsRun, [])
    else
      var a := step(s, stepsRun);
      if !a.result.StepCompleted? then Trace(a.store, a.stepsRun, [a.result])
      else
        var rest := Loop(step, a.store, a.stepsRun, n - 1);
        rest.(results := [a.result] + rest.results)
  }

  /** Up to `n` advances, stopping after the first result that is not a completed step. */
  function AdvanceAll(s: Store, goalId: Text, stepsRun: int, stepCeiling: int, opts: StepOptions, n: nat): Trace {
    Loop(Stepper(goalId, stepCeiling, opts), s, stepsRun, n)
  }

  function LoopBound(stepCeiling: int): nat {
    if stepCeiling <= 0 then 0 else stepCeiling * 2
  }

  lemma AdvanceCounts(s: Store, goalId: Text, stepsRun: int, stepCeiling: int, opts: StepOptions)
    ensures var a := Advance(s, goalId, stepsRun, stepCeiling, opts);
            && (a.stepsRun == stepsRun || (a.stepsRun == stepsRun + 1 && stepsRun < stepCeiling))
            && (a.result.StepCompleted? ==> a.stepsRun == stepsRun + 1)
  {
  }

  function Room(stepCeiling: int): nat {
    if stepCeiling <= 0 then 0 else stepCeiling
  }

  /** Every result but the last is a completed step, there are at most as many results as steps left under the ceiling
      plus one, the counter never passes the ceiling, and the last result is a completed step only if the loop
      bound `n` cut the run off. */
  ghost predicate EndsWell(t: Trace, stepsRun: int, limit: int, n: nat) {
    && (forall i :: 0 <= i < |t.results| - 1 ==> t.results[i].StepCompleted?)
    && |t.results| <= limit - stepsRun + 1
    && stepsRun <= t.stepsRun <= limit
    && (t.results == [] <==> n == 0)
    && (t.results != [] && t.results[|t.results| - 1].StepCompleted? ==> n <= limit - stepsRun)
  }

  // A step counts what it completes, and nothing past the limit.
  ghost predicate Counts(step: (Store, int) -> Advanced, limit: int) {
    forall s, stepsRun ::
      var a := step(s, stepsRun);
      && (a.stepsRun == stepsRun || (a.stepsRun == stepsRun + 1 && stepsRun < limit))
      && (a.result.StepCompleted? ==> a.stepsRun == stepsRun + 1)
  }

  lemma {:induction false} LoopEnds(step: (Store, int) -> Advanced, s: Store, stepsRun: int, limit: int, n: nat)
    requires Counts(step, limit) && stepsRun <= limit
    ensures EndsWell(Loop(step, s, stepsRun, n), stepsRun, limit, n)
    decreases n
  {
    if n > 0 {
      var a := step(s, stepsRun);
      if a.result.StepCompleted? {
        LoopEnds(step, a.store, a.stepsRun, limit, n - 1);
        Prepended(a.result, Loop(step, a.store, a.stepsRun, n - 1), stepsRun, limit, n - 1);
      }
    }
  }

  /** `runAll` ends by itself, whatever the loop bound. */
  lemma RunAllEnds(s: Store, goalId: Text, stepsRun: int, stepCeiling: int, opts: StepOptions, n: nat)
    requires stepsRun <= Room(stepCeiling)
    ensures EndsWell(AdvanceAll(s, goalId, stepsRun, stepCeiling, opts, n), stepsRun, Room(stepCeiling), n)
  {
    StepperCounts(goalId, stepCeiling, opts);
    LoopEnds(Stepper(goalId, stepCeiling, opts), s, stepsRun, Room(stepCeiling), n);
  }

  lemma StepperCounts(goalId: Text, stepCeiling: int, opts: StepOptions)
    ensures Counts(Stepper(goalId, stepCeiling, opts), Room(stepCeiling))
  {
    var step := Stepper(goalId, stepCeiling, opts);
    forall s, stepsRun
      ensures var a := step(s, stepsRun);
              && (a.stepsRun == stepsRun || (a.stepsRun == stepsRun + 1 && stepsRun < Room(stepCeiling)))
              && (a.result.StepCompleted? ==> a.stepsRun == stepsRun + 1)
    {
      AdvanceCounts(s, goalId, stepsRun, stepCeiling, opts);
    }
  }

  /** The store and the counter after `n` steps. */
  function Repeated(step: (Store, int) -> Advanced, s: Store, stepsRun: int, n: nat): (Store, int)
    decreases n
  {
    if n == 0 then (s, stepsRun)
    else
      var a := step(s, stepsRun);
      Repeated(step, a.store, a.stepsRun, n - 1)
  }

  function ResultAfter(step: (Store, int) -> Advanced, before: (Store, int)): AdvanceResult {
    step(before.0, before.1).result
  }

  /** The trace is that of one step after the other, each in the store the one before left. */
  ghost predicate IsRepeated(t: Trace, step: (Store, int) -> Advanced, s: Store, stepsRun: int) {
    && (t.store, t.stepsRun) == Repeated(step, s, stepsRun, |t.results|)
    && forall i :: 0 <= i < |t.results| ==> t.results[i] == ResultAfter(step, Repeated(step, s, stepsRun, i))
  }

  /** `runAll` is `advance` again and again: its results are those of as many advances, and it leaves what they leave. */
  lemma RunAllRepeats(s: Store, goalId: Text, stepsRun: int, stepCeiling: int, opts: StepOptions, n: nat)
    ensures IsRepeated(AdvanceAll(s, goalId, stepsRun, stepCeiling, opts, n), Stepper(goalId, stepCeiling, opts), s, stepsRun)
  {
    LoopRepeats(Stepper(goalId, stepCeiling, opts), s, stepsRun, n);
  }

  lemma {:induction false} LoopRepeats(step: (Store, int) -> Advanced, s: Store, stepsRun: int, n: nat)
    ensures IsRepeated(Loop(step, s, stepsRun, n), step, s, stepsRun)
    decreases n
  {
    if n > 0 {
      var a := step(s, stepsRun);
      if a.result.StepCompleted? {
        LoopRepeats(step, a.store, a.stepsRun, n - 1);
        FirstResult(step, a, Loop(step, a.store, a.stepsRun, n - 1), s, stepsRun);
      } else {
        OneStep(step, a, s, stepsRun);
      }
    }
  }

  lemma OneStep(step: (Store, int) -> Advanced, a: Advanced, s: Store, stepsRun: int)
    requires a == step(s, stepsRun)
    ensures IsRepeated(Trace(a.store, a.stepsRun, [a.result]), step, s, stepsRun)
  {
    assert Repeated(step, s, stepsRun, 1) == Repeated(step, a.store, a.stepsRun, 0);
  }

  lemma FirstResult(step: (Store, int) -> Advanced, a: Advanced, rest: Trace, s: Store, stepsRun: int)
    requires a == step(s, stepsRun) && IsRepeated(rest, step, a.store, a.stepsRun)
    ensures IsRepeated(rest.(results := [a.result] + rest.results), step, s, stepsRun)
  {
    var all := [a.result] + rest.results;
    assert Repeated(step, s, stepsRun, |all|) == Repeated(step, a.store, a.stepsRun, |rest.results|);
    forall i | 0 <= i < |all| ensures all[i] == ResultAfter(step, Repeated(step, s, stepsRun, i)) {
      if i > 0 {
        assert Repeated(step, s, stepsRun, i) == Repeated(step, a.store, a.stepsRun, i - 1);
        assert all[i] == rest.results[i - 1];
      }
    }
  }

  lemma Prepended(r: AdvanceResult, rest: Trace, stepsRun: int, limit: int, n: nat)
    requires r.StepCompleted? && EndsWell(rest, stepsRun + 1, limit, n)
    ensures EndsWell(rest.(results := [r] + rest.results), stepsRun, limit, n + 1)
  {
  }

  /** With a ceiling of at least 1 the loop bound of twice the ceiling never cuts a run off: the last result says why it
      stopped. */
  lemma LoopBoundNeverCutsOff(s: Store, goalId: Text, stepsRun: int, stepCeiling: int, opts: StepOptions)
    requires 0 <= stepsRun <= stepCeiling && stepCeiling >= 1
    ensures var t := AdvanceAll(s, goalId, stepsRun, stepCeiling, opts, LoopBound(stepCeiling));
            t.results != [] && !t.results[|t.results| - 1].StepCompleted?
  {
    RunAllEnds(s, goalId, stepsRun, stepCeiling, opts, LoopBound(stepCeiling));
  }

  class Orchestrator {
    const store: InMemoryGoalStore
    const stepCeiling: int
    var stepsRun: int

    constructor (store: InMemoryGoalStore, stepCeiling: Option<int>)
      ensures this.store == store && this.stepCeiling == OrElse(stepCeiling, DEFAULT_STEP_CEILING) && stepsRun == 0
    {
      this.store := store;
      this.stepCeiling := OrElse(stepCeiling, DEFAULT_STEP_CEILING);
      stepsRun := 0;
    }

    method AdvanceOnce(goalId: Text, opts: StepOptions) returns (result: AdvanceResult)
      requires store.Valid()
      modifies this, store
      ensures store.Valid()
      ensures Advanced(store.State(), stepsRun, result) == Advance(old(store.State()), goalId, old(stepsRun), stepCeiling, opts)
    {
      var stopped := Stopped(store.State(), goalId);
      if stopped.Some? {
        return stopped.value;
      }
      var plan := PlanOf(store.State(), goalId).value;
      var found := NextRunnable(store.State(), goalId);
      if found.None? {
        return NothingRunnable(plan);
      }
      var next := found.value;
      if stepsRun >= stepCeiling {
        return CeilingReached(stepCeiling);
      }
      if next.tier !in plan.permittedTiers {
        return TierViolation(next.id, next.index, next.tier, plan.permittedTiers);
      }
      if next.isStateMutating && next.status == Pending {
        var blocked := store.TransitionStep(goalId, next.id, BlockForGate);
        if blocked.None? {
          return Noop(FailedToBlock);
        }
        return StepGated(next.id, next.kind, next.index);
      }
      var running := store.TransitionStep(goalId, next.id, MarkRunning);
      if running.None? {
        return Noop(FailedToMarkRunning);
      }
      stepsRun := stepsRun + 1;
      if opts.simulateFailure != [] {
        var _ := store.TransitionStep(goalId, next.id, Fail(opts.simulateFailure));
        return StepFailed(next.id, next.kind, next.index, opts.simulateFailure);
      }
      var _ := store.TransitionStep(goalId, next.id, Complete(opts.output));
      return StepCompleted(next.id, next.kind, next.index, opts.output);
    }

    /** One turn of the loop, with up to `n` turns to go. */
    method AdvanceInto(results: seq<AdvanceResult>, goalId: Text, opts: StepOptions, ghost n: nat, ghost whole: Trace)
      returns (r: seq<AdvanceResult>, more: bool)
      requires store.Valid() && n > 0
      requires ToGo(whole, results, store.State(), goalId, stepsRun, stepCeiling, opts, n)
      modifies this, store
      ensures store.Valid()
      ensures more ==> ToGo(whole, r, store.State(), goalId, stepsRun, stepCeiling, opts, n - 1)
      ensures !more ==> whole == Trace(store.State(), stepsRun, r)
    {
      UnrollAdvanceAll(results, store.State(), goalId, stepsRun, stepCeiling, opts, n);
      var result := AdvanceOnce(goalId, opts);
      return results + [result], result.StepCompleted?;
    }

    method RunAll(goalId: Text, opts: StepOptions) returns (results: seq<AdvanceResult>)
      requires store.Valid() && 0 <= stepsRun <= Room(stepCeiling)
      modifies this, store
      ensures store.Valid()
      ensures Trace(store.State(), stepsRun, results)
              == AdvanceAll(old(store.State()), goalId, old(stepsRun), stepCeiling, opts, LoopBound(stepCeiling))
      ensures EndsWell(Trace(store.State(), stepsRun, results), old(stepsRun), Room(stepCeiling), LoopBound(stepCeiling))
    {
      RunAllEnds(store.State(), goalId, stepsRun, stepCeiling, opts, LoopBound(stepCeiling));
      results := Advances(goalId, opts);
    }

    method Advances(goalId: Text, opts: StepOptions) returns (results: seq<AdvanceResult>)
      requires store.Valid()
      modifies this, store
      ensures store.Valid()
      ensures Trace(store.State(), stepsRun, results)
              == AdvanceAll(old(store.State()), goalId, old(stepsRun), stepCeiling, opts, LoopBound(stepCeiling))
    {
      results := [];
      var maxSteps := LoopBound(stepCeiling);
      ghost var whole := AdvanceAll(store.State(), goalId, stepsRun, stepCeiling, opts, maxSteps);
      StartToGo(store.State(), goalId, stepsRun, stepCeiling, opts, maxSteps);
      var more := true;
      var i := 0;
      while i < maxSteps && more
        invariant store.Valid() && i <= maxSteps
        invariant more ==> ToGo(whole, results, store.State(), goalId, stepsRun, stepCeiling, opts, maxSteps - i)
        invariant !more ==> whole == Trace(store.State(), stepsRun, results)
      {
        results, more := AdvanceInto(results, goalId, opts, maxSteps - i, whole);
        i := i + 1;
      }
      if more {
        NothingToGo(whole, results, store.State(), goalId, stepsRun, stepCeiling, opts);
      }
    }
  }

  /** With these results so far, `n` more advances from here complete the whole trace. */
  ghost predicate ToGo(whole: Trace, results: seq<AdvanceResult>, s: Store, goalId: Text, stepsRun: int, stepCeiling: int,
                       opts: StepOptions, n: nat)
  {
    whole == Resumed(results, AdvanceAll(s, goalId, stepsRun, stepCeiling, opts, n))
  }

  lemma StartToGo(s: Store, goalId: Text, stepsRun: int, stepCeiling: int, opts: StepOptions, n: nat)
    ensures ToGo(AdvanceAll(s, goalId, stepsRun, stepCeiling, opts, n), [], s, goalId, stepsRun, stepCeiling, opts, n)
  {
    var t := AdvanceAll(s, goalId, stepsRun, stepCeiling, opts, n);
    assert [] + t.results == t.results;
  }

  lemma NothingToGo(whole: Trace, results: seq<AdvanceResult>, s: Store, goalId: Text, stepsRun: int, stepCeiling: int,
                    opts: StepOptions)
    requires ToGo(whole, results, s, goalId, stepsRun, stepCeiling, opts, 0)
    ensures whole == Trace(s, stepsRun, results)
  {
  }

  // The trace of a run that already has some results.
  function Resumed(results: seq<AdvanceResult>, rest: Trace): Trace {
    rest.(results := results + rest.results)
  }

  lemma UnrollAdvanceAll(results: seq<AdvanceResult>, s: Store, goalId: Text, stepsRun: int, stepCeiling: int, opts: StepOptions, n: nat)
    requires n > 0
    ensures var a := Advance(s, goalId, stepsRun, stepCeiling, opts);
            Resumed(results, AdvanceAll(s, goalId, stepsRun, stepCeiling, opts, n)) ==
              if a.result.StepCompleted?
              then Resumed(results + [a.result], AdvanceAll(a.store, goalId, a.stepsRun, stepCeiling, opts, n - 1))
              else Trace(a.store, a.stepsRun, results + [a.result])
  {
  }
}
