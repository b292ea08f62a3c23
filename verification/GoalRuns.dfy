/** Whole runs of goals: planning, approval, gates and any number of orchestrators, interleaved. */
module GoalRuns {
  import opened Wrappers
  import opened Texts
  import opened Plans
  import opened KeyedSort
  import opened GoalStore
  import opened GoalOrchestrator
  import Parser = GoalPlanParser

  /** A step that an orchestrator has run, as it was when it ran. */
  datatype RunRecord = RunRecord(planId: Text, step: PlanStep, permitted: seq<Tier>)

  /** The store and its history: the steps run, the steps that passed their gate, and the random step ids given out. */
  datatype World = World(store: Store, runs: seq<RunRecord>, gates: set<Text>, ids: set<Text>)

  const NO_GOALS := World(EMPTY_STORE, [], {}, {})

  datatype GoalOp =
    | CreateGoal(goalId: Text)
    | AttachPlan(planId: Text, goalId: Text, inputs: seq<StepInput>, stepIds: seq<Text>, permitted: Option<seq<Tier>>)
    | ApprovePlan(goalId: Text)
    | DerivePlan(planId: Text, goalId: Text, parentPlanId: Text, stepIds: seq<Text>)
    // any orchestrator, fresh or not: its counter and its ceiling are arbitrary
    | AdvanceGoal(goalId: Text, stepsRun: int, stepCeiling: int, opts: StepOptions)
    | GateApproval(goalId: Text, stepId: Text)
    | CancelGoal(goalId: Text)
    | PauseGoal(goalId: Text)

  // Random ids: none repeats another, now or later.
  ghost predicate FreshIds(w: World, stepIds: seq<Text>) {
    (forall i, j :: 0 <= i < j < |stepIds| ==> stepIds[i] != stepIds[j]) && forall i :: 0 <= i < |stepIds| ==> stepIds[i] !in w.ids
  }

  function IdSet(stepIds: seq<Text>): set<Text> {
    set x | x in stepIds
  }

  ghost function WithNewPlan(w: World, goalId: Text, p: StoredPlan, stepIds: seq<Text>): World {
    if GoalStore.SchemaValid(p) then w.(store := WithPlan(w.store, goalId, p), ids := w.ids + IdSet(stepIds)) else w
  }

  // The step that this advance runs.
  function RunBy(s: Store, goalId: Text, stepsRun: int, stepCeiling: int, opts: StepOptions): Option<RunRecord> {
    if Advance(s, goalId, stepsRun, stepCeiling, opts).stepsRun == stepsRun then None
    else Some(RunRecord(PlanOf(s, goalId).value.id, NextRunnable(s, goalId).value, PlanOf(s, goalId).value.permittedTiers))
  }

  ghost function WorldStep(w: World, op: GoalOp): World {
    match op
    case CreateGoal(goalId) => w.(store := w.store.(goals := w.store.goals[goalId := GoalDraft]))
    case AttachPlan(planId, goalId, inputs, stepIds, permitted) =>
      if CanAttach(w.store, goalId) && |stepIds| == |inputs| && FreshIds(w, stepIds)
      then WithNewPlan(w, goalId, NewPlan(planId, goalId, inputs, stepIds, permitted), stepIds) else w
    case ApprovePlan(goalId) => if CanApprove(w.store, goalId) then w.(store := Approved(w.store, goalId)) else w
    case DerivePlan(planId, goalId, parent, stepIds) =>
      if CanDerive(w.store, goalId, parent) && |stepIds| == |w.store.plans[parent].steps| && FreshIds(w, stepIds)
      then WithNewPlan(w, goalId, DerivedPlan(w.store.plans[parent], planId, stepIds), stepIds) else w
    case AdvanceGoal(goalId, n, ceiling, opts) =>
      var ran := RunBy(w.store, goalId, n, ceiling, opts);
      w.(store := Advance(w.store, goalId, n, ceiling, opts).store, runs := if ran.Some? then w.runs + [ran.value] else w.runs)
    case GateApproval(goalId, stepId) =>
      w.(store := AfterMove(w.store, goalId, stepId, ApproveGate),
         gates := if MoveHappens(w.store, goalId, stepId, ApproveGate) then w.gates + {stepId} else w.gates)
    case CancelGoal(goalId) => w.(store := GoalStore.Cancelled(w.store, goalId))
    case PauseGoal(goalId) => w.(store := PausedPlan(w.store, goalId))
  }

  ghost function WorldRun(w: World, ops: seq<GoalOp>): World
    decreases |ops|
  {
    if ops == [] then w else WorldRun(WorldStep(w, ops[0]), ops[1..])
  }

  // ---- What every run keeps ----

  ghost predicate HasRun(w: World, id: Text) {
    exists i :: 0 <= i < |w.runs| && w.runs[i].step.id == id
  }

  predicate Finished(st: PlanStep) {
    st.status == Done || st.status == Failed
  }

  /** A step of a stored plan, between calls: it is never left running; it is finished exactly when it has run; it is past
      its gate only with an approval; and it changes state exactly when its kind does. */
  ghost predicate StepSound(w: World, st: PlanStep) {
    && st.id in w.ids
    && st.status != Running
    && (Finished(st) <==> HasRun(w, st.id))
    && (st.status == GatedApproved ==> st.id in w.gates)
    && (st.isStateMutating <==> Mutating(st.kind))
  }

  ghost predicate PlanSound(w: World, p: StoredPlan) {
    && (forall i :: 0 <= i < |p.steps| ==> StepSound(w, p.steps[i]))
    && (forall i, j :: 0 <= i < j < |p.steps| ==> p.steps[i].id != p.steps[j].id)
  }

  ghost predicate HasStep(p: StoredPlan, id: Text) {
    exists i :: 0 <= i < |p.steps| && p.steps[i].id == id
  }

  /** What was run was permitted: its tier is one the plan permits, and a state-mutating step had its own gate approval. */
  ghost predicate RunSound(w: World, r: RunRecord) {
    && r.step.id in w.ids
    && r.step.tier in r.permitted
    && (Mutating(r.step.kind) ==> r.step.id in w.gates)
  }

  ghost predicate WorldSound(w: World) {
    && (forall k :: k in w.store.plans ==> w.store.plans[k].id == k && PlanSound(w, w.store.plans[k]))
    && (forall k, l, id :: k in w.store.plans && l in w.store.plans && HasStep(w.store.plans[k], id) && HasStep(w.store.plans[l], id) ==> k == l)
    && (forall i :: 0 <= i < |w.runs| ==> RunSound(w, w.runs[i]))
    // no step runs twice
    && (forall i, j :: 0 <= i < j < |w.runs| ==> w.runs[i].step.id != w.runs[j].step.id)
  }

  // ---- One plan changes ----

  // The histories of `v` extend those of `w`, and only steps of `p` may have run in between.
  ghost predicate Extends(w: World, v: World, p: StoredPlan) {
    && w.ids <= v.ids && w.gates <= v.gates
    && (forall id :: !HasStep(p, id) ==> (HasRun(v, id) <==> HasRun(w, id)))
  }

  lemma OtherPlanSound(w: World, v: World, p: StoredPlan, q: StoredPlan)
    requires PlanSound(w, q) && Extends(w, v, p)
    requires forall id :: HasStep(q, id) ==> !HasStep(p, id)
    ensures PlanSound(v, q)
  {
    forall i | 0 <= i < |q.steps| ensures StepSound(v, q.steps[i]) {
      assert HasStep(q, q.steps[i].id);
    }
  }

  lemma IdsKnown(w: World, q: StoredPlan, id: Text)
    requires PlanSound(w, q) && HasStep(q, id)
    ensures id in w.ids
  {
  }

  /** Replacing one plan by another with the same or fresh step ids keeps the world sound. */
  lemma PlanReplaced(w: World, v: World, p: StoredPlan)
    requires WorldSound(w) && v.store.plans == w.store.plans[p.id := p]
    requires PlanSound(v, p) && Extends(w, v, p)
    requires forall id :: HasStep(p, id) ==> id !in w.ids || (p.id in w.store.plans && HasStep(w.store.plans[p.id], id))
    requires forall i :: 0 <= i < |v.runs| ==> RunSound(v, v.runs[i])
    requires forall i, j :: 0 <= i < j < |v.runs| ==> v.runs[i].step.id != v.runs[j].step.id
    ensures WorldSound(v)
  {
    forall k, id | k in w.store.plans && k != p.id && HasStep(w.store.plans[k], id) ensures !HasStep(p, id) {
      IdsKnown(w, w.store.plans[k], id);
    }
    forall k | k in v.store.plans ensures v.store.plans[k].id == k && PlanSound(v, v.store.plans[k]) {
      if k != p.id {
        OtherPlanSound(w, v, p, w.store.plans[k]);
      }
    }
  }

  lemma RunsStaySound(w: World, v: World)
    requires WorldSound(w) && w.ids <= v.ids && w.gates <= v.gates && v.runs == w.runs
    ensures forall i :: 0 <= i < |v.runs| ==> RunSound(v, v.runs[i])
  {
    forall i | 0 <= i < |v.runs| ensures RunSound(v, v.runs[i]) {
      assert RunSound(w, w.runs[i]);
    }
  }

  // ---- Planning, approval, cancelling and pausing ----

  lemma RunIdsKnown(w: World, id: Text)
    requires WorldSound(w)
    ensures HasRun(w, id) ==> id in w.ids
  {
    forall j | 0 <= j < |w.runs| ensures w.runs[j].step.id in w.ids {
      assert RunSound(w, w.runs[j]);
    }
  }

  lemma NewPlanKept(w: World, goalId: Text, p: StoredPlan, stepIds: seq<Text>)
    requires WorldSound(w) && FreshIds(w, stepIds) && |p.steps| == |stepIds|
    requires forall i :: 0 <= i < |p.steps| ==>
               p.steps[i].id == stepIds[i] && p.steps[i].status == Pending && (p.steps[i].isStateMutating <==> Mutating(p.steps[i].kind))
    ensures WorldSound(WithNewPlan(w, goalId, p, stepIds))
  {
    var v := WithNewPlan(w, goalId, p, stepIds);
    if GoalStore.SchemaValid(p) {
      forall i | 0 <= i < |p.steps| ensures StepSound(v, p.steps[i]) && p.steps[i].id !in w.ids {
        assert stepIds[i] in stepIds;
        RunIdsKnown(w, stepIds[i]);
      }
      RunsStaySound(w, v);
      PlanReplaced(w, v, p);
    }
  }

  lemma DerivedKept(w: World, goalId: Text, parent: Text, planId: Text, stepIds: seq<Text>)
    requires WorldSound(w) && CanDerive(w.store, goalId, parent) && FreshIds(w, stepIds)
    requires |stepIds| == |w.store.plans[parent].steps|
    ensures WorldSound(WithNewPlan(w, goalId, DerivedPlan(w.store.plans[parent], planId, stepIds), stepIds))
  {
    var q := w.store.plans[parent];
    var p := DerivedPlan(q, planId, stepIds);
    assert PlanSound(w, q);
    forall i | 0 <= i < |p.steps| ensures p.steps[i].isStateMutating <==> Mutating(p.steps[i].kind) {
      assert StepSound(w, q.steps[i]);
    }
    NewPlanKept(w, goalId, p, stepIds);
  }

  lemma StatusChanged(w: World, v: World, p: StoredPlan, status: PlanStatus)
    requires WorldSound(w) && p.id in w.store.plans && w.store.plans[p.id] == p
    requires v.store.plans == w.store.plans[p.id := p.(status := status)]
    requires v.runs == w.runs && v.gates == w.gates && v.ids == w.ids
    ensures WorldSound(v)
  {
    var p' := p.(status := status);
    assert PlanSound(w, p);
    forall i | 0 <= i < |p'.steps| ensures StepSound(v, p'.steps[i]) {
      assert StepSound(w, p.steps[i]);
    }
    forall id | HasStep(p', id) ensures HasStep(p, id) {
    }
    RunsStaySound(w, v);
    PlanReplaced(w, v, p');
  }

  lemma PlanOfStored(w: World, goalId: Text)
    requires WorldSound(w) && PlanOf(w.store, goalId).Some?
    ensures var p := PlanOf(w.store, goalId).value; p.id in w.store.plans && w.store.plans[p.id] == p && PlanSound(w, p)
  {
  }

  lemma SamePlans(w: World, v: World)
    requires WorldSound(w) && v.store.plans == w.store.plans && v.runs == w.runs && v.gates == w.gates && v.ids == w.ids
    ensures WorldSound(v)
  {
    forall k | k in v.store.plans ensures PlanSound(v, v.store.plans[k]) {
      var p := w.store.plans[k];
      assert PlanSound(w, p);
      forall i | 0 <= i < |p.steps| ensures StepSound(v, p.steps[i]) {
        assert StepSound(w, p.steps[i]);
      }
    }
    RunsStaySound(w, v);
  }

  lemma ControlKept(w: World, op: GoalOp)
    requires WorldSound(w) && (op.ApprovePlan? || op.CancelGoal? || op.PauseGoal?)
    ensures WorldSound(WorldStep(w, op))
  {
    var v := WorldStep(w, op);
    var goalId := op.goalId;
    if v.store.plans == w.store.plans {
      SamePlans(w, v);
    } else {
      PlanOfStored(w, goalId);
      var p := PlanOf(w.store, goalId).value;
      StatusChanged(w, v, p, if op.ApprovePlan? then PlanApproved else if op.CancelGoal? then PlanCancelled else PlanPaused);
    }
  }

  // ---- Moves ----

  // `p` with one step changed in status only.
  ghost predicate OneStepChanged(p: StoredPlan, q: StoredPlan, i: nat, st: PlanStep) {
    && i < |p.steps| && q.id == p.id && q.steps == p.steps[i := st]
    && st.id == p.steps[i].id && st.kind == p.steps[i].kind && st.isStateMutating == p.steps[i].isStateMutating
  }

  lemma StepChangeKept(w: World, v: World, p: StoredPlan, q: StoredPlan, i: nat, st: PlanStep)
    requires WorldSound(w) && p.id in w.store.plans && w.store.plans[p.id] == p && OneStepChanged(p, q, i, st)
    requires v.store.plans == w.store.plans[q.id := q] && w.ids == v.ids && w.gates <= v.gates
    requires forall id :: id != st.id ==> (HasRun(v, id) <==> HasRun(w, id))
    requires StepSound(v, st)
    requires forall j :: 0 <= j < |v.runs| ==> RunSound(v, v.runs[j])
    requires forall j, k :: 0 <= j < k < |v.runs| ==> v.runs[j].step.id != v.runs[k].step.id
    ensures WorldSound(v)
  {
    assert PlanSound(w, p);
    forall j | 0 <= j < |q.steps| ensures StepSound(v, q.steps[j]) && q.steps[j].id == p.steps[j].id {
      assert StepSound(w, p.steps[j]);
    }
    assert HasStep(q, st.id) by {
      assert q.steps[i].id == st.id;
    }
    forall id | HasStep(q, id) ensures HasStep(p, id) {
      var j :| 0 <= j < |q.steps| && q.steps[j].id == id;
      assert p.steps[j].id == id;
    }
    PlanReplaced(w, v, q);
  }

  lemma FindsStep(p: StoredPlan, i: nat)
    requires i < |p.steps| && forall j, k :: 0 <= j < k < |p.steps| ==> p.steps[j].id != p.steps[k].id
    ensures GoalStore.FindStep(p.steps, p.steps[i].id, 0) == i
  {
  }

  /** What a move that happens does to the plans: one step of the goal's plan changes. */
  lemma MoveEffect(w: World, goalId: Text, stepId: Text, m: Move) returns (i: nat)
    requires WorldSound(w) && MoveHappens(w.store, goalId, stepId, m)
    ensures var p := PlanOf(w.store, goalId).value;
            && i < |p.steps| && p.steps[i].id == stepId
            && OneStepChanged(p, MovedPlan(p, i, m), i, Moved(p.steps[i], m))
            && AfterMove(w.store, goalId, stepId, m).plans == w.store.plans[p.id := MovedPlan(p, i, m)]
            && AfterMove(w.store, goalId, stepId, m).plansByGoal == w.store.plansByGoal
  {
    i := MovableStep(w.store, goalId, stepId).value;
  }

  lemma GateKept(w: World, goalId: Text, stepId: Text)
    requires WorldSound(w)
    ensures WorldSound(WorldStep(w, GateApproval(goalId, stepId)))
  {
    var v := WorldStep(w, GateApproval(goalId, stepId));
    if MoveHappens(w.store, goalId, stepId, ApproveGate) {
      var i := MoveEffect(w, goalId, stepId, ApproveGate);
      PlanOfStored(w, goalId);
      var p := PlanOf(w.store, goalId).value;
      assert StepSound(w, p.steps[i]);
      RunsStaySound(w, v);
      NoFailedMoves(p.steps[i], ApproveGate);
      StepChangeKept(w, v, p, MovedPlan(p, i, ApproveGate), i, Moved(p.steps[i], ApproveGate));
    } else {
      SamePlans(w, v);
    }
  }

  // A gate approval on a failed step counts as a transition in the store, but changes nothing in the step.
  lemma NoFailedMoves(st: PlanStep, m: Move)
    requires m == ApproveGate || m == BlockForGate
    ensures st.status == Failed ==> Moved(st, m) == st
    ensures Moved(st, m) == st.(status := Moved(st, m).status)
  {
  }

  // ---- Advancing ----

  function StepAfterRun(st: PlanStep, opts: StepOptions): PlanStep {
    if opts.simulateFailure != [] then st.(status := Failed, failureReason := Some(opts.simulateFailure))
    else st.(status := Done, output := opts.output)
  }

  // Starting a step and finishing it are two moves of the same step.
  lemma StartMove(w: World, goalId: Text, i: nat)
    requires WorldSound(w) && PlanOf(w.store, goalId).Some? && Active(PlanOf(w.store, goalId).value.status)
    requires i < |PlanOf(w.store, goalId).value.steps|
    requires Moved(PlanOf(w.store, goalId).value.steps[i], MarkRunning).status == Running
    requires PlanOf(w.store, goalId).value.steps[i].status != Running
    ensures var p := PlanOf(w.store, goalId).value;
            && MoveHappens(w.store, goalId, p.steps[i].id, MarkRunning)
            && AfterMove(w.store, goalId, p.steps[i].id, MarkRunning).plans == w.store.plans[p.id := MovedPlan(p, i, MarkRunning)]
            && PlanOf(AfterMove(w.store, goalId, p.steps[i].id, MarkRunning), goalId) == Some(MovedPlan(p, i, MarkRunning))
            && Active(MovedPlan(p, i, MarkRunning).status)
  {
    PlanOfStored(w, goalId);
    var p := PlanOf(w.store, goalId).value;
    FindsStep(p, i);
    assert MovedPlan(p, i, MarkRunning).steps[i].status == Running;
  }

  lemma FinishMove(s: Store, goalId: Text, p: StoredPlan, i: nat, m: Move)
    requires PlanOf(s, goalId) == Some(p) && Active(p.status) && i < |p.steps|
    requires forall j, k :: 0 <= j < k < |p.steps| ==> p.steps[j].id != p.steps[k].id
    requires p.steps[i].status == Running && (m.Complete? || m.Fail?)
    ensures AfterMove(s, goalId, p.steps[i].id, m).plans == s.plans[p.id := MovedPlan(p, i, m)]
  {
    FindsStep(p, i);
  }

  /** An advance that runs a step takes the goal's next runnable step straight to done or failed. */
  lemma AdvanceRuns(w: World, goalId: Text, n: int, ceiling: int, opts: StepOptions) returns (i: nat, q: StoredPlan)
    requires WorldSound(w) && RunBy(w.store, goalId, n, ceiling, opts).Some?
    ensures PlanOf(w.store, goalId).Some?
    ensures var p := PlanOf(w.store, goalId).value;
            && i < |p.steps| && NextRunnable(w.store, goalId) == Some(p.steps[i]) && Runnable(p.steps[i])
            && (p.steps[i].isStateMutating ==> p.steps[i].status == GatedApproved)
            && p.steps[i].tier in p.permittedTiers
            && (forall j :: 0 <= j < |p.steps| ==> p.steps[j].status != Failed)
            && OneStepChanged(p, q, i, StepAfterRun(p.steps[i], opts))
            && Advance(w.store, goalId, n, ceiling, opts).store.plans == w.store.plans[p.id := q]
  {
    PlanOfStored(w, goalId);
    i := RunConditions(w.store, goalId, n, ceiling, opts);
    q := TwoMoves(w, goalId, i, opts);
  }

  // When an advance runs a step, and that it makes the two moves.
  lemma RunConditions(s: Store, goalId: Text, n: int, ceiling: int, opts: StepOptions) returns (i: nat)
    requires RunBy(s, goalId, n, ceiling, opts).Some?
    ensures PlanOf(s, goalId).Some? && Active(PlanOf(s, goalId).value.status)
    ensures var p := PlanOf(s, goalId).value;
            && i < |p.steps| && NextRunnable(s, goalId) == Some(p.steps[i]) && Runnable(p.steps[i])
            && (p.steps[i].isStateMutating ==> p.steps[i].status == GatedApproved)
            && p.steps[i].tier in p.permittedTiers
            && (forall j :: 0 <= j < |p.steps| ==> p.steps[j].status != Failed)
            && Advance(s, goalId, n, ceiling, opts).store
               == AfterMove(AfterMove(s, goalId, p.steps[i].id, MarkRunning), goalId, p.steps[i].id, LastMove(opts))
  {
    i := LeastRunnable(PlanOf(s, goalId).value.steps, |PlanOf(s, goalId).value.steps|).value;
  }

  function LastMove(opts: StepOptions): Move {
    if opts.simulateFailure != [] then Fail(opts.simulateFailure) else Complete(opts.output)
  }

  lemma TwoMoves(w: World, goalId: Text, i: nat, opts: StepOptions) returns (q: StoredPlan)
    requires WorldSound(w) && PlanOf(w.store, goalId).Some? && Active(PlanOf(w.store, goalId).value.status)
    requires i < |PlanOf(w.store, goalId).value.steps| && Runnable(PlanOf(w.store, goalId).value.steps[i])
    requires var st := PlanOf(w.store, goalId).value.steps[i]; st.isStateMutating ==> st.status == GatedApproved
    ensures var p := PlanOf(w.store, goalId).value;
            && OneStepChanged(p, q, i, StepAfterRun(p.steps[i], opts))
            && AfterMove(AfterMove(w.store, goalId, p.steps[i].id, MarkRunning), goalId, p.steps[i].id, LastMove(opts)).plans
               == w.store.plans[p.id := q]
  {
    var p := PlanOf(w.store, goalId).value;
    PlanOfStored(w, goalId);
    StartMove(w, goalId, i);
    var running := MovedPlan(p, i, MarkRunning);
    FinishMove(AfterMove(w.store, goalId, p.steps[i].id, MarkRunning), goalId, running, i, LastMove(opts));
    q := MovedPlan(running, i, LastMove(opts));
    assert q.steps == p.steps[i := StepAfterRun(p.steps[i], opts)];
    assert w.store.plans[p.id := running][p.id := q] == w.store.plans[p.id := q];
  }

  lemma RunAppended(w: World, r: RunRecord, id: Text)
    ensures HasRun(w.(runs := w.runs + [r]), id) <==> HasRun(w, id) || id == r.step.id
  {
    var v := w.(runs := w.runs + [r]);
    if HasRun(w, id) {
      var i :| 0 <= i < |w.runs| && w.runs[i].step.id == id;
      assert v.runs[i].step.id == id;
    }
    assert v.runs[|w.runs|] == r;
  }

  lemma RunKept(w: World, goalId: Text, n: int, ceiling: int, opts: StepOptions)
    requires WorldSound(w) && RunBy(w.store, goalId, n, ceiling, opts).Some?
    ensures WorldSound(WorldStep(w, AdvanceGoal(goalId, n, ceiling, opts)))
  {
    var i, q := AdvanceRuns(w, goalId, n, ceiling, opts);
    PlanOfStored(w, goalId);
    var p := PlanOf(w.store, goalId).value;
    var r := RunBy(w.store, goalId, n, ceiling, opts).value;
    var v := WorldStep(w, AdvanceGoal(goalId, n, ceiling, opts));
    assert StepSound(w, p.steps[i]);
    forall id ensures HasRun(v, id) <==> HasRun(w, id) || id == r.step.id {
      RunAppended(w, r, id);
    }
    forall j | 0 <= j < |v.runs| ensures RunSound(v, v.runs[j]) {
      if j < |w.runs| { assert RunSound(w, w.runs[j]); }
    }
    forall j, k | 0 <= j < k < |v.runs| ensures v.runs[j].step.id != v.runs[k].step.id {
      assert v.runs[j] == w.runs[j];
    }
    StepChangeKept(w, v, p, q, i, StepAfterRun(p.steps[i], opts));
  }

  lemma NoRunKept(w: World, goalId: Text, n: int, ceiling: int, opts: StepOptions)
    requires WorldSound(w) && RunBy(w.store, goalId, n, ceiling, opts).None?
    ensures WorldSound(WorldStep(w, AdvanceGoal(goalId, n, ceiling, opts)))
  {
    var v := WorldStep(w, AdvanceGoal(goalId, n, ceiling, opts));
    if v.store == w.store {
      SamePlans(w, v);
    } else {
      var next := NextRunnable(w.store, goalId).value;
      var i := MoveEffect(w, goalId, next.id, BlockForGate);
      PlanOfStored(w, goalId);
      var p := PlanOf(w.store, goalId).value;
      assert StepSound(w, p.steps[i]);
      RunsStaySound(w, v);
      NoFailedMoves(p.steps[i], BlockForGate);
      StepChangeKept(w, v, p, MovedPlan(p, i, BlockForGate), i, Moved(p.steps[i], BlockForGate));
    }
  }

  lemma StepKeepsSound(w: World, op: GoalOp)
    requires WorldSound(w)
    ensures WorldSound(WorldStep(w, op))
  {
    match op
    case CreateGoal(goalId) => SamePlans(w, WorldStep(w, op));
    case AttachPlan(planId, goalId, inputs, stepIds, permitted) =>
      if CanAttach(w.store, goalId) && |stepIds| == |inputs| && FreshIds(w, stepIds) {
        NewPlanKept(w, goalId, NewPlan(planId, goalId, inputs, stepIds, permitted), stepIds);
      }
    case ApprovePlan(goalId) => ControlKept(w, op);
    case DerivePlan(planId, goalId, parent, stepIds) =>
      if CanDerive(w.store, goalId, parent) && |stepIds| == |w.store.plans[parent].steps| && FreshIds(w, stepIds) {
        DerivedKept(w, goalId, parent, planId, stepIds);
      }
    case AdvanceGoal(goalId, n, ceiling, opts) =>
      if RunBy(w.store, goalId, n, ceiling, opts).Some? {
        RunKept(w, goalId, n, ceiling, opts);
      } else {
        NoRunKept(w, goalId, n, ceiling, opts);
      }
    case GateApproval(goalId, stepId) => GateKept(w, goalId, stepId);
    case CancelGoal(goalId) => ControlKept(w, op);
    case PauseGoal(goalId) => ControlKept(w, op);
  }

  /** Over every run of planning calls, approvals, gate approvals and advances by any number of orchestrators: no step runs
      twice, a state-mutating step runs only after its own gate approval, every step that runs has a tier its plan
      permits, and a step is done or failed exactly when it has run. */
  lemma {:induction false} EveryRunSound(w: World, ops: seq<GoalOp>)
    requires WorldSound(w)
    ensures WorldSound(WorldRun(w, ops))
    decreases |ops|
  {
    if ops != [] {
      StepKeepsSound(w, ops[0]);
      EveryRunSound(WorldStep(w, ops[0]), ops[1..]);
    }
  }

  /** In particular, from an empty store: the `i`-th step that ran had a permitted tier and, when it changes state, its own
      gate approval, and no later run is of the same step. */
  lemma RunsFromNothing(ops: seq<GoalOp>, i: nat, j: nat)
    requires i < |WorldRun(NO_GOALS, ops).runs|
    ensures var w := WorldRun(NO_GOALS, ops);
            && w.runs[i].step.tier in w.runs[i].permitted
            && (Mutating(w.runs[i].step.kind) ==> w.runs[i].step.id in w.gates)
            && (i < j < |w.runs| ==> w.runs[i].step.id != w.runs[j].step.id)
  {
    EveryRunSound(NO_GOALS, ops);
    assert RunSound(WorldRun(NO_GOALS, ops), WorldRun(NO_GOALS, ops).runs[i]);
  }

  // ---- Nothing runs after a failure ----

  ghost predicate HasFailed(s: Store, planId: Text) {
    planId in s.plans && exists i :: 0 <= i < |s.plans[planId].steps| && s.plans[planId].steps[i].status == Failed
  }

  // The call makes a new plan under this id.
  predicate Replants(op: GoalOp, planId: Text) {
    (op.AttachPlan? || op.DerivePlan?) && op.planId == planId
  }

  lemma FailedStops(w: World, goalId: Text, n: int, ceiling: int, opts: StepOptions)
    requires WorldSound(w) && PlanOf(w.store, goalId).Some? && HasFailed(w.store, PlanOf(w.store, goalId).value.id)
    ensures Advance(w.store, goalId, n, ceiling, opts).store == w.store
    ensures RunBy(w.store, goalId, n, ceiling, opts).None?
  {
    PlanOfStored(w, goalId);
    FailedIsStopped(w.store, goalId);
  }

  lemma FailedIsStopped(s: Store, goalId: Text)
    requires PlanOf(s, goalId).Some?
    requires exists i :: 0 <= i < |PlanOf(s, goalId).value.steps| && PlanOf(s, goalId).value.steps[i].status == Failed
    ensures Stopped(s, goalId).Some?
  {
    assert FirstFailed(PlanOf(s, goalId).value.steps, 0) < |PlanOf(s, goalId).value.steps|;
  }

  // The plan keeps all its steps, or changes one that has not failed.
  lemma FailureKept(s: Store, t: Store, planId: Text, i: nat, st: PlanStep)
    requires HasFailed(s, planId) && planId in t.plans
    requires t.plans[planId].steps == s.plans[planId].steps
             || (i < |s.plans[planId].steps| && t.plans[planId].steps == s.plans[planId].steps[i := st]
                 && (s.plans[planId].steps[i].status == Failed ==> st.status == Failed))
    ensures HasFailed(t, planId)
  {
    var p := s.plans[planId];
    var f :| 0 <= f < |p.steps| && p.steps[f].status == Failed;
    assert t.plans[planId].steps[f].status == Failed;
  }

  // No step of the plan is added to the runs.
  ghost predicate RunsElsewhere(w: World, v: World, planId: Text) {
    w.runs <= v.runs && forall i :: |w.runs| <= i < |v.runs| ==> v.runs[i].planId != planId
  }

  lemma FailedStaysAdvance(w: World, goalId: Text, n: int, ceiling: int, opts: StepOptions, planId: Text)
    requires WorldSound(w) && HasFailed(w.store, planId)
    ensures var v := WorldStep(w, AdvanceGoal(goalId, n, ceiling, opts)); HasFailed(v.store, planId) && RunsElsewhere(w, v, planId)
  {
    if PlanOf(w.store, goalId).Some? {
      PlanOfStored(w, goalId);
      if PlanOf(w.store, goalId).value.id == planId {
        FailedStops(w, goalId, n, ceiling, opts);
      } else {
        OtherPlanAdvances(w, goalId, n, ceiling, opts, planId);
      }
    }
  }

  lemma FailedStaysGate(w: World, goalId: Text, stepId: Text, planId: Text)
    requires WorldSound(w) && HasFailed(w.store, planId)
    ensures HasFailed(AfterMove(w.store, goalId, stepId, ApproveGate), planId)
  {
    if MoveHappens(w.store, goalId, stepId, ApproveGate) {
      var i := MoveEffect(w, goalId, stepId, ApproveGate);
      PlanOfStored(w, goalId);
      var p := PlanOf(w.store, goalId).value;
      FailureKept(w.store, AfterMove(w.store, goalId, stepId, ApproveGate), planId, i, Moved(p.steps[i], ApproveGate));
    }
  }

  lemma FailedStaysControl(w: World, op: GoalOp, planId: Text)
    requires WorldSound(w) && HasFailed(w.store, planId) && (op.ApprovePlan? || op.CancelGoal? || op.PauseGoal?)
    ensures HasFailed(WorldStep(w, op).store, planId)
  {
    if PlanOf(w.store, op.goalId).Some? {
      PlanOfStored(w, op.goalId);
      var v := WorldStep(w, op);
      assert v.store.plans[planId].steps == w.store.plans[planId].steps;
      FailureKept(w.store, v.store, planId, 0, w.store.plans[planId].steps[0]);
    }
  }

  lemma FailedStays(w: World, op: GoalOp, planId: Text)
    requires WorldSound(w) && HasFailed(w.store, planId) && !Replants(op, planId)
    ensures HasFailed(WorldStep(w, op).store, planId) && RunsElsewhere(w, WorldStep(w, op), planId)
  {
    match op
    case AdvanceGoal(goalId, n, ceiling, opts) => FailedStaysAdvance(w, goalId, n, ceiling, opts, planId);
    case GateApproval(goalId, stepId) => FailedStaysGate(w, goalId, stepId, planId);
    case ApprovePlan(goalId) => FailedStaysControl(w, op, planId);
    case CancelGoal(goalId) => FailedStaysControl(w, op, planId);
    case PauseGoal(goalId) => FailedStaysControl(w, op, planId);
    case _ =>
  }

  lemma OtherPlanAdvances(w: World, goalId: Text, n: int, ceiling: int, opts: StepOptions, planId: Text)
    requires WorldSound(w) && planId in w.store.plans
    requires PlanOf(w.store, goalId).Some? && PlanOf(w.store, goalId).value.id != planId
    ensures planId in Advance(w.store, goalId, n, ceiling, opts).store.plans
    ensures Advance(w.store, goalId, n, ceiling, opts).store.plans[planId] == w.store.plans[planId]
  {
    if RunBy(w.store, goalId, n, ceiling, opts).Some? {
      var i, q := AdvanceRuns(w, goalId, n, ceiling, opts);
    } else if Advance(w.store, goalId, n, ceiling, opts).store != w.store {
      var i := MoveEffect(w, goalId, NextRunnable(w.store, goalId).value.id, BlockForGate);
    }
  }

  /** Once a step of a plan has failed, no step of that plan runs in any later run, whichever orchestrators are used. */
  lemma {:induction false} NothingRunsAfterFailure(w: World, ops: seq<GoalOp>, planId: Text)
    requires WorldSound(w) && HasFailed(w.store, planId)
    requires forall i :: 0 <= i < |ops| ==> !Replants(ops[i], planId)
    ensures RunsElsewhere(w, WorldRun(w, ops), planId)
    decreases |ops|
  {
    if ops != [] {
      StepKeepsSound(w, ops[0]);
      FailedStays(w, ops[0], planId);
      NothingRunsAfterFailure(WorldStep(w, ops[0]), ops[1..], planId);
    }
  }

  // ---- The ceiling of the parser bounds the runs of every orchestrator together ----

  /** The ids of the runs that ran one of these steps. */
  function RunsAmong(runs: seq<RunRecord>, stepIds: seq<Text>): seq<Text> {
    if runs == [] then []
    else
      var last := runs[|runs| - 1].step.id;
      RunsAmong(runs[..|runs| - 1], stepIds) + if last in stepIds then [last] else []
  }

  ghost predicate RanIn(runs: seq<RunRecord>, id: Text) {
    exists k :: 0 <= k < |runs| && runs[k].step.id == id
  }

  lemma {:induction false} RunsAmongMember(runs: seq<RunRecord>, stepIds: seq<Text>, e: Text)
    requires e in RunsAmong(runs, stepIds)
    ensures e in stepIds && RanIn(runs, e)
  {
    var n := |runs| - 1;
    if runs[n].step.id != e {
      RunsAmongMember(runs[..n], stepIds, e);
      var k :| 0 <= k < n && runs[..n][k].step.id == e;
      assert runs[k].step.id == e;
    } else if e !in stepIds {
      RunsAmongMember(runs[..n], stepIds, e);
    }
  }

  lemma {:induction false} RunsAmongDistinct(runs: seq<RunRecord>, stepIds: seq<Text>)
    requires forall i, j :: 0 <= i < j < |runs| ==> runs[i].step.id != runs[j].step.id
    ensures forall i, j :: 0 <= i < j < |RunsAmong(runs, stepIds)| ==> RunsAmong(runs, stepIds)[i] != RunsAmong(runs, stepIds)[j]
  {
    if runs != [] {
      var n := |runs| - 1;
      var before := RunsAmong(runs[..n], stepIds);
      RunsAmongDistinct(runs[..n], stepIds);
      forall i | 0 <= i < |before| ensures before[i] != runs[n].step.id {
        RunsAmongMember(runs[..n], stepIds, before[i]);
      }
    }
  }

  lemma DistinctWithin(s: seq<Text>, t: seq<Text>)
    requires forall i, j :: 0 <= i < j < |s| ==> s[i] != s[j]
    requires forall i :: 0 <= i < |s| ==> s[i] in t
    ensures |s| <= |t|
  {
    forall e ensures multiset(s)[e] <= multiset(t)[e] {
      AtMostOnce(s, e);
      if e in s { assert e in multiset(t); }
    }
    assert multiset(s) <= multiset(t);
    assert multiset(t) == multiset(s) + (multiset(t) - multiset(s));
    assert |multiset(t)| == |multiset(s)| + |multiset(t) - multiset(s)|;
  }

  // What the generator hands on from a parsed plan; the store works out again which steps change state.
  function GeneratedInputs(steps: seq<Parser.Step>): (r: seq<StepInput>)
    ensures |r| == |steps|
  {
    seq(|steps|, i requires 0 <= i < |steps| =>
      StepInput(steps[i].intent, steps[i].kind, steps[i].targetEndpointId, Some(steps[i].tier)))
  }

  /** However many orchestrators are created after it, and whatever else happens, the steps of a plan that was parsed and
      attached are run at most `maxSteps` times in all, although each orchestrator counts from zero. */
  lemma ParsedPlanRunsBounded(w: World, raw: Parser.RawPlan, req: Parser.Request, opts: Parser.Options, goalId: Text,
                              stepIds: seq<Text>, ops: seq<GoalOp>)
    requires WorldSound(w) && Parser.ParseObject(raw, req, opts).Parsed?
    requires CanAttach(w.store, goalId) && FreshIds(w, stepIds)
    requires |stepIds| == |Parser.ParseObject(raw, req, opts).plan.steps|
    ensures var plan := Parser.ParseObject(raw, req, opts).plan;
            var attach := AttachPlan(plan.id, goalId, GeneratedInputs(plan.steps), stepIds, Some(plan.permittedTiers));
            |RunsAmong(WorldRun(WorldStep(w, attach), ops).runs, stepIds)| <= OrElse(opts.maxSteps, Parser.DEFAULT_MAX_STEPS)
  {
    var plan := Parser.ParseObject(raw, req, opts).plan;
    var attach := AttachPlan(plan.id, goalId, GeneratedInputs(plan.steps), stepIds, Some(plan.permittedTiers));
    Parser.ParsedPlanSound(raw, req, opts);
    StepKeepsSound(w, attach);
    EveryRunSound(WorldStep(w, attach), ops);
    var runs := WorldRun(WorldStep(w, attach), ops).runs;
    RunsAmongDistinct(runs, stepIds);
    forall i | 0 <= i < |RunsAmong(runs, stepIds)| ensures RunsAmong(runs, stepIds)[i] in stepIds {
      RunsAmongMember(runs, stepIds, RunsAmong(runs, stepIds)[i]);
    }
    DistinctWithin(RunsAmong(runs, stepIds), stepIds);
  }
}
