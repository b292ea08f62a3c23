/** The goal and plan store: plan approval, the per-step gate, and the step transitions. */
module GoalStore {
  import opened Wrappers
  import opened Texts
  import opened Plans

  datatype GoalStatus =
    | GoalDraft
    | GoalPlanned
    | GoalApproved
    | GoalExecuting
    | GoalPaused
    | GoalDone
    | GoalCancelled
    | GoalFailed

  datatype StepStatus = Pending | Running | Done | Failed | BlockedNeedsGate | GatedApproved

  datatype PlanStep = PlanStep(
    id: Text,
    index: int,
    intent: Text,
    kind: Kind,
    targetEndpointId: Text,
    tier: Tier,
    isStateMutating: bool,
    status: StepStatus,
    output: Option<Text>,
    failureReason: Option<Text>)

  datatype StoredPlan = StoredPlan(
    id: Text,
    goalId: Text,
    parentPlanId: Option<Text>,
    steps: seq<PlanStep>,
    status: PlanStatus,
    permittedTiers: seq<Tier>)

  datatype StepInput = StepInput(intent: Text, kind: Kind, targetEndpointId: Text, tier: Option<Tier>)

  /** The contents of the store. */
  datatype Store = Store(goals: map<Text, GoalStatus>, plans: map<Text, StoredPlan>, plansByGoal: map<Text, Text>)

  const EMPTY_STORE := Store(map[], map[], map[])

  // ---- Plans ----

  /** `assertPlan`, beyond what the types already say. */
  predicate SchemaValid(p: StoredPlan) {
    && p.permittedTiers != [] && PatchProposal in p.permittedTiers
    && (forall t :: t in p.permittedTiers ==> !t.UnknownTier?)
    && forall i :: 0 <= i < |p.steps| ==> !p.steps[i].kind.UnknownKind? && !p.steps[i].tier.UnknownTier?
  }

  /** The plan a goal currently has; an empty plan id counts as none. */
  function PlanOf(s: Store, goalId: Text): Option<StoredPlan> {
    if goalId in s.plansByGoal && s.plansByGoal[goalId] != [] && s.plansByGoal[goalId] in s.plans
    then Some(s.plans[s.plansByGoal[goalId]]) else None
  }

  function AttachedSteps(inputs: seq<StepInput>, stepIds: seq<Text>): (r: seq<PlanStep>)
    requires |stepIds| == |inputs|
    ensures |r| == |inputs|
    ensures forall i :: 0 <= i < |r| ==>
              r[i] == PlanStep(stepIds[i], i, inputs[i].intent, inputs[i].kind, inputs[i].targetEndpointId,
                               OrElse(inputs[i].tier, PatchProposal), Mutating(inputs[i].kind), Pending, None, None)
  {
    seq(|inputs|, i requires 0 <= i < |inputs| =>
      PlanStep(stepIds[i], i, inputs[i].intent, inputs[i].kind, inputs[i].targetEndpointId,
               OrElse(inputs[i].tier, PatchProposal), Mutating(inputs[i].kind), Pending, None, None))
  }

  function NewPlan(planId: Text, goalId: Text, inputs: seq<StepInput>, stepIds: seq<Text>, permitted: Option<seq<Tier>>): StoredPlan
    requires |stepIds| == |inputs|
  {
    StoredPlan(planId, goalId, None, AttachedSteps(inputs, stepIds), PlanAwaitingApproval, OrElse(permitted, [PatchProposal]))
  }

  function DerivedSteps(steps: seq<PlanStep>, stepIds: seq<Text>): (r: seq<PlanStep>)
    requires |stepIds| == |steps|
    ensures |r| == |steps|
    ensures forall i :: 0 <= i < |r| ==>
              r[i] == steps[i].(id := stepIds[i], index := i, status := Pending, output := None, failureReason := None)
  {
    seq(|steps|, i requires 0 <= i < |steps| =>
      steps[i].(id := stepIds[i], index := i, status := Pending, output := None, failureReason := None))
  }

  function DerivedPlan(parent: StoredPlan, planId: Text, stepIds: seq<Text>): StoredPlan
    requires |stepIds| == |parent.steps|
  {
    StoredPlan(planId, parent.goalId, Some(parent.id), DerivedSteps(parent.steps, stepIds), PlanAwaitingApproval, parent.permittedTiers)
  }

  function WithPlan(s: Store, goalId: Text, p: StoredPlan): Store {
    Store(s.goals[goalId := GoalPlanned], s.plans[p.id := p], s.plansByGoal[goalId := p.id])
  }

  /** A plan of the goal that waits for approval and of which nothing has been done. */
  predicate IsNew(p: StoredPlan, planId: Text, goalId: Text) {
    && p.id == planId && p.goalId == goalId && p.status == PlanAwaitingApproval
    && forall i :: 0 <= i < |p.steps| ==>
         p.steps[i].status == Pending && p.steps[i].index == i && p.steps[i].output.None? && p.steps[i].failureReason.None?
  }

  /** The caller's tiers are known and include `patch-proposal`, and so are the kinds and tiers of the steps. */
  predicate ValidParts(inputs: seq<StepInput>, permitted: Option<seq<Tier>>) {
    && (permitted.Some? ==> PatchProposal in permitted.value && forall t :: t in permitted.value ==> !t.UnknownTier?)
    && forall i :: 0 <= i < |inputs| ==> !inputs[i].kind.UnknownKind? && (inputs[i].tier.Some? ==> !inputs[i].tier.value.UnknownTier?)
  }

  /** The plan is stored and the goal's, which is planned; nothing else changes. */
  predicate PutFor(s: Store, t: Store, goalId: Text, p: StoredPlan) {
    t.goals == s.goals[goalId := GoalPlanned] && t.plans == s.plans[p.id := p] && t.plansByGoal == s.plansByGoal[goalId := p.id]
  }

  predicate CanAttach(s: Store, goalId: Text) {
    goalId in s.goals && s.goals[goalId] == GoalDraft
  }

  predicate CanDerive(s: Store, goalId: Text, parentPlanId: Text) {
    goalId in s.goals && parentPlanId in s.plans && s.plans[parentPlanId].goalId == goalId
  }

  predicate CanApprove(s: Store, goalId: Text) {
    PlanOf(s, goalId).Some? && goalId in s.goals && PlanOf(s, goalId).value.status == PlanAwaitingApproval
  }

  function Approved(s: Store, goalId: Text): Store
    requires CanApprove(s, goalId)
  {
    var p := PlanOf(s, goalId).value;
    s.(plans := s.plans[p.id := p.(status := PlanApproved)], goals := s.goals[goalId := GoalApproved])
  }

  function Cancelled(s: Store, goalId: Text): Store {
    if goalId !in s.goals || s.goals[goalId] == GoalDone || s.goals[goalId] == GoalCancelled then s
    else
      var t := s.(goals := s.goals[goalId := GoalCancelled]);
      var p := PlanOf(t, goalId);
      if p.Some? && p.value.status != PlanDone then t.(plans := t.plans[p.value.id := p.value.(status := PlanCancelled)]) else t
  }

  function PausedPlan(s: Store, goalId: Text): Store {
    var p := PlanOf(s, goalId);
    if goalId !in s.goals || p.None? || p.value.status == PlanDone || p.value.status == PlanCancelled then s
    else s.(goals := s.goals[goalId := GoalPaused], plans := s.plans[p.value.id := p.value.(status := PlanPaused)])
  }

  // ---- Steps ----

  datatype Move = MarkRunning | BlockForGate | ApproveGate | Complete(output: Option<Text>) | Fail(reason: Text)

  /** The step after a move; an illegal move leaves it as it is. */
  function Moved(st: PlanStep, m: Move): PlanStep {
    match m
    case MarkRunning =>
      if (st.status == Pending && !st.isStateMutating) || st.status == GatedApproved then st.(status := Running) else st
    case BlockForGate => if st.status == Pending && st.isStateMutating then st.(status := BlockedNeedsGate) else st
    case ApproveGate => if st.status == BlockedNeedsGate then st.(status := GatedApproved) else st
    case Complete(output) => if st.status == Running then st.(status := Done, output := output) else st
    case Fail(reason) => st.(status := Failed, failureReason := Some(reason))
  }

  function FindStep(steps: seq<PlanStep>, stepId: Text, from: nat): (k: nat)
    requires from <= |steps|
    ensures from <= k <= |steps|
    ensures forall i :: from <= i < k ==> steps[i].id != stepId
    ensures k < |steps| ==> steps[k].id == stepId
    decreases |steps| - from
  {
    if from == |steps| || steps[from].id == stepId then from else FindStep(steps, stepId, from + 1)
  }

  predicate Active(status: PlanStatus) {
    status == PlanApproved || status == PlanExecuting
  }

  // The step that a move on this goal would change, if the plan allows moves at all.
  function MovableStep(s: Store, goalId: Text, stepId: Text): Option<nat> {
    var p := PlanOf(s, goalId);
    if p.None? || !Active(p.value.status) then None
    else
      var k := FindStep(p.value.steps, stepId, 0);
      if k == |p.value.steps| then None else Some(k)
  }

  predicate MoveHappens(s: Store, goalId: Text, stepId: Text, m: Move)
  {
    var k := MovableStep(s, goalId, stepId);
    k.Some? && var st := PlanOf(s, goalId).value.steps[k.value]; Moved(st, m).status != st.status || st.status == Failed
  }

  predicate AllDone(steps: seq<PlanStep>) {
    forall i :: 0 <= i < |steps| ==> steps[i].status == Done
  }

  function MovedPlan(p: StoredPlan, k: nat, m: Move): StoredPlan
    requires k < |p.steps|
  {
    var steps := p.steps[k := Moved(p.steps[k], m)];
    p.(steps := steps, status := if AllDone(steps) then PlanDone else if p.status == PlanApproved then PlanExecuting else p.status)
  }

  /** `transitionStep`: the plan starts executing with its first move, and is done with its last step. */
  function AfterMove(s: Store, goalId: Text, stepId: Text, m: Move): Store {
    if !MoveHappens(s, goalId, stepId, m) then s
    else
      var p := MovedPlan(PlanOf(s, goalId).value, MovableStep(s, goalId, stepId).value, m);
      s.(plans := s.plans[p.id := p],
         goals := if AllDone(p.steps) && goalId in s.goals then s.goals[goalId := GoalDone] else s.goals)
  }

  /** The move may be made from the step's status. Failing is always possible. */
  predicate Legal(st: PlanStep, m: Move) {
    match m
    case MarkRunning => st.status == GatedApproved || (st.status == Pending && !st.isStateMutating)
    case BlockForGate => st.status == Pending && st.isStateMutating
    case ApproveGate => st.status == BlockedNeedsGate
    case Complete(_) => st.status == Running
    case Fail(_) => true
  }

  /** The step has made the move, and nothing else about it has changed. */
  predicate HasMade(st: PlanStep, m: Move, r: PlanStep) {
    && r == st.(status := r.status, output := r.output, failureReason := r.failureReason)
    && r.status == (match m
                    case MarkRunning => Running
                    case BlockForGate => BlockedNeedsGate
                    case ApproveGate => GatedApproved
                    case Complete(_) => Done
                    case Fail(_) => Failed)
    && r.output == (if m.Complete? then m.output else st.output)
    && r.failureReason == (if m.Fail? then Some(m.reason) else st.failureReason)
  }

  /** `k` is the first step with this id. */
  ghost predicate FirstStep(steps: seq<PlanStep>, stepId: Text, k: nat) {
    k < |steps| && steps[k].id == stepId && forall i :: 0 <= i < k ==> steps[i].id != stepId
  }

  /** When a step moves and what moving it does: the first step with the id, of an approved or executing plan, if the move is
      legal; the plan is done with its last step and executing otherwise, and a goal is done with its plan. A failed step
      stays failed, but any move on it sets its plan executing. */
  lemma TransitionExactly(s: Store, goalId: Text, stepId: Text, m: Move, k: nat)
    requires PlanOf(s, goalId).Some? && FirstStep(PlanOf(s, goalId).value.steps, stepId, k)
    ensures var p := PlanOf(s, goalId).value;
            var t := AfterMove(s, goalId, stepId, m);
            && (MoveHappens(s, goalId, stepId, m) <==>
                  p.status in {PlanApproved, PlanExecuting} && (Legal(p.steps[k], m) || p.steps[k].status == Failed))
            && (!MoveHappens(s, goalId, stepId, m) ==> t == s)
            && (MoveHappens(s, goalId, stepId, m) ==>
                  && p.id in t.plans && t == Store(t.goals, s.plans[p.id := t.plans[p.id]], s.plansByGoal)
                  && StepMoved(p, t.plans[p.id], k, m)
                  && t.goals == if t.plans[p.id].status == PlanDone && goalId in s.goals then s.goals[goalId := GoalDone] else s.goals)
  {
    MoveExactly(PlanOf(s, goalId).value.steps[k], m);
  }

  predicate StepMoved(p: StoredPlan, q: StoredPlan, k: nat, m: Move)
    requires k < |p.steps|
  {
    && |q.steps| == |p.steps| && q == p.(steps := q.steps, status := q.status) && q.steps == p.steps[k := q.steps[k]]
    && (if Legal(p.steps[k], m) then HasMade(p.steps[k], m, q.steps[k]) else q.steps[k] == p.steps[k])
    && q.status == if forall i :: 0 <= i < |q.steps| ==> q.steps[i].status == Done then PlanDone else PlanExecuting
  }

  lemma MoveExactly(st: PlanStep, m: Move)
    ensures if Legal(st, m) then HasMade(st, m, Moved(st, m)) else Moved(st, m) == st
    ensures Moved(st, m).status != st.status || st.status == Failed <==> Legal(st, m) || st.status == Failed
  {
  }

  /** Without such a step there is nothing to move. */
  lemma NoStepNoMove(s: Store, goalId: Text, stepId: Text, m: Move)
    requires PlanOf(s, goalId).Some? ==>
               forall i :: 0 <= i < |PlanOf(s, goalId).value.steps| ==> PlanOf(s, goalId).value.steps[i].id != stepId
    ensures !MoveHappens(s, goalId, stepId, m) && AfterMove(s, goalId, stepId, m) == s
  {
  }

  predicate Runnable(st: PlanStep) {
    st.status == Pending || st.status == GatedApproved
  }

  /** The runnable step with the least index among the first `n`, the earliest of them. */
  function LeastRunnable(steps: seq<PlanStep>, n: nat): (r: Option<nat>)
    requires n <= |steps|
    ensures r.Some? ==> r.value < n && Runnable(steps[r.value])
    ensures r.Some? ==> forall i :: 0 <= i < n && Runnable(steps[i]) ==>
                          steps[r.value].index < steps[i].index || (steps[r.value].index == steps[i].index && r.value <= i)
    ensures r.None? ==> forall i :: 0 <= i < n ==> !Runnable(steps[i])
  {
    if n == 0 then None
    else
      var best := LeastRunnable(steps, n - 1);
      if Runnable(steps[n - 1]) && (best.None? || steps[n - 1].index < steps[best.value].index) then Some(n - 1) else best
  }

  function NextRunnable(s: Store, goalId: Text): Option<PlanStep> {
    var p := PlanOf(s, goalId);
    if p.None? || !Active(p.value.status) then None
    else
      var k := LeastRunnable(p.value.steps, |p.value.steps|);
      if k.None? then None else Some(p.value.steps[k.value])
  }

  // ---- The store ----

  class InMemoryGoalStore {
    var goals: map<Text, GoalStatus>
    var plans: map<Text, StoredPlan>
    var plansByGoal: map<Text, Text>

    function State(): Store
      reads this
    {
      Store(goals, plans, plansByGoal)
    }

    // plans are stored under their own id
    ghost predicate Valid()
      reads this
    {
      forall k :: k in plans ==> plans[k].id == k
    }

    constructor ()
      ensures Valid() && State() == EMPTY_STORE
    {
      goals := map[];
      plans := map[];
      plansByGoal := map[];
    }

    method CreateGoal(goalId: Text)
      requires Valid()
      modifies this
      ensures Valid() && State() == old(State()).(goals := old(goals)[goalId := GoalDraft])
    {
      goals := goals[goalId := GoalDraft];
    }

    /** `stepIds` are random ids. Returns nothing when the goal is no draft; throws when the plan is invalid. */
    method AttachPlan(planId: Text, goalId: Text, inputs: seq<StepInput>, stepIds: seq<Text>, permitted: Option<seq<Tier>>)
      returns (r: Result<Option<StoredPlan>>)
      requires Valid() && |stepIds| == |inputs|
      modifies this
      ensures Valid()
      ensures !old(CanAttach(State(), goalId)) ==> r == Ok(None) && State() == old(State())
      ensures old(CanAttach(State(), goalId)) ==>
                var p := NewPlan(planId, goalId, inputs, stepIds, permitted);
                if SchemaValid(p) then r == Ok(Some(p)) && State() == WithPlan(old(State()), goalId, p)
                else r.Threw? && State() == old(State())
      ensures r == Ok(None) <==> goalId !in old(goals) || old(goals)[goalId] != GoalDraft
      ensures r.Ok? && r.value.Some? ==> ValidParts(inputs, permitted)
      ensures ValidParts(inputs, permitted) ==> r.Ok?
      ensures r.Ok? && r.value.Some? ==> IsNew(r.value.value, planId, goalId) && r.value.value.parentPlanId.None?
      ensures r.Ok? && r.value.Some? ==>
                && r.value.value.permittedTiers == (if permitted.Some? then permitted.value else [PatchProposal])
                && PutFor(old(State()), State(), goalId, r.value.value)
    {
      if goalId !in goals || goals[goalId] != GoalDraft {
        return Ok(None);
      }
      var plan := NewPlan(planId, goalId, inputs, stepIds, permitted);
      if !SchemaValid(plan) {
        return Threw("Invalid Plan");
      }
      plans := plans[plan.id := plan];
      plansByGoal := plansByGoal[goalId := plan.id];
      goals := goals[goalId := GoalPlanned];
      return Ok(Some(plan));
    }

    method DerivePlan(planId: Text, goalId: Text, parentPlanId: Text, stepIds: seq<Text>) returns (r: Result<Option<StoredPlan>>)
      requires Valid() && (parentPlanId in plans ==> |stepIds| == |plans[parentPlanId].steps|)
      modifies this
      ensures Valid()
      ensures !old(CanDerive(State(), goalId, parentPlanId)) ==> r == Ok(None) && State() == old(State())
      ensures old(CanDerive(State(), goalId, parentPlanId)) ==>
                var p := DerivedPlan(old(plans[parentPlanId]), planId, stepIds);
                if SchemaValid(p) then r == Ok(Some(p)) && State() == WithPlan(old(State()), goalId, p)
                else r.Threw? && State() == old(State())
      ensures r == Ok(None) <==> goalId !in old(goals) || parentPlanId !in old(plans) || old(plans)[parentPlanId].goalId != goalId
      ensures r.Ok? && r.value.Some? ==>
                && IsNew(r.value.value, planId, goalId) && r.value.value.parentPlanId == Some(parentPlanId)
                && r.value.value.permittedTiers == old(plans)[parentPlanId].permittedTiers
                && PutFor(old(State()), State(), goalId, r.value.value)
    {
      if goalId !in goals || parentPlanId !in plans || plans[parentPlanId].goalId != goalId {
        return Ok(None);
      }
      var plan := DerivedPlan(plans[parentPlanId], planId, stepIds);
      if !SchemaValid(plan) {
        return Threw("Invalid Plan");
      }
      plans := plans[plan.id := plan];
      plansByGoal := plansByGoal[goalId := plan.id];
      goals := goals[goalId := GoalPlanned];
      return Ok(Some(plan));
    }

    method ApprovePlan(goalId: Text) returns (r: Option<StoredPlan>)
      requires Valid()
      modifies this
      ensures Valid()
      ensures r.Some? <==> old(CanApprove(State(), goalId))
      ensures State() == if old(CanApprove(State(), goalId)) then old(Approved(State(), goalId)) else old(State())
      ensures r.Some? <==> goalId in old(goals) && old(PlanOf(State(), goalId)).Some?
                           && old(PlanOf(State(), goalId)).value.status == PlanAwaitingApproval
      ensures r.Some? ==>
                && r.value == old(PlanOf(State(), goalId)).value.(status := PlanApproved)
                && plans == old(plans)[r.value.id := r.value] && goals == old(goals)[goalId := GoalApproved]
                && plansByGoal == old(plansByGoal)
    {
      var found := PlanOf(State(), goalId);
      if found.None? || goalId !in goals || found.value.status != PlanAwaitingApproval {
        return None;
      }
      var plan := found.value.(status := PlanApproved);
      plans := plans[plan.id := plan];
      goals := goals[goalId := GoalApproved];
      return Some(plan);
    }

    method TransitionStep(goalId: Text, stepId: Text, m: Move) returns (r: Option<PlanStep>)
      requires Valid()
      modifies this
      ensures Valid() && State() == AfterMove(old(State()), goalId, stepId, m)
      ensures r.Some? <==> old(MoveHappens(State(), goalId, stepId, m))
      ensures r.Some? ==> r.value == Moved(old(PlanOf(State(), goalId).value.steps[MovableStep(State(), goalId, stepId).value]), m)
    {
      var found := PlanOf(State(), goalId);
      if found.None? || !Active(found.value.status) {
        return None;
      }
      var plan := found.value;
      var k := FindStep(plan.steps, stepId, 0);
      if k == |plan.steps| {
        return None;
      }
      var before := plan.steps[k].status;
      var step := Moved(plan.steps[k], m);
      if step.status == before && before != Failed {
        return None;
      }
      plan := plan.(steps := plan.steps[k := step]);
      if plan.status == PlanApproved {
        plan := plan.(status := PlanExecuting);
      }
      if AllDone(plan.steps) {
        plan := plan.(status := PlanDone);
        if goalId in goals {
          goals := goals[goalId := GoalDone];
        }
      }
      plans := plans[plan.id := plan];
      return Some(step);
    }

    method CancelGoal(goalId: Text)
      requires Valid()
      modifies this
      ensures Valid() && State() == Cancelled(old(State()), goalId) && plansByGoal == old(plansByGoal)
      ensures goalId in old(goals) && old(goals)[goalId] !in {GoalDone, GoalCancelled} ==>
                && goals == old(goals)[goalId := GoalCancelled]
                && (var p := old(PlanOf(State(), goalId));
                    plans == if p.Some? && p.value.status != PlanDone
                             then old(plans)[p.value.id := p.value.(status := PlanCancelled)] else old(plans))
      ensures !(goalId in old(goals) && old(goals)[goalId] !in {GoalDone, GoalCancelled}) ==> State() == old(State())
    {
      if goalId !in goals || goals[goalId] == GoalDone || goals[goalId] == GoalCancelled {
        return;
      }
      goals := goals[goalId := GoalCancelled];
      var found := PlanOf(State(), goalId);
      if found.Some? && found.value.status != PlanDone {
        plans := plans[found.value.id := found.value.(status := PlanCancelled)];
      }
    }

    method PausePlan(goalId: Text)
      requires Valid()
      modifies this
      ensures Valid() && State() == PausedPlan(old(State()), goalId) && plansByGoal == old(plansByGoal)
      ensures var p := old(PlanOf(State(), goalId));
              if goalId in old(goals) && p.Some? && p.value.status !in {PlanDone, PlanCancelled}
              then goals == old(goals)[goalId := GoalPaused] && plans == old(plans)[p.value.id := p.value.(status := PlanPaused)]
              else State() == old(State())
    {
      var found := PlanOf(State(), goalId);
      if goalId !in goals || found.None? || found.value.status == PlanDone || found.value.status == PlanCancelled {
        return;
      }
      goals := goals[goalId := GoalPaused];
      plans := plans[found.value.id := found.value.(status := PlanPaused)];
    }
  }
}
