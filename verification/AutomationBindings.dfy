/** The automation binding store: what every reachable store keeps, that locked bindings never move,
    that endpoint snapshots never go stale, and that export and hydration are inverse. */
module AutomationBindings {
  import opened Wrappers
  import opened Texts
  import opened OrderedMaps
  import opened Json
  import opened Bindings
  import opened EndpointRegistry

  datatype CreateInput = CreateInput(
    goalId: Text,
    planId: Text,
    parentPlanId: Option<Text>,
    reasoningEndpointId: Text,
    executionEndpointId: Text,
    reasoningTier: Text,
    executionTier: Text,
    executionPermissionProfile: Text,
    executionWorkingDirectoryRef: Text,
    maxSteps: FiniteNumber,
    maxReasoningRounds: FiniteNumber,
    deadlineAt: Text)

  /** The optional fields of an update or a derivation; `None` is a field the caller leaves out. */
  datatype Patch = Patch(
    reasoningEndpointId: Option<Text>,
    executionEndpointId: Option<Text>,
    reasoningTier: Option<Text>,
    executionTier: Option<Text>,
    executionPermissionProfile: Option<Text>,
    executionWorkingDirectoryRef: Option<Text>,
    maxSteps: Option<FiniteNumber>,
    maxReasoningRounds: Option<FiniteNumber>,
    deadlineAt: Option<Text>)

  datatype DeriveInput = DeriveInput(parentPlanId: Text, goalId: Text, planId: Text, patch: Patch)

  /** What the store is given: the hash of the authority fields, the known projects, and which strings
      `Date.parse` accepts. */
  datatype Env = Env(hashOf: Authority -> Text, projectExists: Text -> bool, isDate: Text -> bool)

  /** The hash the program uses, over a digest about which nothing is assumed. */
  function ServerEnv(hash: Text -> Text, projectExists: Text -> bool, isDate: Text -> bool): Env {
    Env(a => Sha256(hash, AuthorityText(a)), projectExists, isDate)
  }

  type Store = OrderedMap<Text, Binding>

  // ---- Validation and construction ----

  predicate WholeBetween(x: Number, lo: int, hi: int) {
    x.Whole? && lo <= x.n <= hi
  }

  function RequiredTexts(input: CreateInput): seq<(string, Text)> {
    [("goalId", input.goalId),
     ("planId", input.planId),
     ("reasoningEndpointId", input.reasoningEndpointId),
     ("executionEndpointId", input.executionEndpointId),
     ("executionPermissionProfile", input.executionPermissionProfile),
     ("executionWorkingDirectoryRef", input.executionWorkingDirectoryRef),
     ("deadlineAt", input.deadlineAt)]
  }

  function FirstBlank(texts: seq<(string, Text)>): Option<string> {
    if texts == [] then None
    else if Trim(texts[0].1) == [] then Some(texts[0].0 + " is required")
    else FirstBlank(texts[1..])
  }

  predicate KnownReasoningTier(t: Text) { t == Ascii("high") }

  predicate KnownExecutionTier(t: Text) { t == Ascii("medium") || t == Ascii("low") }

  function InputFailure(env: Env, input: CreateInput): Option<string> {
    var blank := FirstBlank(RequiredTexts(input));
    if blank.Some? then blank
    else if !KnownReasoningTier(input.reasoningTier) then Some("reasoningTier must be high")
    else if !KnownExecutionTier(input.executionTier) then Some("executionTier must be medium or low")
    else if !env.projectExists(input.executionWorkingDirectoryRef) then Some("project reference is unknown")
    else if !WholeBetween(input.maxSteps, 1, 50) then Some("maxSteps must be between 1 and 50")
    else if !WholeBetween(input.maxReasoningRounds, 1, 20) then Some("maxReasoningRounds must be between 1 and 20")
    else if !env.isDate(input.deadlineAt) then Some("deadlineAt must be an ISO date string")
    else None
  }

  /** `assertRunEndpointBinding`, beyond what the types already say. */
  predicate SchemaValid(env: Env, b: Binding) {
    KnownReasoningTier(b.reasoningTier) && KnownExecutionTier(b.executionTier) && env.isDate(b.deadlineAt)
    && SHA256 <= b.bindingHash
  }

  predicate CanReason(e: Endpoint) {
    e.capabilities.canAcceptPrompt || e.capabilities.canReview || e.capabilities.canSummarize
  }

  function Draft(input: CreateInput, reasoning: Endpoint, execution: Endpoint, now: int): Binding {
    Binding(input.goalId, input.planId, input.parentPlanId, input.reasoningEndpointId, input.executionEndpointId,
            RefOf(reasoning), RefOf(execution), input.reasoningTier, input.executionTier,
            input.executionPermissionProfile, input.executionWorkingDirectoryRef, input.maxSteps,
            input.maxReasoningRounds, input.deadlineAt, now, now, [], None)
  }

  function Built(env: Env, eps: Endpoints, input: CreateInput, now: int): Result<Binding> {
    var failure := InputFailure(env, input);
    if failure.Some? then Threw(failure.value)
    else if input.reasoningEndpointId !in eps.entries then Threw("reasoning endpoint not found")
    else if input.executionEndpointId !in eps.entries then Threw("execution endpoint not found")
    else
      var reasoning, execution := eps.entries[input.reasoningEndpointId], eps.entries[input.executionEndpointId];
      if !CanReason(reasoning) then Threw("reasoning endpoint lacks reasoning capability")
      else if !execution.capabilities.canExecute then Threw("execution endpoint must have canExecute=true")
      else
        var draft := Draft(input, reasoning, execution, now);
        var binding := draft.(bindingHash := env.hashOf(AuthorityOf(draft)));
        if !SchemaValid(env, binding) then Threw("Invalid RunEndpointBinding") else Ok(binding)
  }

  // `{ ...existing, ...input }` with the identity of the existing binding.
  function UpdatedInput(existing: Binding, p: Patch): CreateInput {
    Inherited(existing, existing.goalId, existing.planId, existing.parentPlanId, p)
  }

  function Inherited(base: Binding, goalId: Text, planId: Text, parentPlanId: Option<Text>, p: Patch): CreateInput {
    CreateInput(goalId, planId, parentPlanId,
                OrElse(p.reasoningEndpointId, base.reasoningEndpointId),
                OrElse(p.executionEndpointId, base.executionEndpointId),
                OrElse(p.reasoningTier, base.reasoningTier),
                OrElse(p.executionTier, base.executionTier),
                OrElse(p.executionPermissionProfile, base.executionPermissionProfile),
                OrElse(p.executionWorkingDirectoryRef, base.executionWorkingDirectoryRef),
                OrElse<FiniteNumber>(p.maxSteps, base.maxSteps),
                OrElse<FiniteNumber>(p.maxReasoningRounds, base.maxReasoningRounds),
                OrElse(p.deadlineAt, base.deadlineAt))
  }

  function FullPatch(input: CreateInput): Patch {
    Patch(Some(input.reasoningEndpointId), Some(input.executionEndpointId), Some(input.reasoningTier),
          Some(input.executionTier), Some(input.executionPermissionProfile), Some(input.executionWorkingDirectoryRef),
          Some(input.maxSteps), Some(input.maxReasoningRounds), Some(input.deadlineAt))
  }

  // ---- Store calls ----

  datatype StoreOp =
    | Create(input: CreateInput, now: int)
    | Update(planId: Text, patch: Patch, now: int)
    | Lock(planId: Text, now: int)
    | Derive(derive: DeriveInput, now: int)
    | Commit(binding: Binding)

  function Preview(env: Env, eps: Endpoints, st: Store, d: DeriveInput, now: int): Result<Binding> {
    if d.parentPlanId !in st.entries then Threw("parent binding not found")
    else Built(env, eps, Inherited(st.entries[d.parentPlanId], d.goalId, d.planId, Some(d.parentPlanId), d.patch), now)
  }

  function UpdateOutcome(env: Env, eps: Endpoints, st: Store, planId: Text, p: Patch, now: int): Result<Binding> {
    if planId !in st.entries then Threw("binding not found")
    else if st.entries[planId].lockedAt.Some? then Threw("binding is locked")
    else Built(env, eps, UpdatedInput(st.entries[planId], p), now)
  }

  function CommitOutcome(env: Env, st: Store, b: Binding): Result<Binding> {
    if !SchemaValid(env, b) then Threw("Invalid RunEndpointBinding")
    else if b.bindingHash != env.hashOf(AuthorityOf(b)) then Threw("binding hash mismatch")
    else if b.planId in st.entries && st.entries[b.planId].lockedAt.Some? then Threw("binding is locked")
    else Ok(b)
  }

  /** The binding a call stores and returns, or why it throws. Locking an unknown plan returns nothing. */
  function StoreOutcome(env: Env, eps: Endpoints, st: Store, op: StoreOp): Result<Option<Binding>> {
    match op
    case Create(input, now) =>
      Returned(if input.planId in st.entries then UpdateOutcome(env, eps, st, input.planId, FullPatch(input), now)
               else Built(env, eps, input, now))
    case Update(planId, p, now) => Returned(UpdateOutcome(env, eps, st, planId, p, now))
    case Lock(planId, now) =>
      if planId !in st.entries then Ok(None)
      else
        var b := st.entries[planId];
        if b.lockedAt.Some? then Ok(Some(b))
        else
          var locked := b.(lockedAt := Some(now), updatedAt := now);
          if !SchemaValid(env, locked) then Threw("Invalid RunEndpointBinding")
          else if locked.bindingHash != env.hashOf(AuthorityOf(locked)) then Threw("binding hash mismatch")
          else Ok(Some(locked))
    case Derive(d, now) =>
      var preview := Preview(env, eps, st, d, now);
      if preview.Threw? then Threw(preview.reason) else Returned(CommitOutcome(env, st, preview.value))
    case Commit(b) => Returned(CommitOutcome(env, st, b))
  }

  function Returned(r: Result<Binding>): Result<Option<Binding>> {
    match r
    case Ok(b) => Ok(Some(b))
    case Threw(reason) => Threw(reason)
  }

  function StoreStep(env: Env, eps: Endpoints, st: Store, op: StoreOp): Store {
    match StoreOutcome(env, eps, st, op)
    case Ok(Some(b)) => st.Put(b.planId, b)
    case _ => st
  }

  predicate HydrateAccepts(env: Env, b: Binding) {
    SchemaValid(env, b) && b.bindingHash == env.hashOf(AuthorityOf(b))
  }

  // ---- What every reachable store keeps ----

  /** Every plan id maps to a binding of that plan, schema-valid, whose hash is the hash of its fields. */
  ghost predicate StoreValid(env: Env, st: Store) {
    st.Valid() && forall k :: k in st.entries ==> st.entries[k].planId == k && HydrateAccepts(env, st.entries[k])
  }

  lemma BuiltValid(env: Env, eps: Endpoints, input: CreateInput, now: int)
    requires Built(env, eps, input, now).Ok?
    ensures HydrateAccepts(env, Built(env, eps, input, now).value)
    ensures Built(env, eps, input, now).value.planId == input.planId
    ensures Built(env, eps, input, now).value.lockedAt.None?
  {
    var b := Built(env, eps, input, now).value;
    assert AuthorityOf(b) == AuthorityOf(b.(bindingHash := []));
  }

  // What a stored result is: sound, and no replacement of a locked binding.
  ghost predicate SoundResult(env: Env, st: Store, r: Result<Option<Binding>>) {
    r.Ok? && r.value.Some? ==>
      var b := r.value.value;
      && HydrateAccepts(env, b)
      && (b.planId in st.entries && st.entries[b.planId].lockedAt.Some? ==> b == st.entries[b.planId])
  }

  lemma UpdateSound(env: Env, eps: Endpoints, st: Store, planId: Text, p: Patch, now: int)
    requires StoreValid(env, st)
    ensures SoundResult(env, st, Returned(UpdateOutcome(env, eps, st, planId, p, now)))
    ensures UpdateOutcome(env, eps, st, planId, p, now).Ok? ==>
              planId in st.entries && UpdateOutcome(env, eps, st, planId, p, now).value.planId == planId
  {
    if UpdateOutcome(env, eps, st, planId, p, now).Ok? {
      BuiltValid(env, eps, UpdatedInput(st.entries[planId], p), now);
    }
  }

  lemma LockSound(env: Env, eps: Endpoints, st: Store, planId: Text, now: int)
    requires StoreValid(env, st)
    ensures SoundResult(env, st, StoreOutcome(env, eps, st, Lock(planId, now)))
  {
    if planId in st.entries {
      assert AuthorityOf(st.entries[planId].(lockedAt := Some(now), updatedAt := now)) == AuthorityOf(st.entries[planId]);
    }
  }

  lemma OutcomeSound(env: Env, eps: Endpoints, st: Store, op: StoreOp)
    requires StoreValid(env, st)
    ensures SoundResult(env, st, StoreOutcome(env, eps, st, op))
  {
    match op
    case Create(input, now) =>
      if input.planId in st.entries {
        UpdateSound(env, eps, st, input.planId, FullPatch(input), now);
      } else if Built(env, eps, input, now).Ok? {
        BuiltValid(env, eps, input, now);
      }
    case Update(planId, p, now) => UpdateSound(env, eps, st, planId, p, now);
    case Lock(planId, now) => LockSound(env, eps, st, planId, now);
    case Derive(d, now) =>
    case Commit(b) =>
  }

  lemma PutSound(env: Env, st: Store, b: Binding)
    requires StoreValid(env, st) && HydrateAccepts(env, b)
    ensures StoreValid(env, st.Put(b.planId, b))
  {
  }

  lemma StoreStepValid(env: Env, eps: Endpoints, st: Store, op: StoreOp)
    requires StoreValid(env, st)
    ensures StoreValid(env, StoreStep(env, eps, st, op))
  {
    OutcomeSound(env, eps, st, op);
    var r := StoreOutcome(env, eps, st, op);
    if r.Ok? && r.value.Some? {
      PutSound(env, st, r.value.value);
    }
  }

  /** No call moves a locked binding. */
  lemma LockedStepKept(env: Env, eps: Endpoints, st: Store, op: StoreOp, planId: Text)
    requires StoreValid(env, st) && planId in st.entries && st.entries[planId].lockedAt.Some?
    ensures planId in StoreStep(env, eps, st, op).entries
    ensures StoreStep(env, eps, st, op).entries[planId] == st.entries[planId]
  {
    OutcomeSound(env, eps, st, op);
  }

  // ---- Whole runs: the registry and the store interleaved ----

  /** The registry, the store, and the bindings previewed so far (a derived binding is committed later,
      after the derived plan was created). */
  datatype System = System(eps: Endpoints, st: Store, previews: set<Binding>)

  datatype SystemOp =
    | Registry(rop: RegistryOp)
    | StoreCall(sop: StoreOp)
    | PreviewDerived(derive: DeriveInput, now: int)
    | HydrateCall(binding: Binding)

  function SystemStep(env: Env, s: System, op: SystemOp): System {
    match op
    case Registry(rop) => s.(eps := RegistryStep(s.eps, rop))
    case StoreCall(sop) => s.(st := StoreStep(env, s.eps, s.st, sop))
    case PreviewDerived(d, now) =>
      var p := Preview(env, s.eps, s.st, d, now);
      if p.Ok? then s.(previews := s.previews + {p.value}) else s
    case HydrateCall(b) => s.(st := Hydrated(env, s.st, b))
  }

  function SystemRun(env: Env, s: System, ops: seq<SystemOp>): System
    decreases |ops|
  {
    if ops == [] then s else SystemRun(env, SystemStep(env, s, ops[0]), ops[1..])
  }

  const START := System(Empty(), Empty(), {})

  ghost predicate SystemValid(env: Env, s: System) {
    RegistryValid(s.eps) && StoreValid(env, s.st)
  }

  lemma SystemStepValid(env: Env, s: System, op: SystemOp)
    requires SystemValid(env, s)
    ensures SystemValid(env, SystemStep(env, s, op))
  {
    match op
    case Registry(rop) => RegistryStepKeeps(s.eps, rop);
    case StoreCall(sop) => StoreStepValid(env, s.eps, s.st, sop);
    case PreviewDerived(d, now) =>
    case HydrateCall(b) =>
  }

  /** In every reachable store each plan id maps to a binding of that plan whose hash matches its fields. */
  lemma {:induction false} ReachableStoreValid(env: Env, s: System, ops: seq<SystemOp>)
    requires SystemValid(env, s)
    ensures SystemValid(env, SystemRun(env, s, ops))
    decreases |ops|
  {
    if ops != [] {
      SystemStepValid(env, s, ops[0]);
      ReachableStoreValid(env, SystemStep(env, s, ops[0]), ops[1..]);
    }
  }

  ghost predicate Stored(s: System, b: Binding) {
    b.planId in s.st.entries && s.st.entries[b.planId] == b
  }

  /** Restoring another accepted binding of the same plan. */
  predicate Replaces(env: Env, op: SystemOp, b: Binding) {
    op.HydrateCall? && HydrateAccepts(env, op.binding) && op.binding.planId == b.planId && op.binding != b
  }

  /** Exactly one kind of call moves a locked binding: a restored snapshot of its plan replaces it, lock or no lock. */
  lemma LockedMovesExactly(env: Env, s: System, op: SystemOp, b: Binding)
    requires SystemValid(env, s) && Stored(s, b) && b.lockedAt.Some?
    ensures Stored(SystemStep(env, s, op), b) <==> !Replaces(env, op, b)
  {
    if op.StoreCall? {
      LockedStepKept(env, s.eps, s.st, op.sop, b.planId);
    }
  }

  ghost predicate StoredThroughout(env: Env, s: System, ops: seq<SystemOp>, b: Binding)
    decreases |ops|
  {
    Stored(s, b) && (ops != [] ==> StoredThroughout(env, SystemStep(env, s, ops[0]), ops[1..], b))
  }

  /** Once locked, a binding stays as it is throughout a run exactly when the run restores no other snapshot of its plan. */
  lemma {:induction false} LockedForever(env: Env, s: System, ops: seq<SystemOp>, b: Binding)
    requires SystemValid(env, s) && Stored(s, b) && b.lockedAt.Some?
    ensures StoredThroughout(env, s, ops, b) <==> forall i :: 0 <= i < |ops| ==> !Replaces(env, ops[i], b)
    decreases |ops|
  {
    if ops != [] {
      var t := SystemStep(env, s, ops[0]);
      SystemStepValid(env, s, ops[0]);
      LockedMovesExactly(env, s, ops[0], b);
      if Stored(t, b) {
        LockedForever(env, t, ops[1..], b);
        assert forall i :: 0 < i < |ops| ==> ops[i] == ops[1..][i - 1];
      }
    }
  }

  // ---- Endpoint snapshots ----

  /** The snapshots in the binding are what the registry says now, and the executor may execute. */
  ghost predicate Fresh(eps: Endpoints, b: Binding) {
    && b.reasoningEndpointId in eps.entries && b.reasoningEndpoint == RefOf(eps.entries[b.reasoningEndpointId])
    && b.executionEndpointId in eps.entries && b.executionEndpoint == RefOf(eps.entries[b.executionEndpointId])
    && b.executionEndpoint.canExecute
  }

  ghost predicate AllFresh(s: System) {
    && (forall k :: k in s.st.entries ==> Fresh(s.eps, s.st.entries[k]))
    && (forall b :: b in s.previews ==> Fresh(s.eps, b))
  }

  /** A binding that the call brings in, by committing or restoring it, is fresh when it comes in. */
  ghost predicate ComesInFresh(env: Env, s: System, op: SystemOp) {
    match op
    case StoreCall(Commit(b)) => CommitOutcome(env, s.st, b).Ok? ==> Fresh(s.eps, b)
    case HydrateCall(b) => HydrateAccepts(env, b) ==> Fresh(s.eps, b)
    case _ => true
  }

  lemma BuiltFresh(env: Env, eps: Endpoints, input: CreateInput, now: int)
    requires Built(env, eps, input, now).Ok?
    ensures Fresh(eps, Built(env, eps, input, now).value)
  {
  }

  ghost predicate FreshResult(eps: Endpoints, r: Result<Option<Binding>>) {
    r.Ok? && r.value.Some? ==> Fresh(eps, r.value.value)
  }

  lemma LockFresh(env: Env, eps: Endpoints, st: Store, planId: Text, now: int)
    requires planId in st.entries ==> Fresh(eps, st.entries[planId])
    ensures FreshResult(eps, StoreOutcome(env, eps, st, Lock(planId, now)))
  {
  }

  lemma OutcomeFresh(env: Env, s: System, op: StoreOp)
    requires AllFresh(s) && ComesInFresh(env, s, StoreCall(op))
    ensures FreshResult(s.eps, StoreOutcome(env, s.eps, s.st, op))
  {
    match op
    case Create(input, now) =>
      if input.planId in s.st.entries {
        UpdateFresh(env, s.eps, s.st, input.planId, FullPatch(input), now);
      } else if Built(env, s.eps, input, now).Ok? {
        BuiltFresh(env, s.eps, input, now);
      }
    case Update(planId, p, now) => UpdateFresh(env, s.eps, s.st, planId, p, now);
    case Lock(planId, now) => LockFresh(env, s.eps, s.st, planId, now);
    case Derive(d, now) => PreviewFresh(env, s.eps, s.st, d, now);
    case Commit(b) =>
  }

  lemma UpdateFresh(env: Env, eps: Endpoints, st: Store, planId: Text, p: Patch, now: int)
    ensures UpdateOutcome(env, eps, st, planId, p, now).Ok? ==> Fresh(eps, UpdateOutcome(env, eps, st, planId, p, now).value)
  {
    if UpdateOutcome(env, eps, st, planId, p, now).Ok? {
      BuiltFresh(env, eps, UpdatedInput(st.entries[planId], p), now);
    }
  }

  lemma PreviewFresh(env: Env, eps: Endpoints, st: Store, d: DeriveInput, now: int)
    ensures Preview(env, eps, st, d, now).Ok? ==> Fresh(eps, Preview(env, eps, st, d, now).value)
  {
    if Preview(env, eps, st, d, now).Ok? {
      BuiltFresh(env, eps, Inherited(st.entries[d.parentPlanId], d.goalId, d.planId, Some(d.parentPlanId), d.patch), now);
    }
  }

  lemma StayFresh(eps: Endpoints, op: RegistryOp, b: Binding)
    requires RegistryValid(eps) && Fresh(eps, b)
    ensures Fresh(RegistryStep(eps, op), b)
  {
    RegistryStepKeeps(eps, op);
  }

  lemma StepFresh(env: Env, s: System, op: SystemOp)
    requires SystemValid(env, s) && AllFresh(s) && ComesInFresh(env, s, op)
    ensures AllFresh(SystemStep(env, s, op))
  {
    match op
    case Registry(rop) =>
      forall k | k in s.st.entries ensures Fresh(RegistryStep(s.eps, rop), s.st.entries[k]) {
        StayFresh(s.eps, rop, s.st.entries[k]);
      }
      forall b | b in s.previews ensures Fresh(RegistryStep(s.eps, rop), b) {
        StayFresh(s.eps, rop, b);
      }
    case StoreCall(sop) => OutcomeFresh(env, s, sop);
    case PreviewDerived(d, now) => PreviewFresh(env, s.eps, s.st, d, now);
    case HydrateCall(b) =>
  }

  lemma StaleStays(env: Env, s: System, op: SystemOp)
    requires !ComesInFresh(env, s, op)
    ensures !AllFresh(SystemStep(env, s, op))
  {
    var b := if op.HydrateCall? then op.binding else op.sop.binding;
    var t := SystemStep(env, s, op);
    assert t.eps == s.eps && t.st == s.st.Put(b.planId, b);
    assert t.st.entries[b.planId] == b;
  }

  /** A call leaves every snapshot fresh exactly when what it brings in is fresh. */
  lemma StepFreshExactly(env: Env, s: System, op: SystemOp)
    requires SystemValid(env, s) && AllFresh(s)
    ensures AllFresh(SystemStep(env, s, op)) <==> ComesInFresh(env, s, op)
  {
    if ComesInFresh(env, s, op) {
      StepFresh(env, s, op);
    } else {
      StaleStays(env, s, op);
    }
  }

  ghost predicate FreshThroughout(env: Env, s: System, ops: seq<SystemOp>)
    decreases |ops|
  {
    AllFresh(s) && (ops != [] ==> FreshThroughout(env, SystemStep(env, s, ops[0]), ops[1..]))
  }

  ghost predicate AllComeInFresh(env: Env, s: System, ops: seq<SystemOp>)
    decreases |ops|
  {
    ops != [] ==> ComesInFresh(env, s, ops[0]) && AllComeInFresh(env, SystemStep(env, s, ops[0]), ops[1..])
  }

  /** Stored snapshots never go stale by themselves: under any interleaving of registry calls and store calls, each stored
      label, transport and execute capability is the registry's current one throughout, and the executor can execute,
      exactly when every binding that is committed or restored is fresh as it comes in. */
  lemma {:induction false} SnapshotsNeverStale(env: Env, s: System, ops: seq<SystemOp>)
    requires SystemValid(env, s) && AllFresh(s)
    ensures FreshThroughout(env, s, ops) <==> AllComeInFresh(env, s, ops)
    decreases |ops|
  {
    if ops != [] {
      SystemStepValid(env, s, ops[0]);
      StepFreshExactly(env, s, ops[0]);
      if ComesInFresh(env, s, ops[0]) {
        SnapshotsNeverStale(env, SystemStep(env, s, ops[0]), ops[1..]);
      }
    }
  }

  // The call brings in no binding from outside: a commit takes a binding that was previewed.
  predicate Internal(s: System, op: SystemOp) {
    match op
    case StoreCall(Commit(b)) => b in s.previews
    case HydrateCall(b) => false
    case _ => true
  }

  ghost predicate InternalRun(env: Env, s: System, ops: seq<SystemOp>)
    decreases |ops|
  {
    ops != [] ==> Internal(s, ops[0]) && InternalRun(env, SystemStep(env, s, ops[0]), ops[1..])
  }

  /** A preview stays fresh until it is committed, so a run that brings in nothing from outside is fresh throughout. */
  lemma {:induction false} InternalRunFresh(env: Env, s: System, ops: seq<SystemOp>)
    requires SystemValid(env, s) && AllFresh(s) && InternalRun(env, s, ops)
    ensures FreshThroughout(env, s, ops)
    decreases |ops|
  {
    if ops != [] {
      SystemStepValid(env, s, ops[0]);
      StepFresh(env, s, ops[0]);
      InternalRunFresh(env, SystemStep(env, s, ops[0]), ops[1..]);
    }
  }

  /** In particular from an empty registry and an empty store. */
  lemma FreshFromStart(env: Env, ops: seq<SystemOp>)
    ensures SystemValid(env, SystemRun(env, START, ops))
    ensures FreshThroughout(env, START, ops) <==> AllComeInFresh(env, START, ops)
    ensures InternalRun(env, START, ops) ==> FreshThroughout(env, START, ops)
  {
    ReachableStoreValid(env, START, ops);
    SnapshotsNeverStale(env, START, ops);
    if InternalRun(env, START, ops) {
      InternalRunFresh(env, START, ops);
    }
  }

  // ---- Export and hydration ----

  function Hydrated(env: Env, st: Store, b: Binding): Store {
    if HydrateAccepts(env, b) then st.Put(b.planId, b) else st
  }

  function HydrateAll(env: Env, st: Store, bindings: seq<Binding>): Store
    decreases |bindings|
  {
    if bindings == [] then st else HydrateAll(env, Hydrated(env, st, bindings[0]), bindings[1..])
  }

  // The store restricted to its first `n` plans.
  ghost function Prefix(st: Store, n: nat): Store
    requires st.Valid() && n <= |st.order|
  {
    OrderedMap(st.order[..n], map k | k in st.entries && k in st.order[..n] :: st.entries[k])
  }

  lemma {:induction false} HydrateRest(env: Env, st: Store, n: nat)
    requires StoreValid(env, st) && n <= |st.order|
    ensures HydrateAll(env, Prefix(st, n), Values(st)[n..]) == st
    decreases |st.order| - n
  {
    if n == |st.order| {
      PrefixWhole(st);
    } else {
      StoredAccepted(env, st, n);
      PrefixPut(st, n);
      HydrateNext(env, Prefix(st, n), Values(st), n);
      HydrateRest(env, st, n + 1);
    }
  }

  lemma PrefixWhole(st: Store)
    requires st.Valid()
    ensures Prefix(st, |st.order|) == st
  {
    assert st.order[..|st.order|] == st.order;
    assert Prefix(st, |st.order|).entries == st.entries;
  }

  lemma StoredAccepted(env: Env, st: Store, n: nat)
    requires StoreValid(env, st) && n < |st.order|
    ensures st.order[n] in st.entries && Values(st)[n] == st.entries[st.order[n]]
    ensures Values(st)[n].planId == st.order[n] && HydrateAccepts(env, Values(st)[n])
  {
    assert st.order[n] in st.order;
  }

  lemma HydrateNext(env: Env, st: Store, bindings: seq<Binding>, n: nat)
    requires n < |bindings| && HydrateAccepts(env, bindings[n])
    ensures HydrateAll(env, st, bindings[n..]) == HydrateAll(env, st.Put(bindings[n].planId, bindings[n]), bindings[n + 1..])
  {
    assert bindings[n..][0] == bindings[n] && bindings[n..][1..] == bindings[n + 1..];
  }

  lemma PrefixPut(st: Store, n: nat)
    requires st.Valid() && n < |st.order|
    ensures st.order[n] in st.entries && Prefix(st, n).Put(st.order[n], st.entries[st.order[n]]) == Prefix(st, n + 1)
  {
    var k := st.order[n];
    assert k in st.order;
    assert k !in st.order[..n];
    assert st.order[..n + 1] == st.order[..n] + [k];
    assert Prefix(st, n).Put(k, st.entries[k]).entries == Prefix(st, n + 1).entries;
  }

  /** Exporting a valid store and hydrating an empty one rebuilds the same bindings, in the same order. */
  lemma ExportHydrateRoundTrip(env: Env, st: Store)
    requires StoreValid(env, st)
    ensures HydrateAll(env, Empty(), Values(st)) == st
  {
    HydrateRest(env, st, 0);
    assert Prefix(st, 0) == Empty<Text, Binding>();
    assert Values(st)[0..] == Values(st);
  }

  // ---- When a binding can be built ----

  /** With the program's hash the closing schema assertion never fires: a binding is built exactly when the
      input is valid and both endpoints are registered with the capability their role needs. */
  lemma BuiltExactly(hash: Text -> Text, projectExists: Text -> bool, isDate: Text -> bool, eps: Endpoints,
                     input: CreateInput, now: int)
    ensures var env := ServerEnv(hash, projectExists, isDate);
            Built(env, eps, input, now).Ok? <==>
              && ValidInput(env, input)
              && input.reasoningEndpointId in eps.entries
              && (var c := eps.entries[input.reasoningEndpointId].capabilities; c.canAcceptPrompt || c.canReview || c.canSummarize)
              && input.executionEndpointId in eps.entries && eps.entries[input.executionEndpointId].capabilities.canExecute
  {
    var env := ServerEnv(hash, projectExists, isDate);
    InputExactly(env, input);
    forall a: Authority ensures SHA256 <= env.hashOf(a) {
    }
  }

  /** What the store demands of its input. */
  predicate ValidInput(env: Env, input: CreateInput) {
    && Trim(input.goalId) != [] && Trim(input.planId) != []
    && Trim(input.reasoningEndpointId) != [] && Trim(input.executionEndpointId) != []
    && Trim(input.executionPermissionProfile) != [] && Trim(input.executionWorkingDirectoryRef) != [] && Trim(input.deadlineAt) != []
    && input.reasoningTier == Ascii("high") && input.executionTier in {Ascii("medium"), Ascii("low")}
    && env.projectExists(input.executionWorkingDirectoryRef) && env.isDate(input.deadlineAt)
    && (exists n :: 1 <= n <= 50 && input.maxSteps == Whole(n))
    && (exists n :: 1 <= n <= 20 && input.maxReasoningRounds == Whole(n))
  }

  lemma InputExactly(env: Env, input: CreateInput)
    ensures InputFailure(env, input).None? <==> ValidInput(env, input)
  {
    TextsGiven(input);
    assert input.maxSteps.Whole? ==> input.maxSteps == Whole(input.maxSteps.n);
    assert input.maxReasoningRounds.Whole? ==> input.maxReasoningRounds == Whole(input.maxReasoningRounds.n);
  }

  lemma TextsGiven(input: CreateInput)
    ensures FirstBlank(RequiredTexts(input)).None? <==>
              && Trim(input.goalId) != [] && Trim(input.planId) != []
              && Trim(input.reasoningEndpointId) != [] && Trim(input.executionEndpointId) != []
              && Trim(input.executionPermissionProfile) != [] && Trim(input.executionWorkingDirectoryRef) != []
              && Trim(input.deadlineAt) != []
  {
    var t := RequiredTexts(input);
    BlankExactly(t);
    assert t[0].1 == input.goalId && t[1].1 == input.planId && t[2].1 == input.reasoningEndpointId;
    assert t[3].1 == input.executionEndpointId && t[4].1 == input.executionPermissionProfile;
    assert t[5].1 == input.executionWorkingDirectoryRef && t[6].1 == input.deadlineAt;
  }

  lemma {:induction false} BlankExactly(texts: seq<(string, Text)>)
    ensures FirstBlank(texts).None? <==> forall i :: 0 <= i < |texts| ==> Trim(texts[i].1) != []
  {
    if texts != [] {
      BlankExactly(texts[1..]);
      assert forall i :: 0 < i < |texts| ==> texts[i] == texts[1..][i - 1];
    }
  }

  /** What a built binding is: the input's fields, the two endpoints as they are registered, both times now, not locked, and
      the hash of its own authority. */
  lemma BuiltFields(env: Env, eps: Endpoints, input: CreateInput, now: int)
    requires Built(env, eps, input, now).Ok?
    ensures var b := Built(env, eps, input, now).value;
            && b.goalId == input.goalId && b.planId == input.planId && b.parentPlanId == input.parentPlanId
            && b.reasoningEndpointId == input.reasoningEndpointId && b.executionEndpointId == input.executionEndpointId
            && b.reasoningTier == input.reasoningTier && b.executionTier == input.executionTier
            && b.executionPermissionProfile == input.executionPermissionProfile
            && b.executionWorkingDirectoryRef == input.executionWorkingDirectoryRef
            && b.maxSteps == input.maxSteps && b.maxReasoningRounds == input.maxReasoningRounds && b.deadlineAt == input.deadlineAt
            && b.createdAt == now && b.updatedAt == now && b.lockedAt.None?
            && b.bindingHash == env.hashOf(AuthorityOf(b))
            && b.reasoningEndpointId in eps.entries && ShowsEndpoint(b.reasoningEndpoint, eps.entries[b.reasoningEndpointId])
            && b.executionEndpointId in eps.entries && ShowsEndpoint(b.executionEndpoint, eps.entries[b.executionEndpointId])
  {
    BuiltValid(env, eps, input, now);
  }

  predicate ShowsEndpoint(ref: EndpointRef, e: Endpoint) {
    ref.id == e.id && ref.displayLabel == e.displayLabel && ref.transport == e.transport && ref.canExecute == e.capabilities.canExecute
  }

  /** Each field is the caller's if given and the other binding's if not. */
  predicate Merges(input: CreateInput, base: Binding, p: Patch) {
    && input.reasoningEndpointId == (if p.reasoningEndpointId.Some? then p.reasoningEndpointId.value else base.reasoningEndpointId)
    && input.executionEndpointId == (if p.executionEndpointId.Some? then p.executionEndpointId.value else base.executionEndpointId)
    && input.reasoningTier == (if p.reasoningTier.Some? then p.reasoningTier.value else base.reasoningTier)
    && input.executionTier == (if p.executionTier.Some? then p.executionTier.value else base.executionTier)
    && input.executionPermissionProfile ==
         (if p.executionPermissionProfile.Some? then p.executionPermissionProfile.value else base.executionPermissionProfile)
    && input.executionWorkingDirectoryRef ==
         (if p.executionWorkingDirectoryRef.Some? then p.executionWorkingDirectoryRef.value else base.executionWorkingDirectoryRef)
    && input.maxSteps == (if p.maxSteps.Some? then p.maxSteps.value else base.maxSteps)
    && input.maxReasoningRounds == (if p.maxReasoningRounds.Some? then p.maxReasoningRounds.value else base.maxReasoningRounds)
    && input.deadlineAt == (if p.deadlineAt.Some? then p.deadlineAt.value else base.deadlineAt)
  }

  /** Updating keeps the binding's goal, plan and parent, takes what the caller gives and keeps the rest; a locked binding is
      not updated. */
  lemma UpdateExactly(env: Env, eps: Endpoints, st: Store, planId: Text, p: Patch, now: int, input: CreateInput)
    requires planId in st.entries && Merges(input, st.entries[planId], p)
    requires input.goalId == st.entries[planId].goalId && input.planId == st.entries[planId].planId
    requires input.parentPlanId == st.entries[planId].parentPlanId
    ensures UpdateOutcome(env, eps, st, planId, p, now) ==
              if st.entries[planId].lockedAt.Some? then Threw("binding is locked") else Built(env, eps, input, now)
  {
    assert UpdatedInput(st.entries[planId], p) == input;
  }

  /** Creating for a plan that has a binding replaces everything but the goal and the parent. */
  lemma CreateExactly(env: Env, eps: Endpoints, st: Store, input: CreateInput, now: int)
    requires StoreValid(env, st)
    ensures StoreOutcome(env, eps, st, Create(input, now)) == Returned(
              if input.planId !in st.entries then Built(env, eps, input, now)
              else if st.entries[input.planId].lockedAt.Some? then Threw("binding is locked")
              else
                var e := st.entries[input.planId];
                Built(env, eps, input.(goalId := e.goalId, parentPlanId := e.parentPlanId), now))
  {
    if input.planId in st.entries {
      var e := st.entries[input.planId];
      UpdateExactly(env, eps, st, input.planId, FullPatch(input), now, input.(goalId := e.goalId, parentPlanId := e.parentPlanId));
    }
  }

  /** A derived binding is the parent's, for the goal and plan given and with what the caller gives. */
  lemma PreviewExactly(env: Env, eps: Endpoints, st: Store, d: DeriveInput, now: int, input: CreateInput)
    requires d.parentPlanId in st.entries && Merges(input, st.entries[d.parentPlanId], d.patch)
    requires input.goalId == d.goalId && input.planId == d.planId && input.parentPlanId == Some(d.parentPlanId)
    ensures Preview(env, eps, st, d, now) == Built(env, eps, input, now)
  {
    assert Inherited(st.entries[d.parentPlanId], d.goalId, d.planId, Some(d.parentPlanId), d.patch) == input;
  }

  /** Every call stores exactly what it returns, under its plan, and nothing when it throws. */
  lemma StepStoresOutcome(env: Env, eps: Endpoints, st: Store, op: StoreOp)
    ensures var r, t := StoreOutcome(env, eps, st, op), StoreStep(env, eps, st, op);
            if r.Ok? && r.value.Some?
            then t.entries == st.entries[r.value.value.planId := r.value.value]
                 && t.order == if r.value.value.planId in st.entries then st.order else st.order + [r.value.value.planId]
            else t == st
  {
  }

  /** Deriving is previewing and then committing the preview. */
  lemma DeriveIsPreviewThenCommit(env: Env, eps: Endpoints, st: Store, d: DeriveInput, now: int)
    ensures var p := Preview(env, eps, st, d, now);
            && (p.Threw? ==> StoreOutcome(env, eps, st, Derive(d, now)) == Returned(p) && StoreStep(env, eps, st, Derive(d, now)) == st)
            && (p.Ok? ==> StoreOutcome(env, eps, st, Derive(d, now)) == Returned(CommitOutcome(env, st, p.value))
                          && StoreStep(env, eps, st, Derive(d, now)) == StoreStep(env, eps, st, Commit(p.value)))
  {
  }

  // ---- The store itself ----

  class InMemoryAutomationBindingStore {
    var bindingsByPlan: Store
    const endpointRegistry: InMemoryEndpointRegistry
    const env: Env

    ghost predicate Valid()
      reads this
    {
      StoreValid(env, bindingsByPlan)
    }

    constructor (endpointRegistry: InMemoryEndpointRegistry, env: Env)
      ensures Valid() && bindingsByPlan == Empty()
      ensures this.endpointRegistry == endpointRegistry && this.env == env
    {
      this.bindingsByPlan := Empty();
      this.endpointRegistry := endpointRegistry;
      this.env := env;
    }

    method ValidateInput(input: CreateInput) returns (failure: Option<string>)
      ensures failure == InputFailure(env, input)
    {
      var texts := RequiredTexts(input);
      for i := 0 to |texts|
        invariant FirstBlank(texts) == FirstBlank(texts[i..])
      {
        if Trim(texts[i].1) == [] {
          return Some(texts[i].0 + " is required");
        }
      }
      if !KnownReasoningTier(input.reasoningTier) {
        return Some("reasoningTier must be high");
      }
      if !KnownExecutionTier(input.executionTier) {
        return Some("executionTier must be medium or low");
      }
      if !env.projectExists(input.executionWorkingDirectoryRef) {
        return Some("project reference is unknown");
      }
      if !WholeBetween(input.maxSteps, 1, 50) {
        return Some("maxSteps must be between 1 and 50");
      }
      if !WholeBetween(input.maxReasoningRounds, 1, 20) {
        return Some("maxReasoningRounds must be between 1 and 20");
      }
      if !env.isDate(input.deadlineAt) {
        return Some("deadlineAt must be an ISO date string");
      }
      return None;
    }

    method BuildBinding(input: CreateInput, now: int) returns (r: Result<Binding>)
      ensures r == Built(env, endpointRegistry.endpoints, input, now)
    {
      var failure := ValidateInput(input);
      if failure.Some? {
        return Threw(failure.value);
      }
      var reasoning := endpointRegistry.Get(input.reasoningEndpointId);
      if reasoning.None? {
        return Threw("reasoning endpoint not found");
      }
      var execution := endpointRegistry.Get(input.executionEndpointId);
      if execution.None? {
        return Threw("execution endpoint not found");
      }
      if !CanReason(reasoning.value) {
        return Threw("reasoning endpoint lacks reasoning capability");
      }
      if !execution.value.capabilities.canExecute {
        return Threw("execution endpoint must have canExecute=true");
      }
      var withoutHash := Draft(input, reasoning.value, execution.value, now);
      var binding := withoutHash.(bindingHash := env.hashOf(AuthorityOf(withoutHash)));
      if !SchemaValid(env, binding) {
        return Threw("Invalid RunEndpointBinding");
      }
      return Ok(binding);
    }

    method CreateBinding(input: CreateInput, now: int) returns (r: Result<Binding>)
      requires Valid()
      modifies this
      ensures Valid() && Returned(r) == old(StoreOutcome(env, endpointRegistry.endpoints, bindingsByPlan, Create(input, now)))
      ensures bindingsByPlan == old(StoreStep(env, endpointRegistry.endpoints, bindingsByPlan, Create(input, now)))
    {
      StoreStepValid(env, endpointRegistry.endpoints, bindingsByPlan, Create(input, now));
      if input.planId in bindingsByPlan.entries {
        r := UpdateBinding(input.planId, FullPatch(input), now);
        return;
      }
      r := BuildBinding(input, now);
      if r.Ok? {
        bindingsByPlan := bindingsByPlan.Put(r.value.planId, r.value);
      }
    }

    method UpdateBinding(planId: Text, input: Patch, now: int) returns (r: Result<Binding>)
      requires Valid()
      modifies this
      ensures Valid() && r == old(UpdateOutcome(env, endpointRegistry.endpoints, bindingsByPlan, planId, input, now))
      ensures bindingsByPlan == old(StoreStep(env, endpointRegistry.endpoints, bindingsByPlan, Update(planId, input, now)))
    {
      StoreStepValid(env, endpointRegistry.endpoints, bindingsByPlan, Update(planId, input, now));
      UpdateSound(env, endpointRegistry.endpoints, bindingsByPlan, planId, input, now);
      if planId !in bindingsByPlan.entries {
        return Threw("binding not found");
      }
      var existing := bindingsByPlan.entries[planId];
      if existing.lockedAt.Some? {
        return Threw("binding is locked");
      }
      r := BuildBinding(UpdatedInput(existing, input), now);
      if r.Ok? {
        bindingsByPlan := bindingsByPlan.Put(planId, r.value);
      }
    }

    method LockBinding(planId: Text, now: int) returns (r: Result<Option<Binding>>)
      requires Valid()
      modifies this
      ensures Valid() && r == old(StoreOutcome(env, endpointRegistry.endpoints, bindingsByPlan, Lock(planId, now)))
      ensures bindingsByPlan == old(StoreStep(env, endpointRegistry.endpoints, bindingsByPlan, Lock(planId, now)))
      // in a valid store locking never throws
      ensures r.Ok? && (r.value.Some? <==> planId in old(bindingsByPlan).entries)
      ensures r.value.Some? ==>
                var b := old(bindingsByPlan.entries[planId]);
                r.value.value == if b.lockedAt.Some? then b else b.(lockedAt := Some(now), updatedAt := now)
    {
      StoreStepValid(env, endpointRegistry.endpoints, bindingsByPlan, Lock(planId, now));
      if planId !in bindingsByPlan.entries {
        return Ok(None);
      }
      var binding := bindingsByPlan.entries[planId];
      if binding.lockedAt.Some? {
        assert bindingsByPlan.entries[planId := binding] == bindingsByPlan.entries;
        return Ok(Some(binding));
      }
      var locked := binding.(lockedAt := Some(now), updatedAt := now);
      assert AuthorityOf(locked) == AuthorityOf(binding);
      if !SchemaValid(env, locked) {
        return Threw("Invalid RunEndpointBinding");
      }
      if locked.bindingHash != env.hashOf(AuthorityOf(locked)) {
        return Threw("binding hash mismatch");
      }
      bindingsByPlan := bindingsByPlan.Put(planId, locked);
      return Ok(Some(locked));
    }

    method PreviewDerivedBinding(input: DeriveInput, now: int) returns (r: Result<Binding>)
      ensures r == Preview(env, endpointRegistry.endpoints, bindingsByPlan, input, now)
    {
      if input.parentPlanId !in bindingsByPlan.entries {
        return Threw("parent binding not found");
      }
      var parent := bindingsByPlan.entries[input.parentPlanId];
      r := BuildBinding(Inherited(parent, input.goalId, input.planId, Some(input.parentPlanId), input.patch), now);
    }

    method CommitBinding(binding: Binding) returns (r: Result<Binding>)
      requires Valid()
      modifies this
      ensures Valid() && r == old(CommitOutcome(env, bindingsByPlan, binding))
      ensures r.Ok? <==> HydrateAccepts(env, binding)
                         && !(binding.planId in old(bindingsByPlan).entries && old(bindingsByPlan).entries[binding.planId].lockedAt.Some?)
      ensures r.Ok? ==> r.value == binding
      ensures bindingsByPlan == old(StoreStep(env, endpointRegistry.endpoints, bindingsByPlan, Commit(binding)))
    {
      StoreStepValid(env, endpointRegistry.endpoints, bindingsByPlan, Commit(binding));
      if !SchemaValid(env, binding) {
        return Threw("Invalid RunEndpointBinding");
      }
      if binding.bindingHash != env.hashOf(AuthorityOf(binding)) {
        return Threw("binding hash mismatch");
      }
      if binding.planId in bindingsByPlan.entries && bindingsByPlan.entries[binding.planId].lockedAt.Some? {
        return Threw("binding is locked");
      }
      bindingsByPlan := bindingsByPlan.Put(binding.planId, binding);
      return Ok(binding);
    }

    method DeriveBinding(input: DeriveInput, now: int) returns (r: Result<Binding>)
      requires Valid()
      modifies this
      ensures Valid() && Returned(r) == old(StoreOutcome(env, endpointRegistry.endpoints, bindingsByPlan, Derive(input, now)))
      ensures bindingsByPlan == old(StoreStep(env, endpointRegistry.endpoints, bindingsByPlan, Derive(input, now)))
    {
      DeriveIsPreviewThenCommit(env, endpointRegistry.endpoints, bindingsByPlan, input, now);
      r := PreviewDerivedBinding(input, now);
      if r.Ok? {
        r := CommitBinding(r.value);
      }
    }

    method ExportBindings() returns (r: seq<Binding>)
      requires Valid()
      ensures r == Values(bindingsByPlan)
    {
      return Values(bindingsByPlan);
    }

    method HydrateBinding(binding: Binding) returns (accepted: bool)
      requires Valid()
      modifies this
      ensures Valid() && accepted == HydrateAccepts(env, binding)
      ensures accepted <==>
                && binding.reasoningTier == Ascii("high") && binding.executionTier in {Ascii("medium"), Ascii("low")}
                && env.isDate(binding.deadlineAt) && SHA256 <= binding.bindingHash
                && binding.bindingHash == env.hashOf(AuthorityOf(binding))
      ensures bindingsByPlan == Hydrated(env, old(bindingsByPlan), binding)
    {
      if !SchemaValid(env, binding) || binding.bindingHash != env.hashOf(AuthorityOf(binding)) {
        return false;
      }
      PutSound(env, bindingsByPlan, binding);
      bindingsByPlan := bindingsByPlan.Put(binding.planId, binding);
      return true;
    }
  }
}
