/** Parsing an agent's plan: forced fields, the step ceiling, and the two tier passes with their undo log. */
module GoalPlanParser {
  import opened Wrappers
  import opened Texts
  import opened Plans
  import opened PlanExtraction

  const DEFAULT_MAX_STEPS := 10

  const FORBIDDEN_EXECUTION_FIELDS: seq<Text> := [
    Ascii("executable"), Ascii("autoSend"), Ascii("confirmed"), Ascii("sent"), Ascii("autoApprove"), Ascii("canExecute")]

  /** One element of the parsed `steps`; a field is `None` when it is absent or of the wrong type. */
  datatype RawStep =
    | NotRecord
    | Record(
        id: Option<Text>,
        index: Option<int>,
        intent: Option<Text>,
        kind: Option<Kind>,
        targetEndpointId: Option<Text>,
        tier: Option<Tier>,
        isStateMutating: Option<bool>)

  /** A parsed JSON object, as far as the parser looks at it. */
  datatype RawPlan = RawPlan(
    goalId: Option<Text>,
    fields: set<Text>,
    id: Option<Text>,
    steps: seq<RawStep>,
    createdAt: Option<int>)

  datatype Step = Step(
    id: Text,
    planId: Text,
    index: int,
    intent: Text,
    kind: Kind,
    targetEndpointId: Text,
    tier: Tier,
    isStateMutating: bool)

  /** A plan awaiting approval, all of whose steps are pending. */
  datatype Plan = Plan(id: Text, goalId: Text, steps: seq<Step>, permittedTiers: seq<Tier>, createdAt: int, updatedAt: int)

  datatype Downgrade = Downgrade(stepIndex: nat, stepId: Text, originalTier: Tier, downgradedTo: Tier)

  datatype ParseFailure =
    | JsonNotFound
    | GoalIdMismatch
    | ForbiddenField(field: Text)
    | StepCeilingExceeded
    | PermittedTiersInvalid
    | PermittedTierUnknown(tier: Tier)
    | PermittedTiersMissingPatchProposal
    | KindTierMismatch(stepIndex: nat)
    | TierViolation(stepIndex: nat)
    | SchemaInvalid

  // ---- The caller's permitted tiers ----

  /** The elements in the order of their first occurrence. */
  function Dedup(tiers: seq<Tier>): (r: seq<Tier>)
    ensures forall t :: t in r <==> t in tiers
    ensures forall i, j :: 0 <= i < j < |r| ==> r[i] != r[j]
    ensures tiers != [] ==> r != [] && r[0] == tiers[0]
  {
    if tiers == [] then [] else
      var d, last := Dedup(tiers[..|tiers| - 1]), tiers[|tiers| - 1];
      assert tiers == tiers[..|tiers| - 1] + [last];
      if last in d then d else d + [last]
  }

  datatype PermittedTiers = Tiers(tiers: seq<Tier>) | Invalid(failure: ParseFailure)

  /** `normalizeCallerPermittedTiers` */
  method NormalizeCallerPermittedTiers(permitted: Option<seq<Tier>>) returns (r: PermittedTiers)
    ensures r == NormalTiers(permitted)
  {
    if permitted.None? {
      return Tiers([PatchProposal]);
    }
    var tiers := permitted.value;
    if |tiers| == 0 {
      return Invalid(PermittedTiersInvalid);
    }
    var normalized: seq<Tier> := [];
    for i := 0 to |tiers|
      invariant normalized == Dedup(tiers[..i])
      invariant FirstUnknown(tiers, 0) == FirstUnknown(tiers, i)
    {
      if tiers[i].UnknownTier? {
        return Invalid(PermittedTierUnknown(tiers[i]));
      }
      assert tiers[..i + 1][..i] == tiers[..i];
      if tiers[i] !in normalized {
        normalized := normalized + [tiers[i]];
      }
    }
    assert tiers[..|tiers|] == tiers;
    if PatchProposal !in normalized {
      return Invalid(PermittedTiersMissingPatchProposal);
    }
    return Tiers(normalized);
  }

  function FirstUnknown(tiers: seq<Tier>, from: nat): (k: nat)
    requires from <= |tiers|
    ensures from <= k <= |tiers|
    ensures forall i :: from <= i < k ==> !tiers[i].UnknownTier?
    ensures k < |tiers| ==> tiers[k].UnknownTier?
    decreases |tiers| - from
  {
    if from == |tiers| || tiers[from].UnknownTier? then from else FirstUnknown(tiers, from + 1)
  }

  function NormalTiers(permitted: Option<seq<Tier>>): PermittedTiers {
    if permitted.None? then Tiers([PatchProposal])
    else
      var tiers := permitted.value;
      var k := FirstUnknown(tiers, 0);
      if tiers == [] then Invalid(PermittedTiersInvalid)
      else if k < |tiers| then Invalid(PermittedTierUnknown(tiers[k]))
      else if PatchProposal !in tiers then Invalid(PermittedTiersMissingPatchProposal)
      else Tiers(Dedup(tiers))
  }

  // ---- The tier passes ----

  /** The tier a step of this kind must have: workspace-write exactly for the mutating kinds. */
  function AlignedTier(s: Step): Tier {
    if Mutating(s.kind) then WorkspaceWrite else if s.tier == WorkspaceWrite then PatchProposal else s.tier
  }

  predicate Coherent(s: Step) {
    AlignedTier(s) == s.tier
  }

  function Aligned(steps: seq<Step>): (r: seq<Step>)
    ensures |r| == |steps|
    ensures forall i :: 0 <= i < |r| ==> r[i] == steps[i].(tier := AlignedTier(steps[i]))
  {
    seq(|steps|, i requires 0 <= i < |steps| => steps[i].(tier := AlignedTier(steps[i])))
  }

  /** The log of the first `n` corrections. */
  function LogUpTo(steps: seq<Step>, n: nat): seq<Downgrade>
    requires n <= |steps|
  {
    if n == 0 then []
    else
      var s := steps[n - 1];
      LogUpTo(steps, n - 1) + if Coherent(s) then [] else [Downgrade(n - 1, s.id, s.tier, AlignedTier(s))]
  }

  function CorrectionLog(steps: seq<Step>): seq<Downgrade> {
    LogUpTo(steps, |steps|)
  }

  function FirstIncoherent(steps: seq<Step>, from: nat): (k: nat)
    requires from <= |steps|
    ensures from <= k <= |steps|
    ensures forall i :: from <= i < k ==> Coherent(steps[i])
    ensures k < |steps| ==> !Coherent(steps[k])
    decreases |steps| - from
  {
    if from == |steps| || !Coherent(steps[from]) then from else FirstIncoherent(steps, from + 1)
  }

  function FirstMutating(steps: seq<Step>, from: nat): (k: nat)
    requires from <= |steps|
    ensures from <= k <= |steps|
    ensures forall i :: from <= i < k ==> !Mutating(steps[i].kind)
    ensures k < |steps| ==> Mutating(steps[k].kind)
    decreases |steps| - from
  {
    if from == |steps| || Mutating(steps[from].kind) then from else FirstMutating(steps, from + 1)
  }

  /** Why the tier passes refuse the steps, if they do. */
  function TierFailure(steps: seq<Step>, permitted: seq<Tier>, strict: bool): Option<ParseFailure> {
    if strict && FirstIncoherent(steps, 0) < |steps| then Some(KindTierMismatch(FirstIncoherent(steps, 0)))
    else if WorkspaceWrite !in permitted && FirstMutating(steps, 0) < |steps| then Some(TierViolation(FirstMutating(steps, 0)))
    else None
  }

  /** The two passes over the steps, which overwrite tiers in place. The second pass never downgrades: after the first
      one only mutating steps are workspace-write, and those are refused. */
  method EnforceTiers(steps: array<Step>, permitted: seq<Tier>, strict: bool)
    returns (failure: Option<ParseFailure>, downgrades: seq<Downgrade>)
    modifies steps
    ensures failure == TierFailure(old(steps[..]), permitted, strict)
    ensures failure.None? ==> steps[..] == Aligned(old(steps[..])) && downgrades == CorrectionLog(old(steps[..]))
  {
    ghost var before := steps[..];
    downgrades := [];
    var hasWorkspaceWrite := WorkspaceWrite in permitted;
    for i := 0 to steps.Length
      invariant forall k :: i <= k < steps.Length ==> steps[k] == before[k]
      invariant forall k :: 0 <= k < i ==> steps[k] == Aligned(before)[k]
      invariant strict ==> FirstIncoherent(before, 0) == FirstIncoherent(before, i)
      invariant downgrades == LogUpTo(before, i)
    {
      var kindIsMutating := Mutating(steps[i].kind);
      if kindIsMutating && steps[i].tier != WorkspaceWrite {
        if strict {
          return Some(KindTierMismatch(i)), downgrades;
        }
        downgrades := downgrades + [Downgrade(i, steps[i].id, steps[i].tier, WorkspaceWrite)];
        steps[i] := steps[i].(tier := WorkspaceWrite);
      }
      if !kindIsMutating && steps[i].tier == WorkspaceWrite {
        if strict {
          return Some(KindTierMismatch(i)), downgrades;
        }
        downgrades := downgrades + [Downgrade(i, steps[i].id, WorkspaceWrite, PatchProposal)];
        steps[i] := steps[i].(tier := PatchProposal);
      }
    }
    assert steps[..] == Aligned(before);
    for i := 0 to steps.Length
      invariant steps[..] == Aligned(before)
      invariant downgrades == CorrectionLog(before)
      invariant !hasWorkspaceWrite ==> FirstMutating(before, 0) == FirstMutating(before, i)
    {
      if steps[i].tier == WorkspaceWrite && !hasWorkspaceWrite {
        if strict {
          return Some(TierViolation(i)), downgrades;
        }
        if Mutating(steps[i].kind) {
          return Some(TierViolation(i)), downgrades;
        }
        assert false;
      }
    }
    return None, downgrades;
  }

  // ---- Undoing and repeating ----

  /** Undo the logged corrections, last one first. */
  function Undo(steps: seq<Step>, log: seq<Downgrade>): seq<Step>
    decreases |log|
  {
    if log == [] then steps
    else
      var d := log[|log| - 1];
      var undone := if d.stepIndex < |steps| then steps[d.stepIndex := steps[d.stepIndex].(tier := d.originalTier)] else steps;
      Undo(undone, log[..|log| - 1])
  }

  lemma UndoLast(steps: seq<Step>, log: seq<Downgrade>, d: Downgrade)
    requires d.stepIndex < |steps|
    ensures Undo(steps, log + [d]) == Undo(steps[d.stepIndex := steps[d.stepIndex].(tier := d.originalTier)], log)
  {
    assert (log + [d])[..|log|] == log;
  }

  // The steps with the first `n` corrected.
  function AlignedUpTo(steps: seq<Step>, n: nat): (r: seq<Step>)
    requires n <= |steps|
    ensures |r| == |steps|
  {
    Aligned(steps)[..n] + steps[n..]
  }

  lemma AlignedNext(steps: seq<Step>, n: nat)
    requires n < |steps|
    ensures AlignedUpTo(steps, n) == AlignedUpTo(steps, n + 1)[n := AlignedUpTo(steps, n + 1)[n].(tier := steps[n].tier)]
    ensures Coherent(steps[n]) ==> AlignedUpTo(steps, n) == AlignedUpTo(steps, n + 1)
  {
  }

  // Undoing the first `n` corrections gives the steps back.
  ghost predicate Undone(steps: seq<Step>, n: nat) {
    n <= |steps| && Undo(AlignedUpTo(steps, n), LogUpTo(steps, n)) == steps
  }

  lemma UndoNone(steps: seq<Step>)
    ensures Undone(steps, 0)
  {
    assert AlignedUpTo(steps, 0) == steps;
  }

  lemma {:induction false} UndoUpTo(steps: seq<Step>, n: nat)
    requires n <= |steps|
    ensures Undone(steps, n)
  {
    if n == 0 {
      UndoNone(steps);
    } else {
      UndoUpTo(steps, n - 1);
      UndoOne(steps, n - 1);
    }
  }

  lemma UndoOne(steps: seq<Step>, n: nat)
    requires n < |steps| && Undone(steps, n)
    ensures Undone(steps, n + 1)
  {
    AlignedNext(steps, n);
    var s := steps[n];
    if Coherent(s) {
      assert LogUpTo(steps, n + 1) == LogUpTo(steps, n);
    } else {
      var d := Downgrade(n, s.id, s.tier, AlignedTier(s));
      assert LogUpTo(steps, n + 1) == LogUpTo(steps, n) + [d];
      UndoLast(AlignedUpTo(steps, n + 1), LogUpTo(steps, n), d);
    }
  }

  /** Undoing the log gives back the tiers the model wrote. */
  lemma UndoRestores(steps: seq<Step>)
    ensures Undo(Aligned(steps), CorrectionLog(steps)) == steps
  {
    UndoUpTo(steps, |steps|);
    assert AlignedUpTo(steps, |steps|) == Aligned(steps);
  }

  lemma {:induction false} LogEmptyExactly(steps: seq<Step>, n: nat)
    requires n <= |steps|
    ensures LogUpTo(steps, n) == [] <==> forall i :: 0 <= i < n ==> Coherent(steps[i])
  {
    if n > 0 {
      LogEmptyExactly(steps, n - 1);
    }
  }

  ghost predicate Logged(log: seq<Downgrade>, d: Downgrade) {
    exists k :: 0 <= k < |log| && log[k] == d
  }

  /** The log names exactly the steps whose kind and tier do not fit, each once and in order, with the tier that was written
      and the one it was given. */
  lemma {:induction false} LogSays(steps: seq<Step>, n: nat, d: Downgrade)
    requires n <= |steps|
    ensures Logged(LogUpTo(steps, n), d) <==>
              && d.stepIndex < n && d.stepId == steps[d.stepIndex].id && d.originalTier == steps[d.stepIndex].tier
              && (Mutating(steps[d.stepIndex].kind) <==> d.originalTier != WorkspaceWrite)
              && d.downgradedTo == if Mutating(steps[d.stepIndex].kind) then WorkspaceWrite else PatchProposal
    ensures forall j, k :: 0 <= j < k < |LogUpTo(steps, n)| ==> LogUpTo(steps, n)[j].stepIndex < LogUpTo(steps, n)[k].stepIndex
    ensures forall k :: 0 <= k < |LogUpTo(steps, n)| ==> LogUpTo(steps, n)[k].stepIndex < n
  {
    if n > 0 {
      LogSays(steps, n - 1, d);
      var s := steps[n - 1];
      var log := LogUpTo(steps, n - 1);
      if !Coherent(s) {
        LoggedNext(log, Downgrade(n - 1, s.id, s.tier, AlignedTier(s)), d);
      } else {
        assert LogUpTo(steps, n) == log;
      }
    }
  }

  lemma LoggedNext(log: seq<Downgrade>, last: Downgrade, d: Downgrade)
    ensures Logged(log + [last], d) <==> Logged(log, d) || d == last
  {
    if d == last {
      assert (log + [last])[|log|] == d;
    }
    if Logged(log, d) {
      var k :| 0 <= k < |log| && log[k] == d;
      assert (log + [last])[k] == d;
    }
  }

  /** Which step the passes refuse, and why. */
  lemma TierFailureExactly(steps: seq<Step>, permitted: seq<Tier>, strict: bool, k: nat)
    requires k < |steps|
    ensures TierFailure(steps, permitted, strict) == Some(KindTierMismatch(k)) <==>
              && strict && Mismatched(steps[k]) && forall j :: 0 <= j < k ==> !Mismatched(steps[j])
    ensures TierFailure(steps, permitted, strict) == Some(TierViolation(k)) <==>
              && WorkspaceWrite !in permitted && (strict ==> forall j :: 0 <= j < |steps| ==> !Mismatched(steps[j]))
              && Mutating(steps[k].kind) && forall j :: 0 <= j < k ==> !Mutating(steps[j].kind)
  {
    assert forall j :: 0 <= j < |steps| ==> (Coherent(steps[j]) <==> !Mismatched(steps[j]));
  }

  /** The kind writes to the workspace and the tier does not, or the other way round. */
  predicate Mismatched(s: Step) {
    Mutating(s.kind) <==> s.tier != WorkspaceWrite
  }

  /** Strict mode accepts exactly the steps that downgrade mode accepts without a correction. */
  lemma StrictIsDowngradeWithoutLog(steps: seq<Step>, permitted: seq<Tier>)
    ensures TierFailure(steps, permitted, true).None? <==>
              TierFailure(steps, permitted, false).None? && CorrectionLog(steps) == []
    ensures CorrectionLog(steps) == [] ==> Aligned(steps) == steps
  {
    LogEmptyExactly(steps, |steps|);
    if CorrectionLog(steps) == [] {
      assert forall i :: 0 <= i < |steps| ==> Aligned(steps)[i] == steps[i];
    }
  }

  /** The output of the passes passes again, in both modes, unchanged and with nothing to log. */
  lemma PassesIdempotent(steps: seq<Step>, permitted: seq<Tier>, strict: bool)
    requires TierFailure(steps, permitted, strict).None?
    ensures TierFailure(Aligned(steps), permitted, true).None? && TierFailure(Aligned(steps), permitted, false).None?
    ensures Aligned(Aligned(steps)) == Aligned(steps) && CorrectionLog(Aligned(steps)) == []
  {
    var a := Aligned(steps);
    LogEmptyExactly(a, |a|);
    assert FirstMutating(a, 0) < |a| ==> Mutating(steps[FirstMutating(a, 0)].kind);
    assert forall i :: 0 <= i < |a| ==> Aligned(a)[i] == a[i];
  }

  // ---- The whole parser ----

  datatype Options = Options(strict: bool, maxSteps: Option<int>)

  /** What the parser is given besides the text: the goal, the caller's tiers, an id, the time, and a supply of random ids. */
  datatype Request = Request(
    goalId: Text, permittedTiers: Option<seq<Tier>>, id: Option<Text>, now: int, randomPlanId: Text, randomIds: nat -> Text)

  function FirstForbidden(fields: set<Text>, from: nat): (k: nat)
    requires from <= |FORBIDDEN_EXECUTION_FIELDS|
    ensures from <= k <= |FORBIDDEN_EXECUTION_FIELDS|
    ensures forall i :: from <= i < k ==> FORBIDDEN_EXECUTION_FIELDS[i] !in fields
    ensures k < |FORBIDDEN_EXECUTION_FIELDS| ==> FORBIDDEN_EXECUTION_FIELDS[k] in fields
    decreases |FORBIDDEN_EXECUTION_FIELDS| - from
  {
    if from == |FORBIDDEN_EXECUTION_FIELDS| || FORBIDDEN_EXECUTION_FIELDS[from] in fields then from
    else FirstForbidden(fields, from + 1)
  }

  function NormalStep(raw: RawStep, planId: Text, i: nat, randomId: Text): Step {
    match raw
    case NotRecord => Step(randomId, planId, i, [], Review, [], PatchProposal, false)
    case Record(id, index, intent, kind, targetEndpointId, tier, isStateMutating) =>
      Step(if id.Some? && id.value != [] then id.value else randomId, planId, OrElse(index, i), OrElse(intent, []),
           OrElse(kind, Review), OrElse(targetEndpointId, []), OrElse(tier, PatchProposal), OrElse(isStateMutating, false))
  }

  function NormalSteps(raw: seq<RawStep>, planId: Text, randomIds: nat -> Text): (r: seq<Step>)
    ensures |r| == |raw|
    ensures forall i :: 0 <= i < |r| ==> r[i] == NormalStep(raw[i], planId, i, randomIds(i))
  {
    seq(|raw|, i requires 0 <= i < |raw| => NormalStep(raw[i], planId, i, randomIds(i)))
  }

  /** `assertPlan`, beyond what the types already say. */
  predicate SchemaValid(p: Plan) {
    && p.permittedTiers != [] && PatchProposal in p.permittedTiers
    && (forall t :: t in p.permittedTiers ==> !t.UnknownTier?)
    && forall i :: 0 <= i < |p.steps| ==> !p.steps[i].kind.UnknownKind? && !p.steps[i].tier.UnknownTier?
  }

  datatype ParseResult = Parsed(plan: Plan, downgrades: seq<Downgrade>) | Failed(failure: ParseFailure)

  function PlanIdOf(raw: RawPlan, req: Request): Text {
    OrElse(req.id, OrElse(raw.id, req.randomPlanId))
  }

  /** The parser after a candidate text has been parsed into an object. */
  function ParseObject(raw: RawPlan, req: Request, opts: Options): ParseResult {
    var k := FirstForbidden(raw.fields, 0);
    if raw.goalId != Some(req.goalId) then Failed(GoalIdMismatch)
    else if k < |FORBIDDEN_EXECUTION_FIELDS| then Failed(ForbiddenField(FORBIDDEN_EXECUTION_FIELDS[k]))
    else if |raw.steps| > OrElse(opts.maxSteps, DEFAULT_MAX_STEPS) then Failed(StepCeilingExceeded)
    else
      var tiers := NormalTiers(req.permittedTiers);
      if tiers.Invalid? then Failed(tiers.failure)
      else
        var steps := NormalSteps(raw.steps, PlanIdOf(raw, req), req.randomIds);
        var failure := TierFailure(steps, tiers.tiers, opts.strict);
        if failure.Some? then Failed(failure.value)
        else
          var plan := Plan(PlanIdOf(raw, req), req.goalId, Aligned(steps), tiers.tiers, OrElse(raw.createdAt, req.now), req.now);
          if SchemaValid(plan) then Parsed(plan, CorrectionLog(steps)) else Failed(SchemaInvalid)
  }

  // ---- What is parsed and what is refused ----

  /** The field is a forbidden one that is there, and the first such. */
  ghost predicate FirstForbiddenIs(fields: set<Text>, f: Text) {
    exists k ::
      && 0 <= k < |FORBIDDEN_EXECUTION_FIELDS| && FORBIDDEN_EXECUTION_FIELDS[k] == f && f in fields
      && forall j :: 0 <= j < k ==> FORBIDDEN_EXECUTION_FIELDS[j] !in fields
  }

  function KindOf(s: RawStep): Kind {
    if s.Record? && s.kind.Some? then s.kind.value else Review
  }

  function TierOf(s: RawStep): Tier {
    if s.Record? && s.tier.Some? then s.tier.value else PatchProposal
  }

  /** The step as it may stand: of a known kind, and writing to the workspace exactly if its kind does, where a tier that is not
      right may be put right unless the mode is strict; a kind that writes needs the caller's permission. */
  predicate StepAcceptable(s: RawStep, mayWrite: bool, strict: bool) {
    && !KindOf(s).UnknownKind?
    && (Mutating(KindOf(s)) ==> mayWrite && (strict ==> TierOf(s) == WorkspaceWrite))
    && (!Mutating(KindOf(s)) ==> !TierOf(s).UnknownTier? && (strict ==> TierOf(s) != WorkspaceWrite))
  }

  /** Everything a parsed object must satisfy to be taken as a plan. */
  ghost predicate Acceptable(raw: RawPlan, req: Request, opts: Options) {
    && raw.goalId == Some(req.goalId)
    && (forall f :: f in FORBIDDEN_EXECUTION_FIELDS ==> f !in raw.fields)
    && |raw.steps| <= (if opts.maxSteps.Some? then opts.maxSteps.value else 10)
    && (req.permittedTiers.Some? ==>
          PatchProposal in req.permittedTiers.value && forall t :: t in req.permittedTiers.value ==> !t.UnknownTier?)
    && forall i :: 0 <= i < |raw.steps| ==>
         StepAcceptable(raw.steps[i], req.permittedTiers.Some? && WorkspaceWrite in req.permittedTiers.value, opts.strict)
  }

  /** A plan comes out exactly of an acceptable object. */
  lemma ParsedExactly(raw: RawPlan, req: Request, opts: Options)
    ensures ParseObject(raw, req, opts).Parsed? <==> Acceptable(raw, req, opts)
  {
    var tiers := NormalTiers(req.permittedTiers);
    TiersExactly(req.permittedTiers);
    if tiers.Tiers? {
      var steps := NormalSteps(raw.steps, PlanIdOf(raw, req), req.randomIds);
      StepsExactly(raw, req, opts, steps, tiers.tiers);
    }
  }

  /** The caller's tiers are taken exactly when they are known and include the least; each is then kept once. */
  lemma TiersExactly(permitted: Option<seq<Tier>>)
    ensures var r := NormalTiers(permitted);
            && (r.Tiers? <==> (permitted.Some? ==>
                  PatchProposal in permitted.value && forall t :: t in permitted.value ==> !t.UnknownTier?))
            && (r.Tiers? ==>
                  && (forall t :: t in r.tiers <==> t in (if permitted.Some? then permitted.value else [PatchProposal]))
                  && (forall i, j :: 0 <= i < j < |r.tiers| ==> r.tiers[i] != r.tiers[j])
                  && (permitted.Some? ==> r.tiers[0] == permitted.value[0]))
            && (r == Invalid(PermittedTiersInvalid) <==> permitted == Some([]))
            && (r == Invalid(PermittedTiersMissingPatchProposal) <==>
                  && permitted.Some? && permitted.value != [] && PatchProposal !in permitted.value
                  && forall t :: t in permitted.value ==> !t.UnknownTier?)
  {
  }

  lemma StepsExactly(raw: RawPlan, req: Request, opts: Options, steps: seq<Step>, tiers: seq<Tier>)
    requires steps == NormalSteps(raw.steps, PlanIdOf(raw, req), req.randomIds)
    requires PatchProposal in tiers && forall t :: t in tiers ==> !t.UnknownTier?
    ensures (TierFailure(steps, tiers, opts.strict).None?
             && SchemaValid(Plan(PlanIdOf(raw, req), req.goalId, Aligned(steps), tiers, OrElse(raw.createdAt, req.now), req.now))) <==>
            forall i :: 0 <= i < |raw.steps| ==> StepAcceptable(raw.steps[i], WorkspaceWrite in tiers, opts.strict)
  {
    forall i | 0 <= i < |steps| ensures steps[i].kind == KindOf(raw.steps[i]) && steps[i].tier == TierOf(raw.steps[i]) {
    }
    PassExactly(steps, tiers, opts.strict);
  }

  predicate PassesStep(s: Step, mayWrite: bool, strict: bool) {
    && !s.kind.UnknownKind?
    && (Mutating(s.kind) ==> mayWrite && (strict ==> s.tier == WorkspaceWrite))
    && (!Mutating(s.kind) ==> !s.tier.UnknownTier? && (strict ==> s.tier != WorkspaceWrite))
  }

  // The content of a step after the passes is known exactly when it passes.
  lemma PassExactly(steps: seq<Step>, tiers: seq<Tier>, strict: bool)
    ensures (TierFailure(steps, tiers, strict).None?
             && forall i :: 0 <= i < |steps| ==> !Aligned(steps)[i].kind.UnknownKind? && !Aligned(steps)[i].tier.UnknownTier?) <==>
            forall i :: 0 <= i < |steps| ==> PassesStep(steps[i], WorkspaceWrite in tiers, strict)
  {
    forall i | 0 <= i < |steps|
      ensures Aligned(steps)[i].kind == steps[i].kind && Aligned(steps)[i].tier == AlignedTier(steps[i])
      ensures PassesStep(steps[i], WorkspaceWrite in tiers, strict) <==>
                && (strict ==> Coherent(steps[i])) && (WorkspaceWrite !in tiers ==> !Mutating(steps[i].kind))
                && !steps[i].kind.UnknownKind? && !AlignedTier(steps[i]).UnknownTier?
    {
      OneStepPasses(steps[i], WorkspaceWrite in tiers, strict);
    }
    if TierFailure(steps, tiers, strict).None? {
      NoFailureOnStep(steps, tiers, strict);
    }
  }

  lemma OneStepPasses(s: Step, mayWrite: bool, strict: bool)
    ensures PassesStep(s, mayWrite, strict) <==>
              && (strict ==> Coherent(s)) && (!mayWrite ==> !Mutating(s.kind))
              && !s.kind.UnknownKind? && !AlignedTier(s).UnknownTier?
  {
  }

  lemma NoFailureOnStep(steps: seq<Step>, tiers: seq<Tier>, strict: bool)
    requires TierFailure(steps, tiers, strict).None?
    ensures forall i :: 0 <= i < |steps| ==>
              (strict ==> Coherent(steps[i])) && (WorkspaceWrite !in tiers ==> !Mutating(steps[i].kind))
  {
    assert strict ==> FirstIncoherent(steps, 0) == |steps|;
    assert WorkspaceWrite !in tiers ==> FirstMutating(steps, 0) == |steps|;
  }

  /** Each refusal, and when it is the one given. */
  lemma FailsExactly(raw: RawPlan, req: Request, opts: Options)
    ensures var r := ParseObject(raw, req, opts);
            && (r == Failed(GoalIdMismatch) <==> raw.goalId != Some(req.goalId))
            && (forall f :: r == Failed(ForbiddenField(f)) <==>
                  raw.goalId == Some(req.goalId) && FirstForbiddenIs(raw.fields, f))
            && (r == Failed(StepCeilingExceeded) <==>
                  && raw.goalId == Some(req.goalId) && (forall f :: f in FORBIDDEN_EXECUTION_FIELDS ==> f !in raw.fields)
                  && |raw.steps| > if opts.maxSteps.Some? then opts.maxSteps.value else 10)
  {
  }

  // The test that the extraction applies: the text parses to an object with a string goal id.
  function Accepts(parse: Text -> Option<RawPlan>): Text -> bool {
    t => parse(t).Some? && parse(t).value.goalId.Some?
  }

  /** `parseGoalPlanResult`; `parse` reads a JSON object, `stripped` is the text without its markdown fence. */
  method ParseGoalPlanResult(parse: Text -> Option<RawPlan>, stripped: Text, req: Request, opts: Options)
    returns (r: ParseResult, candidate: Option<Text>)
    ensures Extracted(Accepts(parse), Trim(stripped), candidate)
    ensures candidate.Some? ==> parse(candidate.value).Some?
    ensures r == if candidate.None? then Failed(JsonNotFound) else ParseObject(parse(candidate.value).value, req, opts)
    ensures r.Parsed? ==> candidate.Some? && Acceptable(parse(candidate.value).value, req, opts)
    ensures candidate.Some? && Acceptable(parse(candidate.value).value, req, opts) ==> r.Parsed?
    ensures r.Parsed? ==> forall f :: f in FORBIDDEN_EXECUTION_FIELDS ==> f !in parse(candidate.value).value.fields
    ensures candidate.Some? && parse(candidate.value).value.goalId == Some(req.goalId) ==>
              forall f :: r == Failed(ForbiddenField(f)) <==> FirstForbiddenIs(parse(candidate.value).value.fields, f)
  {
    candidate := ExtractPlanCandidate(Accepts(parse), stripped);
    if candidate.None? {
      return Failed(JsonNotFound), None;
    }
    var raw := parse(candidate.value).value;
    r := ParseCandidate(raw, req, opts);
    ParsedExactly(raw, req, opts);
    FailsExactly(raw, req, opts);
  }

  /** The parser once the candidate has been found. */
  method ParseCandidate(raw: RawPlan, req: Request, opts: Options) returns (r: ParseResult)
    ensures r == ParseObject(raw, req, opts)
  {
    if raw.goalId != Some(req.goalId) {
      return Failed(GoalIdMismatch);
    }
    for k := 0 to |FORBIDDEN_EXECUTION_FIELDS|
      invariant FirstForbidden(raw.fields, 0) == FirstForbidden(raw.fields, k)
    {
      if FORBIDDEN_EXECUTION_FIELDS[k] in raw.fields {
        return Failed(ForbiddenField(FORBIDDEN_EXECUTION_FIELDS[k]));
      }
    }
    var planId := PlanIdOf(raw, req);
    if |raw.steps| > OrElse(opts.maxSteps, DEFAULT_MAX_STEPS) {
      return Failed(StepCeilingExceeded);
    }
    var normal := NormalSteps(raw.steps, planId, req.randomIds);
    var steps := new Step[|normal|](i requires 0 <= i < |normal| => normal[i]);
    assert steps[..] == normal;
    var tiers := NormalizeCallerPermittedTiers(req.permittedTiers);
    if tiers.Invalid? {
      return Failed(tiers.failure);
    }
    var failure, downgrades := EnforceTiers(steps, tiers.tiers, opts.strict);
    if failure.Some? {
      return Failed(failure.value);
    }
    var plan := Plan(planId, req.goalId, steps[..], tiers.tiers, OrElse(raw.createdAt, req.now), req.now);
    if !SchemaValid(plan) {
      return Failed(SchemaInvalid);
    }
    return Parsed(plan, downgrades);
  }

  /** What a parsed plan guarantees: within the ceiling, for the requested goal, workspace-write exactly on the mutating
      steps, every tier permitted by the caller, and undoing the log gives the steps as the model wrote them. */
  lemma ParsedPlanSound(raw: RawPlan, req: Request, opts: Options)
    requires ParseObject(raw, req, opts).Parsed?
    ensures var plan := ParseObject(raw, req, opts).plan;
            && |plan.steps| == |raw.steps| <= OrElse(opts.maxSteps, DEFAULT_MAX_STEPS)
            && plan.goalId == req.goalId
            && (forall f :: f in FORBIDDEN_EXECUTION_FIELDS ==> f !in raw.fields)
            && (forall i :: 0 <= i < |plan.steps| ==>
                  && (plan.steps[i].tier == WorkspaceWrite <==> Mutating(plan.steps[i].kind))
                  && plan.steps[i].tier in plan.permittedTiers
                  && !plan.steps[i].kind.UnknownKind?)
            && (forall t :: t in plan.permittedTiers ==> t in OrElse(req.permittedTiers, [PatchProposal]))
            && Undo(plan.steps, ParseObject(raw, req, opts).downgrades) == NormalSteps(raw.steps, plan.id, req.randomIds)
  {
    UndoRestores(NormalSteps(raw.steps, PlanIdOf(raw, req), req.randomIds));
  }

  /** What a parsed plan says, field by field, of what was parsed. */
  lemma ParsedPlanFields(raw: RawPlan, req: Request, opts: Options)
    requires ParseObject(raw, req, opts).Parsed?
    ensures var plan := ParseObject(raw, req, opts).plan;
            && plan.id == (if req.id.Some? then req.id.value else if raw.id.Some? then raw.id.value else req.randomPlanId)
            && plan.createdAt == (if raw.createdAt.Some? then raw.createdAt.value else req.now) && plan.updatedAt == req.now
            && (forall t :: t in plan.permittedTiers <==>
                              t in (if req.permittedTiers.Some? then req.permittedTiers.value else [PatchProposal]))
            && |plan.steps| == |raw.steps|
            && forall i :: 0 <= i < |plan.steps| ==> FromRaw(plan.steps[i], raw.steps[i], plan.id, i, req.randomIds(i))
  {
    var plan := ParseObject(raw, req, opts).plan;
    forall i | 0 <= i < |plan.steps| ensures FromRaw(plan.steps[i], raw.steps[i], plan.id, i, req.randomIds(i)) {
      assert plan.steps[i].tier == AlignedTier(NormalStep(raw.steps[i], plan.id, i, req.randomIds(i)));
    }
  }

  predicate FromRaw(s: Step, raw: RawStep, planId: Text, i: nat, randomId: Text) {
    && s.planId == planId && s.kind == KindOf(raw)
    && s.tier == (if Mutating(s.kind) then WorkspaceWrite else if TierOf(raw) == WorkspaceWrite then PatchProposal else TierOf(raw))
    && (raw.NotRecord? ==> s.id == randomId && s.index == i && s.intent == [] && s.targetEndpointId == [] && !s.isStateMutating)
    && (raw.Record? ==>
          && s.id == (if raw.id.Some? && |raw.id.value| > 0 then raw.id.value else randomId)
          && s.index == (if raw.index.Some? then raw.index.value else i)
          && s.intent == (if raw.intent.Some? then raw.intent.value else [])
          && s.targetEndpointId == (if raw.targetEndpointId.Some? then raw.targetEndpointId.value else [])
          && (s.isStateMutating <==> raw.isStateMutating == Some(true)))
  }

  /** The fields of a plan. */
  const PLAN_FIELDS: set<Text> := {
    Ascii("id"), Ascii("goalId"), Ascii("steps"), Ascii("status"), Ascii("permittedTiers"), Ascii("createdAt"), Ascii("updatedAt")}

  /** The parser's own output as input. */
  function RawOf(p: Plan): RawPlan {
    RawPlan(Some(p.goalId), PLAN_FIELDS, Some(p.id), RawSteps(p.steps), Some(p.createdAt))
  }

  function RawSteps(steps: seq<Step>): (r: seq<RawStep>)
    ensures |r| == |steps|
  {
    seq(|steps|, i requires 0 <= i < |steps| =>
      Record(Some(steps[i].id), Some(steps[i].index), Some(steps[i].intent), Some(steps[i].kind),
             Some(steps[i].targetEndpointId), Some(steps[i].tier), Some(steps[i].isStateMutating)))
  }

  /** No field of a plan is a forbidden one. */
  lemma PlanFieldsAllowed(k: nat)
    requires k < |FORBIDDEN_EXECUTION_FIELDS|
    ensures FORBIDDEN_EXECUTION_FIELDS[k] !in PLAN_FIELDS
  {
    assert Ascii("confirmed")[1] != Ascii("createdAt")[1] && Ascii("confirmed")[0] != Ascii("updatedAt")[0];
  }

  /** Parsing a parsed plan again changes no step and logs nothing, in either mode. Steps keep their ids: the first
      parse left none empty, given that random ids are not. */
  lemma ReparseChangesNothing(raw: RawPlan, req: Request, opts: Options, strict: bool)
    requires ParseObject(raw, req, opts).Parsed?
    requires forall i :: req.randomIds(i) != []
    ensures var plan := ParseObject(raw, req, opts).plan;
            var again := ParseObject(RawOf(plan), req, opts.(strict := strict));
            again.Parsed? && again.plan == plan && again.downgrades == []
  {
    var plan := ParseObject(raw, req, opts).plan;
    var steps := NormalSteps(raw.steps, PlanIdOf(raw, req), req.randomIds);
    forall k | 0 <= k < |FORBIDDEN_EXECUTION_FIELDS| ensures FORBIDDEN_EXECUTION_FIELDS[k] !in PLAN_FIELDS {
      PlanFieldsAllowed(k);
    }
    PassesIdempotent(steps, plan.permittedTiers, opts.strict);
    assert PlanIdOf(RawOf(plan), req) == plan.id;
    SameNormalSteps(plan.steps, plan.id, req.randomIds);
  }

  /** The whole parser, given any text that reads back as a parsed plan: it finds that plan, whatever else the text would
      scan as, and returns it unchanged with nothing logged. */
  lemma PrintedPlanReparses(parse: Text -> Option<RawPlan>, printed: Text, raw: RawPlan, req: Request, opts: Options, strict: bool,
                            r: ParseResult, candidate: Option<Text>)
    requires ParseObject(raw, req, opts).Parsed?
    requires forall i :: req.randomIds(i) != []
    requires Trim(printed) != [] && parse(Trim(printed)) == Some(RawOf(ParseObject(raw, req, opts).plan))
    // what the parser returns for the printed text
    requires Extracted(Accepts(parse), Trim(printed), candidate) && (candidate.Some? ==> parse(candidate.value).Some?)
    requires r == if candidate.None? then Failed(JsonNotFound)
                  else ParseObject(parse(candidate.value).value, req, opts.(strict := strict))
    ensures r == Parsed(ParseObject(raw, req, opts).plan, [])
  {
    ReparseChangesNothing(raw, req, opts, strict);
    assert Accepts(parse)(Trim(printed));
  }

  /** An object with nothing but the goal's id. */
  function Stub(goalId: Text): RawPlan {
    RawPlan(Some(goalId), {Ascii("goalId")}, None, [], None)
  }

  /** A plan needs no steps to be taken for one: a block with nothing but the goal's id is accepted, and when no accepted block
      ends before it, the whole parser returns a plan without steps, whatever plan comes after it in the text. */
  lemma StepsNotNeeded(parse: Text -> Option<RawPlan>, t: Text, start: nat, end: nat, req: Request, opts: Options,
                       r: ParseResult, candidate: Option<Text>)
    requires OrElse(opts.maxSteps, DEFAULT_MAX_STEPS) >= 0 && !NormalTiers(req.permittedTiers).Invalid?
    requires Block(t, start, end) && parse(t[start..end]) == Some(Stub(req.goalId)) && !Accepts(parse)(t)
    // what the parser returns for a text that is this one when trimmed
    requires Extracted(Accepts(parse), t, candidate) && (candidate.Some? ==> parse(candidate.value).Some?)
    requires r == if candidate.None? then Failed(JsonNotFound) else ParseObject(parse(candidate.value).value, req, opts)
    ensures AcceptedBlock(Accepts(parse), t, start, end)
    ensures NoneEndsBefore(Accepts(parse), t, end) ==> candidate == Some(t[start..end]) && r.Parsed? && r.plan.steps == []
  {
    EarliestBlockReturned(Accepts(parse), t, start, end, candidate);
    StubParses(req, opts);
  }

  lemma StubParses(req: Request, opts: Options)
    requires OrElse(opts.maxSteps, DEFAULT_MAX_STEPS) >= 0 && !NormalTiers(req.permittedTiers).Invalid?
    ensures var r := ParseObject(Stub(req.goalId), req, opts); r.Parsed? && r.plan.steps == []
  {
    forall k | 0 <= k < |FORBIDDEN_EXECUTION_FIELDS| ensures FORBIDDEN_EXECUTION_FIELDS[k] !in {Ascii("goalId")} {
    }
  }

  lemma SameNormalSteps(steps: seq<Step>, planId: Text, randomIds: nat -> Text)
    requires forall i :: 0 <= i < |steps| ==> steps[i].id != [] && steps[i].planId == planId
    ensures NormalSteps(RawSteps(steps), planId, randomIds) == steps
  {
    var r := NormalSteps(RawSteps(steps), planId, randomIds);
    forall i | 0 <= i < |steps| ensures r[i] == steps[i] {
    }
  }
}
