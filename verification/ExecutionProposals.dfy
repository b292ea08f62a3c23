/** Execution proposals: drafting, confirmation, control and dispatch. */
module ExecutionProposals {
  import opened Wrappers
  import opened Texts
  import opened KeyedSort
  import opened Json
  import opened CanonicalJson
  import opened Bindings
  import opened ReasoningArtifacts
  import opened CommandRunner
  import opened Plans

  datatype ProposalStatus =
    | Drafted
    | AwaitingConfirmation
    | Confirmed
    | Dispatching
    | Returned
    | Failed
    | Paused
    | Cancelled
    | TimedOut

  /** What the content hash covers. */
  datatype Content = Content(
    artifactId: Text,
    artifactContentHash: Text,
    preview: Text,
    command: Text,
    args: seq<Text>,
    stdin: Text)

  datatype Proposal = Proposal(
    id: Text,
    goalId: Text,
    planId: Text,
    stepId: Text,
    content: Content,
    contentHash: Text,
    bindingHash: Text,
    executionEndpointId: Text,
    executionPermissionProfile: Text,
    projectId: Text,
    status: ProposalStatus,
    confirmedAt: Option<int>,
    expiresAt: int)

  datatype StepView = StepView(id: Text, targetEndpointId: Text, tier: Text)

  datatype PlanView = PlanView(id: Text, goalId: Text, status: PlanStatus, steps: seq<StepView>)

  /** `plan.steps.find(item => item.id === stepId)` */
  function FindStep(steps: seq<StepView>, stepId: Text): (r: Option<StepView>)
    ensures r.None? <==> forall i :: 0 <= i < |steps| ==> steps[i].id != stepId
    ensures r.Some? ==>
              exists k :: 0 <= k < |steps| && steps[k] == r.value && steps[k].id == stepId
                          && forall i :: 0 <= i < k ==> steps[i].id != stepId
  {
    if steps == [] then None
    else if steps[0].id == stepId then Some(steps[0])
    else
      assert forall i :: 0 <= i < |steps| - 1 ==> steps[1..][i] == steps[i + 1];
      FindStep(steps[1..], stepId)
  }

  // ---- The content hash ----

  function ContentFields(c: Content): seq<Keyed<Json>> {
    [Keyed(Ascii("artifactId"), Str(c.artifactId)),
     Keyed(Ascii("artifactContentHash"), Str(c.artifactContentHash)),
     Keyed(Ascii("preview"), Str(c.preview)),
     Keyed(Ascii("command"), Str(c.command)),
     Keyed(Ascii("args"), Arr(TextItems(c.args))),
     Keyed(Ascii("stdin"), Str(c.stdin))]
  }

  function TextItems(texts: seq<Text>): (r: seq<Json>)
    ensures |r| == |texts| && forall i :: 0 <= i < |r| ==> r[i] == Str(texts[i])
  {
    seq(|texts|, i requires 0 <= i < |texts| => Str(texts[i]))
  }

  function ContentText(c: Content): Text {
    Print(Obj(ContentFields(c)))
  }

  lemma ContentKeysDistinct(c: Content)
    ensures DistinctKeys(ContentFields(c))
  {
    var k := Keys(ContentFields(c));
    assert |k[0]| == 10 && |k[1]| == 19 && |k[2]| == 7 && |k[3]| == 7 && |k[4]| == 4 && |k[5]| == 5;
    assert k[2][0] == 'p' as int && k[3][0] == 'c' as int;
  }

  lemma ContentFieldsSound(c: Content)
    ensures WellFormed(Obj(ContentFields(c))) && Plain(Obj(ContentFields(c)))
  {
    ContentKeysDistinct(c);
    var f := ContentFields(c);
    assert !LoneUndefined(TextItems(c.args));
    assert WellFormed(f[4].val) && Plain(f[4].val);
    forall i | 0 <= i < |f| ensures WellFormed(f[i].val) && Plain(f[i].val) {
    }
  }

  /** The content hash the program uses. */
  function ServerContentHash(hash: Text -> Text): Content -> Text {
    c => Sha256(hash, ContentText(c))
  }

  /** Equal content hashes mean the same artifact, preview, command, arguments and input, unless the two
      content texts are a hash collision. */
  lemma ContentHashPins(hash: Text -> Text, a: Content, b: Content)
    ensures Sha256(hash, ContentText(a)) == Sha256(hash, ContentText(b)) <==>
              a == b || Collision(hash, ContentText(a), ContentText(b))
  {
    if Sha256(hash, ContentText(a)) == Sha256(hash, ContentText(b)) {
      SameDigest(hash, ContentText(a), ContentText(b));
      if ContentText(a) == ContentText(b) {
        ContentTextInjective(a, b);
      }
    }
  }

  lemma ContentTextInjective(a: Content, b: Content)
    requires ContentText(a) == ContentText(b)
    ensures a == b
  {
    ContentFieldsSound(a);
    ContentFieldsSound(b);
    PlainPrintUniquelyDecodable(Obj(ContentFields(a)), Obj(ContentFields(b)));
    forall i | 0 <= i < 6 ensures EqualUpToKeyOrder(ContentFields(a)[i].val, ContentFields(b)[i].val) {
      SameField(a, b, i);
    }
    SameContent(a, b);
  }

  lemma SameField(a: Content, b: Content, i: nat)
    requires i < 6 && EqualUpToKeyOrder(Obj(ContentFields(a)), Obj(ContentFields(b)))
    ensures EqualUpToKeyOrder(ContentFields(a)[i].val, ContentFields(b)[i].val)
  {
    ContentKeysDistinct(b);
    ContentKeysFixed(a, b);
    SameKeySameValue(ContentFields(a), ContentFields(b), i);
  }

  lemma ContentKeysFixed(a: Content, b: Content)
    ensures Keys(ContentFields(a)) == Keys(ContentFields(b))
  {
  }

  lemma SameKeySameValue(f: seq<Keyed<Json>>, g: seq<Keyed<Json>>, i: nat)
    requires i < |f| == |g| && Keys(f) == Keys(g) && DistinctKeys(g) && EqualUpToKeyOrder(Obj(f), Obj(g))
    ensures EqualUpToKeyOrder(f[i].val, g[i].val)
  {
    assert HasCounterpart(f[i], g);
    var j :| 0 <= j < |g| && f[i].key == g[j].key && EqualUpToKeyOrder(f[i].val, g[j].val);
    assert Keys(f)[i] == Keys(g)[i];
    assert i == j;
  }

  lemma SameContent(a: Content, b: Content)
    requires forall i :: 0 <= i < 6 ==> EqualUpToKeyOrder(ContentFields(a)[i].val, ContentFields(b)[i].val)
    ensures a == b
  {
    var f, g := ContentFields(a), ContentFields(b);
    assert EqualUpToKeyOrder(f[0].val, g[0].val) && EqualUpToKeyOrder(f[1].val, g[1].val) && EqualUpToKeyOrder(f[2].val, g[2].val);
    assert EqualUpToKeyOrder(f[3].val, g[3].val) && EqualUpToKeyOrder(f[4].val, g[4].val) && EqualUpToKeyOrder(f[5].val, g[5].val);
    forall i | 0 <= i < |a.args| ensures a.args[i] == b.args[i] {
      assert EqualUpToKeyOrder(TextItems(a.args)[i], TextItems(b.args)[i]);
    }
    assert a.args == b.args;
  }

  // ---- Calls on the store as a value ----

  type Proposals = map<Text, Proposal>

  datatype DraftInput = DraftInput(
    binding: Binding,
    plan: PlanView,
    stepId: Text,
    artifact: Artifact,
    preview: Text,
    command: Text,
    args: seq<Text>,
    stdin: Text,
    expiresAt: int)

  ghost function DraftFailure(lower: Text -> Text, d: DraftInput): Option<string> {
    var step := FindStep(d.plan.steps, d.stepId);
    if !Permitted(lower, Execution(d.command, d.args, d.stdin)) then Some("command-invalid")
    else if step.None? then Some("step-not-found")
    else if d.artifact.kind != Ascii("execution-proposal") then Some("artifact-kind-invalid")
    else if d.artifact.planId != d.plan.id || d.artifact.goalId != d.plan.goalId then Some("artifact-plan-mismatch")
    else if d.binding.planId != d.plan.id || d.binding.goalId != d.plan.goalId then Some("binding-plan-mismatch")
    else if step.value.targetEndpointId != d.binding.executionEndpointId then Some("step-endpoint-mismatch")
    else if step.value.tier != d.binding.executionPermissionProfile then Some("step-permission-profile-mismatch")
    else if !(SHA256 <= d.binding.bindingHash) then Some("Invalid ExecutionProposal")
    else None
  }

  /** Everything that must hold for a proposal to be drafted. */
  ghost predicate Draftable(lower: Text -> Text, d: DraftInput) {
    && Permitted(lower, Execution(d.command, d.args, d.stdin))
    && d.artifact.kind == Ascii("execution-proposal")
    && d.artifact.planId == d.binding.planId == d.plan.id && d.artifact.goalId == d.binding.goalId == d.plan.goalId
    && FindStep(d.plan.steps, d.stepId).Some?
    && FindStep(d.plan.steps, d.stepId).value.targetEndpointId == d.binding.executionEndpointId
    && FindStep(d.plan.steps, d.stepId).value.tier == d.binding.executionPermissionProfile
    && SHA256 <= d.binding.bindingHash
  }

  predicate BindsTo(p: Proposal, b: Binding) {
    && p.bindingHash == b.bindingHash && p.executionEndpointId == b.executionEndpointId
    && p.executionPermissionProfile == b.executionPermissionProfile && p.projectId == b.executionWorkingDirectoryRef
  }

  predicate Holds(c: Content, a: Artifact, preview: Text, command: Text, args: seq<Text>, stdin: Text) {
    && c.artifactId == a.artifactId && c.artifactContentHash == a.contentHash
    && c.preview == preview && c.command == command && c.args == args && c.stdin == stdin
  }

  function DraftContent(d: DraftInput): Content {
    Content(d.artifact.artifactId, d.artifact.contentHash, d.preview, d.command, d.args, d.stdin)
  }

  function NewProposal(contentHash: Content -> Text, id: Text, d: DraftInput): Proposal {
    Proposal(id, d.plan.goalId, d.plan.id, d.stepId, DraftContent(d), contentHash(DraftContent(d)),
             d.binding.bindingHash, d.binding.executionEndpointId, d.binding.executionPermissionProfile,
             d.binding.executionWorkingDirectoryRef, Drafted, None, d.expiresAt)
  }

  /** What the human confirms, field by field. */
  datatype Confirmation = Confirmation(
    planId: Text,
    stepId: Text,
    artifactId: Text,
    contentHash: Text,
    bindingHash: Text,
    executionEndpointId: Text,
    executionPermissionProfile: Text,
    projectId: Text)

  predicate Matches(c: Confirmation, p: Proposal) {
    && c.planId == p.planId
    && c.stepId == p.stepId
    && c.artifactId == p.content.artifactId
    && c.contentHash == p.contentHash
    && c.bindingHash == p.bindingHash
    && c.executionEndpointId == p.executionEndpointId
    && c.executionPermissionProfile == p.executionPermissionProfile
    && c.projectId == p.projectId
  }

  /** A proposal that was put to the human and has not expired, confirmed with all eight fields right. */
  predicate Confirmable(p: Proposal, c: Confirmation, now: int) {
    p.status == AwaitingConfirmation && now <= p.expiresAt && Matches(c, p)
  }

  predicate Late(p: Proposal, now: int) {
    p.status == AwaitingConfirmation && p.expiresAt < now
  }

  function ConfirmFailure(p: Proposal, c: Confirmation, now: int): Option<string> {
    if p.status == Cancelled then Some("proposal-cancelled")
    else if p.status == Paused then Some("proposal-paused")
    else if p.status != AwaitingConfirmation then Some("proposal-not-awaiting-confirmation")
    else if now > p.expiresAt then Some("confirmation-expired")
    else if c.planId != p.planId then Some("confirmation-plan-mismatch")
    else if c.stepId != p.stepId then Some("confirmation-step-mismatch")
    else if c.artifactId != p.content.artifactId then Some("confirmation-artifact-mismatch")
    else if c.contentHash != p.contentHash then Some("confirmation-content-mismatch")
    else if c.bindingHash != p.bindingHash then Some("confirmation-binding-mismatch")
    else if c.executionEndpointId != p.executionEndpointId then Some("confirmation-endpoint-mismatch")
    else if c.executionPermissionProfile != p.executionPermissionProfile then Some("confirmation-permission-profile-mismatch")
    else if c.projectId != p.projectId then Some("confirmation-project-mismatch")
    else None
  }

  // A late confirmation is not just refused: it times the proposal out.
  function AfterConfirm(p: Proposal, c: Confirmation, now: int): Proposal {
    if ConfirmFailure(p, c, now).None? then p.(status := Confirmed, confirmedAt := Some(now))
    else if p.status == AwaitingConfirmation && now > p.expiresAt then p.(status := ProposalStatus.TimedOut)
    else p
  }

  datatype Control = RequestConfirmation | Pause | Resume | Cancel | MarkDispatching | MarkReturned | MarkFailed

  /** The proposal after a control call, or nothing when the call throws. */
  function AfterControl(p: Proposal, c: Control): Option<Proposal> {
    match c
    case RequestConfirmation => if p.status == Drafted then Some(p.(status := AwaitingConfirmation)) else None
    case Pause =>
      if p.status in {Drafted, AwaitingConfirmation, Confirmed, Dispatching} then Some(p.(status := Paused)) else None
    case Resume =>
      if p.status == Paused then Some(p.(status := if p.confirmedAt.None? then AwaitingConfirmation else Confirmed)) else None
    case Cancel =>
      if p.status in {Drafted, AwaitingConfirmation, Confirmed, Paused} then Some(p.(status := Cancelled)) else None
    case MarkDispatching => if p.status == Confirmed then Some(p.(status := Dispatching)) else None
    case MarkReturned => Some(p.(status := Returned))
    case MarkFailed => Some(p.(status := Failed))
  }

  function Controlled(m: Proposals, id: Text, c: Control): Proposals {
    if id in m && AfterControl(m[id], c).Some? then m[id := AfterControl(m[id], c).value] else m
  }

  /** What each control call needs and does: it changes the status only; only resuming a proposal that was confirmed before
      leads back to confirmed, and only a confirmed one becomes dispatching. */
  lemma ControlMoves(p: Proposal, c: Control)
    ensures var r := AfterControl(p, c);
            && (r.Some? <==>
                  || c.MarkReturned? || c.MarkFailed?
                  || (c.RequestConfirmation? && p.status == Drafted)
                  || (c.Resume? && p.status == Paused)
                  || (c.MarkDispatching? && p.status == Confirmed)
                  || ((c.Pause? || c.Cancel?) && p.status in {Drafted, AwaitingConfirmation, Confirmed})
                  || (c.Pause? && p.status == Dispatching) || (c.Cancel? && p.status == Paused))
            && (r.Some? ==>
                  && r.value == p.(status := r.value.status)
                  && (r.value.status == Confirmed <==> c.Resume? && p.confirmedAt.Some?)
                  && (r.value.status == AwaitingConfirmation <==> c.RequestConfirmation? || (c.Resume? && p.confirmedAt.None?))
                  && (r.value.status == Dispatching <==> c.MarkDispatching?)
                  && (r.value.status == ProposalStatus.Paused <==> c.Pause?)
                  && (r.value.status == ProposalStatus.Cancelled <==> c.Cancel?)
                  && (r.value.status == ProposalStatus.Returned <==> c.MarkReturned?)
                  && (r.value.status == ProposalStatus.Failed <==> c.MarkFailed?))
  {
  }

  predicate Editable(p: Proposal) {
    p.status != Returned && p.status != Dispatching
  }

  predicate SameTerms(p: Proposal, q: Proposal) {
    && p.goalId == q.goalId && p.planId == q.planId && p.stepId == q.stepId && p.bindingHash == q.bindingHash
    && p.executionEndpointId == q.executionEndpointId && p.executionPermissionProfile == q.executionPermissionProfile
    && p.projectId == q.projectId && p.expiresAt == q.expiresAt
  }

  function EditedContent(p: Proposal, preview: Text, stdin: Text, a: Artifact): Content {
    Content(a.artifactId, a.contentHash, preview, p.content.command, p.content.args, stdin)
  }

  function Revised(contentHash: Content -> Text, p: Proposal, newId: Text, preview: Text, stdin: Text, a: Artifact): Proposal {
    var content := EditedContent(p, preview, stdin, a);
    p.(id := newId, content := content, contentHash := contentHash(content), status := Drafted, confirmedAt := None)
  }

  // ---- The store ----

  class InMemoryExecutionProposalStore {
    var proposals: Proposals
    const contentHash: Content -> Text

    constructor (contentHash: Content -> Text)
      ensures proposals == map[] && this.contentHash == contentHash
    {
      this.proposals := map[];
      this.contentHash := contentHash;
    }

    /** `newId` is a random id. */
    method CreateDraft(lower: Text -> Text, newId: Text, d: DraftInput) returns (r: Result<Proposal>)
      requires newId !in proposals
      modifies this
      ensures r.Ok? <==> DraftFailure(lower, d).None?
      ensures r.Ok? <==> Draftable(lower, d)
      ensures r.Threw? ==> proposals == old(proposals) && Some(r.reason) == DraftFailure(lower, d)
      ensures r.Ok? ==> r.value == NewProposal(contentHash, newId, d) && proposals == old(proposals)[newId := r.value]
      ensures r.Ok? ==>
                && r.value.id == newId && r.value.status == Drafted && r.value.confirmedAt.None? && r.value.expiresAt == d.expiresAt
                && r.value.planId == d.plan.id && r.value.goalId == d.plan.goalId && r.value.stepId == d.stepId
                && BindsTo(r.value, d.binding) && Holds(r.value.content, d.artifact, d.preview, d.command, d.args, d.stdin)
                && r.value.contentHash == contentHash(r.value.content)
    {
      var failure := ValidateCommandExecution(lower, Execution(d.command, d.args, d.stdin));
      if failure.Some? {
        return Threw("command-invalid");
      }
      var step := FindStep(d.plan.steps, d.stepId);
      if step.None? {
        return Threw("step-not-found");
      }
      if d.artifact.kind != Ascii("execution-proposal") {
        return Threw("artifact-kind-invalid");
      }
      if d.artifact.planId != d.plan.id || d.artifact.goalId != d.plan.goalId {
        return Threw("artifact-plan-mismatch");
      }
      if d.binding.planId != d.plan.id || d.binding.goalId != d.plan.goalId {
        return Threw("binding-plan-mismatch");
      }
      if step.value.targetEndpointId != d.binding.executionEndpointId {
        return Threw("step-endpoint-mismatch");
      }
      if step.value.tier != d.binding.executionPermissionProfile {
        return Threw("step-permission-profile-mismatch");
      }
      if !(SHA256 <= d.binding.bindingHash) {
        return Threw("Invalid ExecutionProposal");
      }
      var proposal := NewProposal(contentHash, newId, d);
      proposals := proposals[newId := proposal];
      return Ok(proposal);
    }

    method Get(proposalId: Text) returns (r: Option<Proposal>)
      ensures r == if proposalId in proposals then Some(proposals[proposalId]) else None
    {
      return if proposalId in proposals then Some(proposals[proposalId]) else None;
    }

    method Confirm(proposalId: Text, c: Confirmation, now: int) returns (failure: Option<string>)
      modifies this
      ensures proposalId !in old(proposals) ==> failure == Some("proposal-not-found") && proposals == old(proposals)
      ensures proposalId in old(proposals) ==>
                && failure == ConfirmFailure(old(proposals[proposalId]), c, now)
                && proposals == old(proposals)[proposalId := AfterConfirm(old(proposals[proposalId]), c, now)]
      ensures failure.None? <==> proposalId in old(proposals) && Confirmable(old(proposals[proposalId]), c, now)
      ensures failure.None? ==>
                proposals == old(proposals)[proposalId := old(proposals[proposalId]).(status := Confirmed, confirmedAt := Some(now))]
      ensures failure == Some("confirmation-expired") <==> proposalId in old(proposals) && Late(old(proposals[proposalId]), now)
      ensures failure == Some("confirmation-expired") ==>
                proposals == old(proposals)[proposalId := old(proposals[proposalId]).(status := ProposalStatus.TimedOut)]
      ensures failure.Some? && failure != Some("confirmation-expired") ==> proposals == old(proposals)
    {
      if proposalId !in proposals {
        return Some("proposal-not-found");
      }
      var proposal := proposals[proposalId];
      failure := ConfirmFailure(proposal, c, now);
      if failure == Some("confirmation-expired") {
        proposal := proposal.(status := ProposalStatus.TimedOut);
      } else if failure.None? {
        proposal := proposal.(status := Confirmed, confirmedAt := Some(now));
      }
      proposals := proposals[proposalId := proposal];
    }

    method Apply(proposalId: Text, c: Control) returns (r: Result<Proposal>)
      modifies this
      ensures proposals == Controlled(old(proposals), proposalId, c)
      ensures r.Ok? <==> proposalId in old(proposals) && AfterControl(old(proposals[proposalId]), c).Some?
      ensures r.Ok? ==> proposalId in proposals && r.value == proposals[proposalId]
    {
      if proposalId !in proposals {
        return Threw("proposal-not-found");
      }
      var next := AfterControl(proposals[proposalId], c);
      if next.None? {
        return Threw("proposal-not-in-a-state-for-this");
      }
      proposals := proposals[proposalId := next.value];
      return Ok(next.value);
    }

    /** `newId` is a random id. Editing cancels the old proposal and drafts its replacement. */
    method Edit(proposalId: Text, newId: Text, preview: Text, stdin: Text, artifact: Artifact) returns (r: Result<Proposal>)
      requires newId !in proposals
      modifies this
      ensures r.Ok? <==> proposalId in old(proposals) && old(proposals[proposalId]).status !in {Returned, Dispatching}
      ensures r.Threw? ==> proposals == old(proposals)
      ensures r.Ok? ==>
                && r.value == Revised(contentHash, old(proposals[proposalId]), newId, preview, stdin, artifact)
                && proposals == old(proposals)[proposalId := old(proposals[proposalId]).(status := Cancelled)][newId := r.value]
      ensures r.Ok? ==>
                && SameTerms(r.value, old(proposals[proposalId]))
                && r.value.id == newId && r.value.status == Drafted && r.value.confirmedAt.None?
                && r.value.contentHash == contentHash(r.value.content)
                && Holds(r.value.content, artifact, preview, old(proposals[proposalId]).content.command,
                         old(proposals[proposalId]).content.args, stdin)
    {
      if proposalId !in proposals {
        return Threw("proposal-not-found");
      }
      var previous := proposals[proposalId];
      if previous.status == Returned || previous.status == Dispatching {
        return Threw("proposal-not-editable");
      }
      proposals := proposals[proposalId := previous.(status := Cancelled)];
      var proposal := Revised(contentHash, previous, newId, preview, stdin, artifact);
      proposals := proposals[newId := proposal];
      return Ok(proposal);
    }
  }
}
