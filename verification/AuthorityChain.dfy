/** The authority chain over whole runs of the server: bindings, proposals, confirmations and dispatches,
    interleaved in any order. */
module AuthorityChain {
  import opened Wrappers
  import opened Texts
  import opened Bindings
  import opened AutomationBindings
  import opened ReasoningArtifacts
  import opened ExecutionProposals
  import opened ExecutionDispatcher

  /** What the stores are given: the two hash functions, the known projects, dates, and lower-casing; and where the server runs. */
  datatype Host = Host(env: Env, contentHash: Content -> Text, lower: Text -> Text, site: Site)

  /** The program's own hashes, over a digest about which nothing is assumed. */
  function ServerHost(hash: Text -> Text, lower: Text -> Text, projectExists: Text -> bool, isDate: Text -> bool, site: Site): Host {
    Host(ServerEnv(hash, projectExists, isDate), ServerContentHash(hash), lower, site)
  }

  datatype DispatchEvent = DispatchEvent(proposal: Proposal, binding: Binding, sent: Sent)

  /** The stores, and the history that the claims are about: the authority each proposal was drafted under,
      what was confirmed, and what was dispatched with which binding in force and sent on. */
  datatype World = World(
    sys: System,
    proposals: Proposals,
    origin: map<Text, Authority>,
    confirmed: set<(Text, Confirmation)>,
    dispatches: seq<DispatchEvent>)

  const WORLD_START := World(START, map[], map[], {}, [])

  datatype Request = Request(
    plan: PlanView, stepId: Text, artifact: Artifact, preview: Text, command: Text, args: seq<Text>, stdin: Text, expiresAt: int)

  datatype WorldOp =
    | BindingCall(op: SystemOp)
    | DraftCall(newId: Text, request: Request)
    | ConfirmCall(id: Text, c: Confirmation, now: int)
    | ControlCall(id: Text, control: Control)
    | EditCall(id: Text, newId: Text, preview: Text, stdin: Text, artifact: Artifact)
    | DispatchCall(id: Text, plan: PlanView, capability: Option<Capability>, hasAdapter: bool)

  // The route looks up the binding of the plan that the request names.
  function DraftOf(b: Binding, r: Request): DraftInput {
    DraftInput(b, r.plan, r.stepId, r.artifact, r.preview, r.command, r.args, r.stdin, r.expiresAt)
  }

  ghost function AfterDraft(host: Host, w: World, id: Text, r: Request): World {
    if id in w.origin || r.plan.id !in w.sys.st.entries then w
    else
      var b := w.sys.st.entries[r.plan.id];
      if DraftFailure(host.lower, DraftOf(b, r)).Some? then w
      else w.(proposals := w.proposals[id := NewProposal(host.contentHash, id, DraftOf(b, r))], origin := w.origin[id := AuthorityOf(b)])
  }

  function ConfirmationOf(p: Proposal): Confirmation {
    Confirmation(p.planId, p.stepId, p.content.artifactId, p.contentHash, p.bindingHash, p.executionEndpointId,
                 p.executionPermissionProfile, p.projectId)
  }

  function AfterConfirmCall(w: World, id: Text, c: Confirmation, now: int): World {
    if id !in w.proposals then w
    else
      w.(proposals := w.proposals[id := AfterConfirm(w.proposals[id], c, now)],
         confirmed := if ConfirmFailure(w.proposals[id], c, now).None? then w.confirmed + {(id, c)} else w.confirmed)
  }

  function AfterEdit(host: Host, w: World, id: Text, newId: Text, preview: Text, stdin: Text, a: Artifact): World {
    if newId in w.origin || id !in w.origin || id !in w.proposals || !Editable(w.proposals[id]) then w
    else
      var p := w.proposals[id];
      w.(proposals := w.proposals[id := p.(status := Cancelled)][newId := Revised(host.contentHash, p, newId, preview, stdin, a)],
         origin := w.origin[newId := w.origin[id]])
  }

  function EventOf(site: Site, p: Proposal, b: Binding, d: Decision): DispatchEvent {
    DispatchEvent(p, b, SentBy(d, p, b, site))
  }

  function AfterDispatch(site: Site, w: World, id: Text, plan: PlanView, capability: Option<Capability>, hasAdapter: bool): World {
    if id !in w.proposals || w.proposals[id].planId !in w.sys.st.entries then w
    else
      var p, b := w.proposals[id], w.sys.st.entries[w.proposals[id].planId];
      var d := Decide(p, b, plan, capability, hasAdapter);
      w.(proposals := AfterDecision(w.proposals, id, d),
         dispatches := if Cleared(d) then w.dispatches + [EventOf(site, p, b, d)] else w.dispatches)
  }

  ghost function WorldStep(host: Host, w: World, op: WorldOp): World {
    match op
    case BindingCall(call) => w.(sys := SystemStep(host.env, w.sys, call))
    case DraftCall(id, r) => AfterDraft(host, w, id, r)
    case ConfirmCall(id, c, now) => AfterConfirmCall(w, id, c, now)
    // only the dispatcher marks a proposal as dispatching
    case ControlCall(id, c) => if c == MarkDispatching then w else w.(proposals := Controlled(w.proposals, id, c))
    case EditCall(id, newId, preview, stdin, a) => AfterEdit(host, w, id, newId, preview, stdin, a)
    case DispatchCall(id, plan, capability, hasAdapter) => AfterDispatch(host.site, w, id, plan, capability, hasAdapter)
  }

  ghost function WorldRun(host: Host, w: World, ops: seq<WorldOp>): World
    decreases |ops|
  {
    if ops == [] then w else WorldRun(host, WorldStep(host, w, ops[0]), ops[1..])
  }

  // ---- What every run keeps ----

  /** The proposal carries the hash and the visible fields of the authority it was drafted under, and the hash of
      its own content. */
  ghost predicate FromOrigin(host: Host, p: Proposal, a: Authority) {
    && p.bindingHash == host.env.hashOf(a)
    && p.goalId == a.goalId && p.planId == a.planId
    && p.executionEndpointId == a.executionEndpointId
    && p.executionPermissionProfile == a.executionPermissionProfile
    && p.projectId == a.executionWorkingDirectoryRef
    && p.contentHash == host.contentHash(p.content)
  }

  ghost predicate ConfirmedFor(w: World, p: Proposal) {
    (p.id, ConfirmationOf(p)) in w.confirmed
  }

  ghost predicate Sound(host: Host, p: Proposal, a: Authority, confirmed: set<(Text, Confirmation)>) {
    && FromOrigin(host, p, a)
    && (p.confirmedAt.Some? ==> (p.id, ConfirmationOf(p)) in confirmed && p.confirmedAt.value <= p.expiresAt)
    && (p.status == Confirmed ==> p.confirmedAt.Some?)
  }

  ghost predicate Linked(host: Host, w: World, id: Text) {
    id in w.proposals && id in w.origin && w.proposals[id].id == id && Sound(host, w.proposals[id], w.origin[id], w.confirmed)
  }

  ghost predicate DispatchSound(host: Host, w: World, d: DispatchEvent) {
    && d.proposal.id in w.origin && FromOrigin(host, d.proposal, w.origin[d.proposal.id])
    && HydrateAccepts(host.env, d.binding)
    && d.proposal.bindingHash == d.binding.bindingHash
    && ConfirmedFor(w, d.proposal)
    && d.proposal.status == Confirmed && d.proposal.confirmedAt.Some? && d.proposal.confirmedAt.value <= d.proposal.expiresAt
    && d.proposal.planId == d.binding.planId && d.proposal.goalId == d.binding.goalId
    && d.proposal.executionEndpointId == d.binding.executionEndpointId
    && Carries(d.sent, d.proposal, d.binding, host.site)
  }

  ghost predicate Chain(host: Host, w: World) {
    && SystemValid(host.env, w.sys)
    && (forall id :: id in w.proposals ==> Linked(host, w, id))
    && (forall i :: 0 <= i < |w.dispatches| ==> DispatchSound(host, w, w.dispatches[i]))
  }

  // Histories only grow.
  ghost predicate Grown(w: World, v: World) {
    && (forall id :: id in w.origin ==> id in v.origin && v.origin[id] == w.origin[id])
    && w.confirmed <= v.confirmed
  }

  lemma SoundStaysSound(host: Host, w: World, v: World, d: DispatchEvent)
    requires Grown(w, v) && DispatchSound(host, w, d)
    ensures DispatchSound(host, v, d)
  {
  }

  lemma DraftKeeps(host: Host, w: World, id: Text, r: Request)
    requires Chain(host, w)
    ensures Chain(host, AfterDraft(host, w, id, r)) && Grown(w, AfterDraft(host, w, id, r))
  {
    var v := AfterDraft(host, w, id, r);
    if v != w {
      var b := w.sys.st.entries[r.plan.id];
      NewProposalLinked(host, b, id, r);
      forall x | x in v.proposals ensures Linked(host, v, x) {
        if x != id { assert Linked(host, w, x); }
      }
      KeepDispatches(host, w, v);
    }
  }

  lemma NewProposalLinked(host: Host, b: Binding, id: Text, r: Request)
    requires HydrateAccepts(host.env, b) && DraftFailure(host.lower, DraftOf(b, r)).None?
    ensures FromOrigin(host, NewProposal(host.contentHash, id, DraftOf(b, r)), AuthorityOf(b))
  {
  }

  lemma KeepDispatches(host: Host, w: World, v: World)
    requires Chain(host, w) && Grown(w, v) && v.dispatches == w.dispatches
    ensures forall i :: 0 <= i < |v.dispatches| ==> DispatchSound(host, v, v.dispatches[i])
  {
    forall i | 0 <= i < |v.dispatches| ensures DispatchSound(host, v, v.dispatches[i]) {
      SoundStaysSound(host, w, v, w.dispatches[i]);
    }
  }

  lemma ConfirmSound(host: Host, p: Proposal, c: Confirmation, now: int, a: Authority, confirmed: set<(Text, Confirmation)>)
    requires Sound(host, p, a, confirmed)
    ensures AfterConfirm(p, c, now).id == p.id
    ensures ConfirmFailure(p, c, now).None? ==> Sound(host, AfterConfirm(p, c, now), a, confirmed + {(p.id, c)})
    ensures ConfirmFailure(p, c, now).Some? ==> Sound(host, AfterConfirm(p, c, now), a, confirmed)
  {
    if ConfirmFailure(p, c, now).None? {
      assert c == ConfirmationOf(AfterConfirm(p, c, now));
    }
  }

  lemma ConfirmKeeps(host: Host, w: World, id: Text, c: Confirmation, now: int)
    requires Chain(host, w)
    ensures Chain(host, AfterConfirmCall(w, id, c, now)) && Grown(w, AfterConfirmCall(w, id, c, now))
  {
    var v := AfterConfirmCall(w, id, c, now);
    if id in w.proposals {
      assert Linked(host, w, id);
      ConfirmSound(host, w.proposals[id], c, now, w.origin[id], w.confirmed);
      forall x | x in v.proposals ensures Linked(host, v, x) {
        assert Linked(host, w, x);
      }
      KeepDispatches(host, w, v);
    }
  }

  lemma ControlSound(host: Host, p: Proposal, c: Control, a: Authority, confirmed: set<(Text, Confirmation)>)
    requires Sound(host, p, a, confirmed) && AfterControl(p, c).Some?
    ensures Sound(host, AfterControl(p, c).value, a, confirmed) && AfterControl(p, c).value.id == p.id
  {
  }

  lemma ControlledLinked(host: Host, w: World, v: World, id: Text, c: Control)
    requires Chain(host, w)
    requires v.proposals == Controlled(w.proposals, id, c) && v.origin == w.origin && v.confirmed == w.confirmed
    ensures forall x :: x in v.proposals ==> Linked(host, v, x)
  {
    forall x | x in v.proposals ensures Linked(host, v, x) {
      assert Linked(host, w, x);
      if x == id && AfterControl(w.proposals[id], c).Some? {
        ControlSound(host, w.proposals[id], c, w.origin[id], w.confirmed);
      }
    }
  }

  lemma ControlKeeps(host: Host, w: World, id: Text, c: Control)
    requires Chain(host, w)
    ensures Chain(host, w.(proposals := Controlled(w.proposals, id, c)))
  {
    var v := w.(proposals := Controlled(w.proposals, id, c));
    ControlledLinked(host, w, v, id, c);
    KeepDispatches(host, w, v);
  }

  lemma EditSound(host: Host, p: Proposal, newId: Text, preview: Text, stdin: Text, artifact: Artifact, a: Authority,
                  confirmed: set<(Text, Confirmation)>)
    requires Sound(host, p, a, confirmed)
    ensures Sound(host, p.(status := Cancelled), a, confirmed)
    ensures Sound(host, Revised(host.contentHash, p, newId, preview, stdin, artifact), a, confirmed)
  {
  }

  lemma EditKeeps(host: Host, w: World, id: Text, newId: Text, preview: Text, stdin: Text, a: Artifact)
    requires Chain(host, w)
    ensures Chain(host, AfterEdit(host, w, id, newId, preview, stdin, a)) && Grown(w, AfterEdit(host, w, id, newId, preview, stdin, a))
  {
    var v := AfterEdit(host, w, id, newId, preview, stdin, a);
    if v != w {
      assert Linked(host, w, id);
      EditSound(host, w.proposals[id], newId, preview, stdin, a, w.origin[id], w.confirmed);
      forall x | x in v.proposals ensures Linked(host, v, x) {
        if x != newId { assert Linked(host, w, x); }
      }
      KeepDispatches(host, w, v);
    }
  }

  lemma DispatchKeeps(host: Host, w: World, id: Text, plan: PlanView, capability: Option<Capability>, hasAdapter: bool)
    requires Chain(host, w)
    ensures Chain(host, AfterDispatch(host.site, w, id, plan, capability, hasAdapter))
  {
    if id in w.proposals && w.proposals[id].planId in w.sys.st.entries {
      var p, b := w.proposals[id], w.sys.st.entries[w.proposals[id].planId];
      var d := Decide(p, b, plan, capability, hasAdapter);
      var v := AfterDispatch(host.site, w, id, plan, capability, hasAdapter);
      if Cleared(d) {
        ClearedExactly(p, b, plan, capability, hasAdapter);
        SentCarries(p, b, plan, capability, hasAdapter, host.site);
      }
      assert Linked(host, w, id);
      DecisionKeepsLinks(host, w, v, id, d);
      assert Grown(w, v);
      forall i | 0 <= i < |v.dispatches| ensures DispatchSound(host, v, v.dispatches[i]) {
        if i < |w.dispatches| {
          SoundStaysSound(host, w, v, w.dispatches[i]);
        } else {
          assert v.dispatches[i] == EventOf(host.site, p, b, d);
        }
      }
    }
  }

  lemma DecisionKeepsLinks(host: Host, w: World, v: World, id: Text, d: Decision)
    requires Chain(host, w)
    requires v.proposals == AfterDecision(w.proposals, id, d) && v.origin == w.origin && v.confirmed == w.confirmed
    ensures forall x :: x in v.proposals ==> Linked(host, v, x)
  {
    match d
    case Report(_) =>
      forall x | x in v.proposals ensures Linked(host, v, x) {
        assert Linked(host, w, x);
      }
    case PauseFor(_) => ControlledLinked(host, w, v, id, Pause);
    case CancelPlan => ControlledLinked(host, w, v, id, Cancel);
    case EnqueueTask => ControlledLinked(host, w, v, id, MarkDispatching);
    case LaunchCommand => ControlledLinked(host, w, v, id, MarkDispatching);
  }

  lemma StepKeepsChain(host: Host, w: World, op: WorldOp)
    requires Chain(host, w)
    ensures Chain(host, WorldStep(host, w, op))
  {
    match op
    case BindingCall(call) =>
      SystemStepValid(host.env, w.sys, call);
      var v := WorldStep(host, w, op);
      forall x | x in v.proposals ensures Linked(host, v, x) {
        assert Linked(host, w, x);
      }
      KeepDispatches(host, w, v);
    case DraftCall(id, r) => DraftKeeps(host, w, id, r);
    case ConfirmCall(id, c, now) => ConfirmKeeps(host, w, id, c, now);
    case ControlCall(id, c) => ControlKeeps(host, w, id, c);
    case EditCall(id, newId, preview, stdin, a) => EditKeeps(host, w, id, newId, preview, stdin, a);
    case DispatchCall(id, plan, capability, hasAdapter) => DispatchKeeps(host, w, id, plan, capability, hasAdapter);
  }

  lemma {:induction false} EveryRunKeepsChain(host: Host, w: World, ops: seq<WorldOp>)
    requires Chain(host, w)
    ensures Chain(host, WorldRun(host, w, ops))
    decreases |ops|
  {
    if ops != [] {
      StepKeepsChain(host, w, ops[0]);
      EveryRunKeepsChain(host, WorldStep(host, w, ops[0]), ops[1..]);
    }
  }

  lemma EveryDispatchSound(host: Host, ops: seq<WorldOp>, i: nat)
    requires i < |WorldRun(host, WORLD_START, ops).dispatches|
    ensures DispatchSound(host, WorldRun(host, WORLD_START, ops), WorldRun(host, WORLD_START, ops).dispatches[i])
  {
    EveryRunKeepsChain(host, WORLD_START, ops);
  }

  /** No authority drift: in every run, whenever a proposal is dispatched, all twelve authority fields of the
      binding then in force are those of the binding the proposal was drafted from, or their two hashed texts
      are a hash collision. The dispatcher itself compares only two hashes and three ids. */
  lemma NoAuthorityDrift(hash: Text -> Text, lower: Text -> Text, projectExists: Text -> bool, isDate: Text -> bool, site: Site,
                         ops: seq<WorldOp>, i: nat)
    requires i < |WorldRun(ServerHost(hash, lower, projectExists, isDate, site), WORLD_START, ops).dispatches|
    ensures var w := WorldRun(ServerHost(hash, lower, projectExists, isDate, site), WORLD_START, ops);
            var d := w.dispatches[i];
            && d.proposal.id in w.origin
            && (|| w.origin[d.proposal.id] == AuthorityOf(d.binding)
                || Collision(hash, AuthorityText(w.origin[d.proposal.id]), AuthorityText(AuthorityOf(d.binding))))
  {
    var host := ServerHost(hash, lower, projectExists, isDate, site);
    EveryDispatchSound(host, ops, i);
    var w := WorldRun(host, WORLD_START, ops);
    var d := w.dispatches[i];
    SameHashSameAuthority(hash, w.origin[d.proposal.id], AuthorityOf(d.binding));
  }

  /** Nothing runs unconfirmed: in every run, a dispatched proposal was confirmed, no later than it expired, with the same plan,
      step, artifact, binding hash, endpoint, permission profile and project; and with a content hash that only the content
      shown to the human has, or a hash collision is at hand. */
  lemma DispatchedAsConfirmed(hash: Text -> Text, lower: Text -> Text, projectExists: Text -> bool, isDate: Text -> bool,
                              site: Site, ops: seq<WorldOp>, i: nat, shown: Content)
    requires i < |WorldRun(ServerHost(hash, lower, projectExists, isDate, site), WORLD_START, ops).dispatches|
    ensures var w := WorldRun(ServerHost(hash, lower, projectExists, isDate, site), WORLD_START, ops);
            var p := w.dispatches[i].proposal;
            && (p.id, ConfirmationOf(p)) in w.confirmed
            && p.confirmedAt.Some? && p.confirmedAt.value <= p.expiresAt
            && (Sha256(hash, ContentText(shown)) == p.contentHash ==>
                  shown == p.content || Collision(hash, ContentText(shown), ContentText(p.content)))
  {
    var host := ServerHost(hash, lower, projectExists, isDate, site);
    EveryDispatchSound(host, ops, i);
    var p := WorldRun(host, WORLD_START, ops).dispatches[i].proposal;
    if Sha256(hash, ContentText(shown)) == p.contentHash {
      ContentHashPins(hash, shown, p.content);
    }
  }

  /** The executor is given the content shown, for the ids of the proposal. */
  predicate RunsAs(sent: Sent, p: Proposal, shown: Content, site: Site) {
    match sent
    case SentTask(t) =>
      && t.prompt == shown.stdin && t.proposalId == p.id && t.endpointId == p.executionEndpointId
      && t.planId == p.planId && t.goalId == p.goalId && t.bindingHash == p.bindingHash
      && t.workingDirectory == site.workingDirectory && t.timeoutMs == site.timeoutMs
    case SentCommand(e) =>
      && e.command == shown.command && e.args == shown.args && e.stdin == shown.stdin
      && (|| (e.command == Ascii("codex") && e.args == CODEX_REVIEW_ARGS)
          || (e.command == Ascii("claude") && e.args == CLAUDE_REVIEW_ARGS))
  }

  lemma SoundRuns(host: Host, w: World, d: DispatchEvent)
    requires DispatchSound(host, w, d)
    ensures RunsAs(d.sent, d.proposal, d.proposal.content, host.site)
  {
  }

  /** What is executed is what was shown: in every run, the prompt put in the inbox, or the command, arguments and input run,
      are those of the content confirmed under the content hash, or a hash collision is at hand; a task goes to the endpoint,
      plan and goal confirmed, and a command is one of the two review invocations. */
  lemma SentAsShown(hash: Text -> Text, lower: Text -> Text, projectExists: Text -> bool, isDate: Text -> bool, site: Site,
                    ops: seq<WorldOp>, i: nat, shown: Content)
    requires i < |WorldRun(ServerHost(hash, lower, projectExists, isDate, site), WORLD_START, ops).dispatches|
    requires Sha256(hash, ContentText(shown)) ==
               WorldRun(ServerHost(hash, lower, projectExists, isDate, site), WORLD_START, ops).dispatches[i].proposal.contentHash
    ensures var w := WorldRun(ServerHost(hash, lower, projectExists, isDate, site), WORLD_START, ops);
            var p, sent := w.dispatches[i].proposal, w.dispatches[i].sent;
            RunsAs(sent, p, shown, site) || Collision(hash, ContentText(shown), ContentText(p.content))
  {
    var host := ServerHost(hash, lower, projectExists, isDate, site);
    EveryDispatchSound(host, ops, i);
    var d := WorldRun(host, WORLD_START, ops).dispatches[i];
    ContentHashPins(hash, shown, d.proposal.content);
    SoundRuns(host, WorldRun(host, WORLD_START, ops), d);
  }
}
