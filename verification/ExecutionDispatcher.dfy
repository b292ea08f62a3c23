/** The dispatcher: when a confirmed proposal may run, and that no authority drifts between the binding a
    proposal was drafted from, what the human confirmed, and the binding in force at dispatch. */
module ExecutionDispatcher {
  import opened Wrappers
  import opened Texts
  import opened Bindings
  import opened CommandRunner
  import opened Plans
  import opened ExecutionProposals
  import WorkBuddyInbox

  const CLAUDE_REVIEW_ARGS: seq<Text> := [
    Ascii("-p"), Ascii("--output-format"), Ascii("json"), Ascii("--tools"), Ascii(""), Ascii("--disallowed-tools"),
    Ascii("Bash,Edit,Write,Read,WebFetch,WebSearch"), Ascii("--permission-mode"), Ascii("plan"),
    Ascii("--no-session-persistence")]

  const CODEX_REVIEW_ARGS: seq<Text> := [
    Ascii("exec"), Ascii("-s"), Ascii("read-only"), Ascii("--json"), Ascii("--ephemeral"), Ascii("-")]

  datatype Capability = Capability(endpointId: Text, kind: Text, canExecute: bool)

  function ExpectedInvocation(kind: Text): Option<(Text, seq<Text>)> {
    if kind == Ascii("codex") then Some((Ascii("codex"), CODEX_REVIEW_ARGS))
    else if kind == Ascii("claude") then Some((Ascii("claude"), CLAUDE_REVIEW_ARGS))
    else None
  }

  function InvocationFailure(capability: Option<Capability>, command: Text, args: seq<Text>): Option<string> {
    if capability.None? || !capability.value.canExecute then Some("execution-endpoint-cannot-execute")
    else
      var expected := ExpectedInvocation(capability.value.kind);
      if expected.None? || command != expected.value.0 then Some("proposal-command-mismatch")
      else if args != expected.value.1 then Some("proposal-argv-mismatch")
      else None
  }

  datatype Decision =
    | Report(reason: string)
    | PauseFor(reason: string)
    | CancelPlan
    | EnqueueTask
    | LaunchCommand

  /** What dispatching a stored proposal comes to. */
  function Decide(p: Proposal, b: Binding, plan: PlanView, capability: Option<Capability>, hasAdapter: bool): Decision {
    if p.status != Confirmed then Report("proposal-not-confirmed")
    else if plan.status == PlanPaused then PauseFor("plan-paused")
    else if plan.status == PlanCancelled then CancelPlan
    else if p.planId != b.planId || p.goalId != b.goalId || p.bindingHash != b.bindingHash then PauseFor("proposal-binding-mismatch")
    else if p.executionEndpointId != b.executionEndpointId then PauseFor("proposal-endpoint-mismatch")
    else if capability.None? || !capability.value.canExecute then Report("execution-endpoint-cannot-execute")
    else if capability.value.endpointId != b.executionEndpointId then PauseFor("provider-endpoint-mismatch")
    else DecideStep(p, FindStep(plan.steps, p.stepId), capability.value, hasAdapter)
  }

  /** The last checks: the step, and the invocation that the endpoint's kind calls for. */
  function DecideStep(p: Proposal, step: Option<StepView>, capability: Capability, hasAdapter: bool): Decision {
    if step.None? || step.value.targetEndpointId != p.executionEndpointId then PauseFor("proposal-step-mismatch")
    else if capability.kind == Ascii("workbuddy") then
      if hasAdapter then EnqueueTask else PauseFor("workbuddy-adapter-not-configured")
    else
      var failure := InvocationFailure(Some(capability), p.content.command, p.content.args);
      if failure.Some? then PauseFor(failure.value) else LaunchCommand
  }

  predicate Cleared(d: Decision) {
    d == EnqueueTask || d == LaunchCommand
  }

  function AfterDecision(m: Proposals, id: Text, d: Decision): Proposals {
    match d
    case Report(_) => m
    case PauseFor(_) => Controlled(m, id, Pause)
    case CancelPlan => Controlled(m, id, Cancel)
    case EnqueueTask => Controlled(m, id, MarkDispatching)
    case LaunchCommand => Controlled(m, id, MarkDispatching)
  }

  /** Where the server runs, and the time it allows, if it sets one. */
  datatype Site = Site(workingDirectory: Text, timeoutMs: Option<int>)

  function TaskFor(p: Proposal, b: Binding, site: Site): WorkBuddyInbox.TaskInput {
    WorkBuddyInbox.TaskInput(
      b.executionEndpointId, p.id, b.planId, b.goalId, b.bindingHash, p.content.stdin, site.workingDirectory, site.timeoutMs)
  }

  function InvocationOf(p: Proposal): Execution {
    Execution(p.content.command, p.content.args, p.content.stdin)
  }

  /** What leaves the dispatcher: a task for an inbox, or a command to run. */
  datatype Sent =
    | SentTask(task: WorkBuddyInbox.TaskInput)
    | SentCommand(execution: Execution)

  function SentBy(d: Decision, p: Proposal, b: Binding, site: Site): Sent {
    if d == EnqueueTask then SentTask(TaskFor(p, b, site)) else SentCommand(InvocationOf(p))
  }

  /** The task is the proposal's, for the endpoint and under the ids and the hash of the binding. */
  predicate TaskCarries(t: WorkBuddyInbox.TaskInput, p: Proposal, b: Binding, site: Site) {
    && t.proposalId == p.id && t.prompt == p.content.stdin
    && t.endpointId == b.executionEndpointId && t.planId == b.planId && t.goalId == b.goalId && t.bindingHash == b.bindingHash
    && t.workingDirectory == site.workingDirectory && t.timeoutMs == site.timeoutMs
  }

  /** The command is the proposal's, and one of the two review invocations. */
  predicate CommandCarries(e: Execution, p: Proposal) {
    && e.command == p.content.command && e.args == p.content.args && e.stdin == p.content.stdin
    && (|| (e.command == Ascii("codex") && e.args == CODEX_REVIEW_ARGS)
        || (e.command == Ascii("claude") && e.args == CLAUDE_REVIEW_ARGS))
  }

  predicate Carries(sent: Sent, p: Proposal, b: Binding, site: Site) {
    match sent
    case SentTask(t) => TaskCarries(t, p, b, site)
    case SentCommand(e) => CommandCarries(e, p)
  }

  /** Whatever a cleared proposal sends is its own content. */
  lemma SentCarries(p: Proposal, b: Binding, plan: PlanView, capability: Option<Capability>, hasAdapter: bool, site: Site)
    requires Cleared(Decide(p, b, plan, capability, hasAdapter))
    ensures Carries(SentBy(Decide(p, b, plan, capability, hasAdapter), p, b, site), p, b, site)
  {
    if Decide(p, b, plan, capability, hasAdapter) == LaunchCommand {
      LaunchCarries(p, FindStep(plan.steps, p.stepId), capability.value, hasAdapter);
    }
  }

  lemma LaunchCarries(p: Proposal, step: Option<StepView>, capability: Capability, hasAdapter: bool)
    requires DecideStep(p, step, capability, hasAdapter) == LaunchCommand
    ensures CommandCarries(InvocationOf(p), p)
  {
    assert InvocationFailure(Some(capability), p.content.command, p.content.args).None?;
    assert ExpectedInvocation(capability.kind) == Some((p.content.command, p.content.args));
  }

  method PauseProposal(store: InMemoryExecutionProposalStore, proposalId: Text, reason: string) returns (decision: Decision)
    modifies store
    ensures decision == PauseFor(reason) && store.proposals == Controlled(old(store.proposals), proposalId, Pause)
  {
    var _ := store.Apply(proposalId, Pause);
    return PauseFor(reason);
  }

  method EnqueueProposal(store: InMemoryExecutionProposalStore, proposalId: Text, adapter: WorkBuddyInbox.WorkBuddyExecutionAdapter,
                         taskId: Text, task: WorkBuddyInbox.TaskInput, now: int)
    requires adapter.Valid() && taskId !in adapter.tasks.entries
    modifies store, adapter
    ensures store.proposals == Controlled(old(store.proposals), proposalId, MarkDispatching)
    ensures adapter.Valid() && adapter.State() == WorkBuddyInbox.Enqueued(old(adapter.State()), taskId, task, now)
  {
    var _ := store.Apply(proposalId, MarkDispatching);
    var _ := adapter.Enqueue(taskId, task, now);
  }

  /** The dispatcher up to the point where it waits for a command to finish. A cleared proposal is marked
      dispatching; a WorkBuddy proposal is put in that endpoint's inbox; every refusal leaves the proposal as it
      was, paused or cancelled, and nothing else is touched. */
  method DispatchExecutionProposal(store: InMemoryExecutionProposalStore, proposalId: Text, binding: Binding, plan: PlanView,
                                   capability: Option<Capability>, adapter: WorkBuddyInbox.WorkBuddyExecutionAdapter?,
                                   taskId: Text, site: Site, now: int)
    returns (decision: Decision, launch: Option<Execution>)
    requires adapter != null ==> adapter.Valid() && taskId !in adapter.tasks.entries
    modifies store, adapter
    ensures proposalId !in old(store.proposals) ==> decision == Report("proposal-not-found") && store.proposals == old(store.proposals)
    ensures proposalId in old(store.proposals) ==>
              && decision == Decide(old(store.proposals[proposalId]), binding, plan, capability, adapter != null)
              && store.proposals == AfterDecision(old(store.proposals), proposalId, decision)
    ensures adapter != null && decision == EnqueueTask && proposalId in old(store.proposals) ==>
              && adapter.Valid()
              && adapter.State() == WorkBuddyInbox.Enqueued(old(adapter.State()), taskId,
                                      TaskFor(old(store.proposals[proposalId]), binding, site), now)
    ensures adapter != null && decision != EnqueueTask ==> adapter.State() == old(adapter.State())
    // what is in the inbox then, and what is run
    ensures decision == EnqueueTask ==>
              && adapter != null && proposalId in old(store.proposals) && taskId in adapter.tasks.entries
              && adapter.tasks.entries[taskId].status == WorkBuddyInbox.Pending
              && TaskCarries(adapter.tasks.entries[taskId].input, old(store.proposals[proposalId]), binding, site)
    ensures launch.Some? <==> decision == LaunchCommand
    ensures launch.Some? ==> proposalId in old(store.proposals) && CommandCarries(launch.value, old(store.proposals[proposalId]))
  {
    launch := None;
    var found := store.Get(proposalId);
    if found.None? {
      return Report("proposal-not-found"), None;
    }
    var proposal := found.value;
    if proposal.status != Confirmed {
      return Report("proposal-not-confirmed"), None;
    }
    if plan.status == PlanPaused {
      decision := PauseProposal(store, proposalId, "plan-paused");
      return;
    }
    if plan.status == PlanCancelled {
      var _ := store.Apply(proposalId, Cancel);
      return CancelPlan, None;
    }
    if proposal.planId != binding.planId || proposal.goalId != binding.goalId || proposal.bindingHash != binding.bindingHash {
      decision := PauseProposal(store, proposalId, "proposal-binding-mismatch");
      return;
    }
    if proposal.executionEndpointId != binding.executionEndpointId {
      decision := PauseProposal(store, proposalId, "proposal-endpoint-mismatch");
      return;
    }
    if capability.None? || !capability.value.canExecute {
      return Report("execution-endpoint-cannot-execute"), None;
    }
    if capability.value.endpointId != binding.executionEndpointId {
      decision := PauseProposal(store, proposalId, "provider-endpoint-mismatch");
      return;
    }
    decision := DispatchStep(store, proposalId, proposal, FindStep(plan.steps, proposal.stepId), capability.value, adapter, taskId,
                             TaskFor(proposal, binding, site), now);
    if decision == LaunchCommand {
      LaunchCarries(proposal, FindStep(plan.steps, proposal.stepId), capability.value, adapter != null);
      launch := Some(InvocationOf(proposal));
    }
  }

  /** Its last checks, and the dispatch itself. */
  method DispatchStep(store: InMemoryExecutionProposalStore, proposalId: Text, proposal: Proposal, step: Option<StepView>,
                      capability: Capability, adapter: WorkBuddyInbox.WorkBuddyExecutionAdapter?, taskId: Text,
                      task: WorkBuddyInbox.TaskInput, now: int)
    returns (decision: Decision)
    requires adapter != null ==> adapter.Valid() && taskId !in adapter.tasks.entries
    modifies store, adapter
    ensures decision == DecideStep(proposal, step, capability, adapter != null)
    ensures store.proposals == AfterDecision(old(store.proposals), proposalId, decision)
    ensures adapter != null && decision == EnqueueTask ==>
              adapter.Valid() && adapter.State() == WorkBuddyInbox.Enqueued(old(adapter.State()), taskId, task, now)
    ensures adapter != null && decision != EnqueueTask ==> adapter.State() == old(adapter.State())
  {
    if step.None? || step.value.targetEndpointId != proposal.executionEndpointId {
      decision := PauseProposal(store, proposalId, "proposal-step-mismatch");
      return;
    }
    if capability.kind == Ascii("workbuddy") {
      if adapter == null {
        decision := PauseProposal(store, proposalId, "workbuddy-adapter-not-configured");
        return;
      }
      EnqueueProposal(store, proposalId, adapter, taskId, task, now);
      return EnqueueTask;
    }
    var failure := InvocationFailure(Some(capability), proposal.content.command, proposal.content.args);
    if failure.Some? {
      decision := PauseProposal(store, proposalId, failure.value);
      return;
    }
    var _ := store.Apply(proposalId, MarkDispatching);
    return LaunchCommand;
  }

  /** The dispatcher after the command has finished: a failed run pauses the proposal, which throws when the
      proposal is no longer in a state that can be paused. */
  method CompleteCommand(store: InMemoryExecutionProposalStore, proposalId: Text, result: RunResult) returns (threw: bool)
    modifies store
    ensures store.proposals == Controlled(old(store.proposals), proposalId, if result.ok then MarkReturned else Pause)
    ensures threw <==> proposalId !in old(store.proposals)
                       || (!result.ok && old(store.proposals[proposalId]).status !in {Drafted, AwaitingConfirmation, Confirmed, Dispatching})
  {
    if !result.ok {
      var paused := store.Apply(proposalId, Pause);
      return paused.Threw?;
    }
    var returned := store.Apply(proposalId, MarkReturned);
    return returned.Threw?;
  }

  /** Everything that must agree before a proposal is dispatched, and nothing more. */
  lemma ClearedExactly(p: Proposal, b: Binding, plan: PlanView, capability: Option<Capability>, hasAdapter: bool)
    ensures Cleared(Decide(p, b, plan, capability, hasAdapter)) <==>
              && p.status == Confirmed
              && plan.status != PlanPaused && plan.status != PlanCancelled
              && p.planId == b.planId && p.goalId == b.goalId && p.bindingHash == b.bindingHash
              && p.executionEndpointId == b.executionEndpointId
              && capability.Some? && capability.value.canExecute && capability.value.endpointId == b.executionEndpointId
              && FindStep(plan.steps, p.stepId).Some? && FindStep(plan.steps, p.stepId).value.targetEndpointId == b.executionEndpointId
              && (if capability.value.kind == Ascii("workbuddy") then hasAdapter
                  else ExpectedInvocation(capability.value.kind) == Some((p.content.command, p.content.args)))
  {
    if capability.Some? && capability.value.canExecute {
      StepClearedExactly(p, FindStep(plan.steps, p.stepId), capability.value, hasAdapter);
    }
  }

  lemma StepClearedExactly(p: Proposal, step: Option<StepView>, capability: Capability, hasAdapter: bool)
    requires capability.canExecute
    ensures Cleared(DecideStep(p, step, capability, hasAdapter)) <==>
              && step.Some? && step.value.targetEndpointId == p.executionEndpointId
              && (if capability.kind == Ascii("workbuddy") then hasAdapter
                  else ExpectedInvocation(capability.kind) == Some((p.content.command, p.content.args)))
  {
  }

  /** Which refusals leave the proposal as it was, which pause it and which cancel it; and who is sent what is cleared. */
  lemma RefusedExactly(p: Proposal, b: Binding, plan: PlanView, capability: Option<Capability>, hasAdapter: bool)
    ensures var d := Decide(p, b, plan, capability, hasAdapter);
            var agrees := p.planId == b.planId && p.goalId == b.goalId && p.bindingHash == b.bindingHash
                          && p.executionEndpointId == b.executionEndpointId;
            && (d.Report? <==>
                  || p.status != Confirmed
                  || (plan.status != PlanPaused && plan.status != PlanCancelled && agrees
                      && (capability.None? || !capability.value.canExecute)))
            && (d == CancelPlan <==> p.status == Confirmed && plan.status == PlanCancelled)
            && (Cleared(d) ==> (d == EnqueueTask <==> capability.Some? && capability.value.kind == Ascii("workbuddy")))
  {
  }
}
