/** Whether one confirmation covers one dispatch: it does as long as no dispatching proposal is paused, and not otherwise. */
module SingleUse {
  import opened Wrappers
  import opened Texts
  import opened OrderedMaps
  import opened Json
  import opened Bindings
  import opened EndpointRegistry
  import opened AutomationBindings
  import opened ReasoningArtifacts
  import opened Plans
  import opened CommandRunner
  import opened ExecutionProposals
  import opened ExecutionDispatcher
  import opened AuthorityChain

  // ---- At most once, unless paused while dispatching ----

  /** How often the proposal was dispatched. */
  function CountFor(dispatches: seq<DispatchEvent>, id: Text): nat {
    if dispatches == [] then 0
    else
      var n := |dispatches| - 1;
      CountFor(dispatches[..n], id) + if dispatches[n].proposal.id == id then 1 else 0
  }

  lemma CountNext(dispatches: seq<DispatchEvent>, d: DispatchEvent, id: Text)
    ensures CountFor(dispatches + [d], id) == CountFor(dispatches, id) + if d.proposal.id == id then 1 else 0
  {
    assert (dispatches + [d])[..|dispatches|] == dispatches;
  }

  /** The dispatcher pauses a proposal whose command failed, and the operator may pause any dispatching one. */
  predicate PausesDispatching(w: World, op: WorldOp, id: Text) {
    op == ControlCall(id, Pause) && id in w.proposals && w.proposals[id].status == Dispatching
  }

  ghost predicate NeverPausedDispatching(host: Host, w: World, ops: seq<WorldOp>, id: Text)
    decreases |ops|
  {
    ops != [] ==> !PausesDispatching(w, ops[0], id) && NeverPausedDispatching(host, WorldStep(host, w, ops[0]), ops[1..], id)
  }

  // No way back to `confirmed` but through a pause.
  predicate Used(p: Proposal) {
    p.status in {Dispatching, ProposalStatus.Returned, ProposalStatus.Failed, ProposalStatus.Cancelled}
  }

  ghost predicate UsedOnce(w: World, id: Text) {
    var n := CountFor(w.dispatches, id);
    n <= 1 && (n == 1 ==> id in w.proposals && Used(w.proposals[id]))
  }

  lemma UnconfirmedStays(m: Proposals, id: Text, b: Binding, plan: PlanView, capability: Option<Capability>, hasAdapter: bool)
    requires id in m && m[id].status != Confirmed
    ensures var d := Decide(m[id], b, plan, capability, hasAdapter); !Cleared(d) && AfterDecision(m, id, d) == m
  {
  }

  lemma ClearedMarks(m: Proposals, id: Text, b: Binding, plan: PlanView, capability: Option<Capability>, hasAdapter: bool)
    requires id in m && Cleared(Decide(m[id], b, plan, capability, hasAdapter))
    ensures m[id].status == Confirmed
    ensures AfterDecision(m, id, Decide(m[id], b, plan, capability, hasAdapter)) == m[id := m[id].(status := Dispatching)]
  {
    UnconfirmedNotCleared(m[id], b, plan, capability, hasAdapter);
  }

  lemma UnconfirmedNotCleared(p: Proposal, b: Binding, plan: PlanView, capability: Option<Capability>, hasAdapter: bool)
    ensures Cleared(Decide(p, b, plan, capability, hasAdapter)) ==> p.status == Confirmed
  {
  }

  // A decision about one proposal leaves the others as they are.
  lemma OthersStay(m: Proposals, x: Text, d: Decision, id: Text)
    requires id != x
    ensures id in AfterDecision(m, x, d) <==> id in m
    ensures id in m ==> AfterDecision(m, x, d)[id] == m[id]
  {
  }

  /** What a dispatch call does, without the reasons for its decision. */
  lemma DispatchDecides(host: Host, w: World, x: Text, plan: PlanView, capability: Option<Capability>, hasAdapter: bool)
    returns (d: Decision, e: DispatchEvent)
    requires x in w.proposals && w.proposals[x].planId in w.sys.st.entries
    ensures AfterDispatch(host.site, w, x, plan, capability, hasAdapter)
            == w.(proposals := AfterDecision(w.proposals, x, d), dispatches := if Cleared(d) then w.dispatches + [e] else w.dispatches)
    ensures e.proposal == w.proposals[x]
    ensures w.proposals[x].status != Confirmed ==> !Cleared(d) && AfterDecision(w.proposals, x, d) == w.proposals
  {
    var p, b := w.proposals[x], w.sys.st.entries[w.proposals[x].planId];
    d := Decide(p, b, plan, capability, hasAdapter);
    e := EventOf(host.site, p, b, d);
    if p.status != Confirmed {
      UnconfirmedStays(w.proposals, x, b, plan, capability, hasAdapter);
    }
  }

  lemma DispatchUsesOnce(host: Host, w: World, x: Text, plan: PlanView, capability: Option<Capability>, hasAdapter: bool, id: Text)
    requires Chain(host, w) && UsedOnce(w, id)
    ensures UsedOnce(AfterDispatch(host.site, w, x, plan, capability, hasAdapter), id)
  {
    if x in w.proposals && w.proposals[x].planId in w.sys.st.entries {
      var d, e := DispatchDecides(host, w, x, plan, capability, hasAdapter);
      assert Linked(host, w, x);
      if x != id {
        OtherUsesOnce(w, x, d, e, id);
      } else if w.proposals[x].status == Confirmed {
        ConfirmedUsesOnce(w, d, e, id);
      }
    }
  }

  // What is decided about one proposal leaves another used as often as it was.
  lemma OtherUsesOnce(w: World, x: Text, d: Decision, e: DispatchEvent, id: Text)
    requires UsedOnce(w, id) && x != id && e.proposal.id == x
    ensures UsedOnce(w.(proposals := AfterDecision(w.proposals, x, d),
                        dispatches := if Cleared(d) then w.dispatches + [e] else w.dispatches), id)
  {
    CountNext(w.dispatches, e, id);
    OthersStay(w.proposals, x, d, id);
  }

  // A confirmed proposal has not been used, and a dispatch marks it.
  lemma ConfirmedUsesOnce(w: World, d: Decision, e: DispatchEvent, id: Text)
    requires UsedOnce(w, id) && id in w.proposals && w.proposals[id].status == Confirmed && e.proposal.id == id
    ensures UsedOnce(w.(proposals := AfterDecision(w.proposals, id, d),
                        dispatches := if Cleared(d) then w.dispatches + [e] else w.dispatches), id)
  {
    CountNext(w.dispatches, e, id);
    assert CountFor(w.dispatches, id) == 0;
  }

  lemma ControlUsesOnce(w: World, x: Text, c: Control, id: Text)
    requires UsedOnce(w, id) && !PausesDispatching(w, ControlCall(x, c), id) && c != MarkDispatching
    ensures UsedOnce(w.(proposals := Controlled(w.proposals, x, c)), id)
  {
  }

  lemma ConfirmUsesOnce(w: World, x: Text, c: Confirmation, now: int, id: Text)
    requires UsedOnce(w, id)
    ensures UsedOnce(AfterConfirmCall(w, x, c, now), id)
  {
    if x in w.proposals && x == id && Used(w.proposals[id]) {
      assert AfterConfirm(w.proposals[id], c, now) == w.proposals[id];
    }
  }

  lemma DraftUsesOnce(host: Host, w: World, x: Text, r: Request, id: Text)
    requires UsedOnce(w, id) && (id in w.proposals ==> id in w.origin)
    ensures UsedOnce(AfterDraft(host, w, x, r), id)
  {
  }

  lemma EditUsesOnce(host: Host, w: World, x: Text, newId: Text, preview: Text, stdin: Text, a: Artifact, id: Text)
    requires UsedOnce(w, id) && (id in w.proposals ==> id in w.origin)
    ensures UsedOnce(AfterEdit(host, w, x, newId, preview, stdin, a), id)
  {
  }

  lemma StepUsesOnce(host: Host, w: World, op: WorldOp, id: Text)
    requires Chain(host, w) && UsedOnce(w, id) && !PausesDispatching(w, op, id)
    ensures UsedOnce(WorldStep(host, w, op), id)
  {
    assert id in w.proposals ==> Linked(host, w, id);
    match op
    case BindingCall(call) =>
    case DraftCall(x, r) => DraftUsesOnce(host, w, x, r, id);
    case ConfirmCall(x, c, now) => ConfirmUsesOnce(w, x, c, now, id);
    case ControlCall(x, c) => if c != MarkDispatching { ControlUsesOnce(w, x, c, id); }
    case EditCall(x, newId, preview, stdin, a) => EditUsesOnce(host, w, x, newId, preview, stdin, a, id);
    case DispatchCall(x, plan, capability, hasAdapter) => DispatchUsesOnce(host, w, x, plan, capability, hasAdapter, id);
  }

  lemma {:induction false} RunUsesOnce(host: Host, w: World, ops: seq<WorldOp>, id: Text)
    requires Chain(host, w) && UsedOnce(w, id) && NeverPausedDispatching(host, w, ops, id)
    ensures UsedOnce(WorldRun(host, w, ops), id)
    decreases |ops|
  {
    if ops != [] {
      StepKeepsChain(host, w, ops[0]);
      StepUsesOnce(host, w, ops[0], id);
      RunUsesOnce(host, WorldStep(host, w, ops[0]), ops[1..], id);
    }
  }

  /** In every run from the start in which the proposal is never paused while it is dispatching, it is dispatched at most
      once. */
  lemma DispatchedAtMostOnce(host: Host, ops: seq<WorldOp>, id: Text)
    requires NeverPausedDispatching(host, WORLD_START, ops, id)
    ensures CountFor(WorldRun(host, WORLD_START, ops).dispatches, id) <= 1
  {
    RunUsesOnce(host, WORLD_START, ops, id);
  }

  // ---- Paused while dispatching: dispatched again ----

  lemma RunCons(host: Host, w: World, op: WorldOp, ops: seq<WorldOp>)
    ensures WorldRun(host, w, [op] + ops) == WorldRun(host, WorldStep(host, w, op), ops)
  {
    assert ([op] + ops)[1..] == ops;
  }

  lemma {:induction false} RunAppend(host: Host, w: World, a: seq<WorldOp>, b: seq<WorldOp>)
    ensures WorldRun(host, w, a + b) == WorldRun(host, WorldRun(host, w, a), b)
    decreases |a|
  {
    if a == [] {
      assert a + b == b;
    } else {
      assert a + b == [a[0]] + (a[1..] + b);
      RunCons(host, w, a[0], a[1..] + b);
      RunAppend(host, WorldStep(host, w, a[0]), a[1..], b);
    }
  }

  /** Pausing and resuming undoes the mark of a dispatch: the proposal is as confirmed as it was before. */
  lemma PauseForgetsDispatch(m: Proposals, id: Text)
    requires id in m && m[id].status == Confirmed && m[id].confirmedAt.Some?
    ensures Controlled(Controlled(m[id := m[id].(status := Dispatching)], id, Pause), id, Resume) == m
  {
    var p := m[id];
    var dispatching := m[id := p.(status := Dispatching)];
    assert Controlled(dispatching, id, Pause) == m[id := p.(status := Paused)];
    assert Controlled(m[id := p.(status := Paused)], id, Resume) == m[id := p];
    assert m[id := p] == m;
  }

  /** The call, and the pause and the resumption after it. */
  function PausedAfter(call: WorldOp, id: Text): seq<WorldOp> {
    [call, ControlCall(id, Pause), ControlCall(id, Resume)]
  }

  /** What a dispatch puts on record. */
  function EventFor(host: Host, w: World, id: Text, plan: PlanView, capability: Option<Capability>, hasAdapter: bool): DispatchEvent
    requires id in w.proposals && w.proposals[id].planId in w.sys.st.entries
  {
    var p, b := w.proposals[id], w.sys.st.entries[w.proposals[id].planId];
    EventOf(host.site, p, b, Decide(p, b, plan, capability, hasAdapter))
  }

  lemma DispatchStepEffect(host: Host, w: World, id: Text, plan: PlanView, capability: Option<Capability>, hasAdapter: bool)
    requires id in w.proposals && w.proposals[id].planId in w.sys.st.entries
    requires Cleared(Decide(w.proposals[id], w.sys.st.entries[w.proposals[id].planId], plan, capability, hasAdapter))
    ensures WorldStep(host, w, DispatchCall(id, plan, capability, hasAdapter)) ==
              w.(proposals := w.proposals[id := w.proposals[id].(status := Dispatching)],
                 dispatches := w.dispatches + [EventFor(host, w, id, plan, capability, hasAdapter)])
  {
    ClearedMarks(w.proposals, id, w.sys.st.entries[w.proposals[id].planId], plan, capability, hasAdapter);
  }

  lemma PauseAndResume(host: Host, w: World, id: Text, dispatches: seq<DispatchEvent>)
    requires id in w.proposals && w.proposals[id].status == Confirmed && w.proposals[id].confirmedAt.Some?
    ensures var v := w.(proposals := w.proposals[id := w.proposals[id].(status := Dispatching)], dispatches := dispatches);
            WorldStep(host, WorldStep(host, v, ControlCall(id, Pause)), ControlCall(id, Resume)) == w.(dispatches := dispatches)
  {
    PauseForgetsDispatch(w.proposals, id);
  }

  /** Dispatched, paused and resumed: nothing but the record of the dispatch is left. */
  lemma PausedAndResumed(host: Host, w: World, id: Text, plan: PlanView, capability: Option<Capability>, hasAdapter: bool)
    requires Chain(host, w) && id in w.proposals && w.proposals[id].planId in w.sys.st.entries
    requires Cleared(Decide(w.proposals[id], w.sys.st.entries[w.proposals[id].planId], plan, capability, hasAdapter))
    ensures WorldRun(host, w, PausedAfter(DispatchCall(id, plan, capability, hasAdapter), id)) ==
              w.(dispatches := w.dispatches + [EventFor(host, w, id, plan, capability, hasAdapter)])
  {
    assert Linked(host, w, id);
    UnconfirmedNotCleared(w.proposals[id], w.sys.st.entries[w.proposals[id].planId], plan, capability, hasAdapter);
    DispatchStepEffect(host, w, id, plan, capability, hasAdapter);
    PauseAndResume(host, w, id, w.dispatches + [EventFor(host, w, id, plan, capability, hasAdapter)]);
    ThreeSteps(host, w, DispatchCall(id, plan, capability, hasAdapter), ControlCall(id, Pause), ControlCall(id, Resume));
  }

  /** Every dispatch can be repeated under the same confirmation: once it has been paused and resumed, nothing but the record
      of it is left, and the same call dispatches the same proposal again. */
  lemma EveryDispatchCanRepeat(host: Host, w: World, id: Text, plan: PlanView, capability: Option<Capability>, hasAdapter: bool)
    requires Chain(host, w) && id in w.proposals && w.proposals[id].planId in w.sys.st.entries
    requires Cleared(Decide(w.proposals[id], w.sys.st.entries[w.proposals[id].planId], plan, capability, hasAdapter))
    ensures var call := DispatchCall(id, plan, capability, hasAdapter);
            var d := EventFor(host, w, id, plan, capability, hasAdapter);
            var again := WorldRun(host, w, PausedAfter(call, id) + [call]);
            && WorldRun(host, w, PausedAfter(call, id)) == w.(dispatches := w.dispatches + [d])
            && again.dispatches == w.dispatches + [d, d] && again.confirmed == w.confirmed
  {
    var call := DispatchCall(id, plan, capability, hasAdapter);
    var d := EventFor(host, w, id, plan, capability, hasAdapter);
    var v := w.(dispatches := w.dispatches + [d]);
    PausedAndResumed(host, w, id, plan, capability, hasAdapter);
    DispatchStepEffect(host, v, id, plan, capability, hasAdapter);
    RunAppend(host, w, PausedAfter(call, id), [call]);
    OneStep(host, v, call);
    assert w.dispatches + [d] + [d] == w.dispatches + [d, d];
  }

  lemma OneStep(host: Host, w: World, op: WorldOp)
    ensures WorldRun(host, w, [op]) == WorldStep(host, w, op)
  {
    RunCons(host, w, op, []);
    assert [op] + [] == [op];
  }

  lemma ThreeSteps(host: Host, w: World, a: WorldOp, b: WorldOp, c: WorldOp)
    ensures WorldRun(host, w, [a, b, c]) == WorldStep(host, WorldStep(host, WorldStep(host, w, a), b), c)
  {
    RunCons(host, w, a, [b, c]);
    RunCons(host, WorldStep(host, w, a), b, [c]);
    RunCons(host, WorldStep(host, WorldStep(host, w, a), b), c, []);
    assert [a] + [b, c] == [a, b, c] && [b] + [c] == [b, c] && [c] + [] == [c];
  }

  // ---- Exactly when a confirmation can be used again ----

  /** The dispatch that a dispatching proposal comes from. */
  ghost predicate DispatchOf(host: Host, p: Proposal, d: DispatchEvent) {
    && d.proposal == p.(status := Confirmed) && p.confirmedAt.Some?
    && HydrateAccepts(host.env, d.binding) && d.binding.planId == p.planId && d.binding.goalId == p.goalId
    && d.binding.bindingHash == p.bindingHash && d.binding.executionEndpointId == p.executionEndpointId
  }

  ghost predicate HasDispatch(host: Host, w: World, p: Proposal) {
    exists k :: 0 <= k < |w.dispatches| && DispatchOf(host, p, w.dispatches[k])
  }

  /** A dispatching proposal stands in the record, as it was when it was dispatched. */
  ghost predicate Traced(host: Host, w: World, id: Text) {
    id in w.proposals && w.proposals[id].status == Dispatching ==> HasDispatch(host, w, w.proposals[id])
  }

  lemma HasDispatchStays(host: Host, w: World, v: World, p: Proposal)
    requires HasDispatch(host, w, p) && w.dispatches <= v.dispatches
    ensures HasDispatch(host, v, p)
  {
    var k :| 0 <= k < |w.dispatches| && DispatchOf(host, p, w.dispatches[k]);
    assert v.dispatches[k] == w.dispatches[k];
  }

  lemma ClearedAgrees(p: Proposal, b: Binding, plan: PlanView, capability: Option<Capability>, hasAdapter: bool)
    requires Cleared(Decide(p, b, plan, capability, hasAdapter))
    ensures p.status == Confirmed && p.planId == b.planId && p.goalId == b.goalId && p.bindingHash == b.bindingHash
    ensures p.executionEndpointId == b.executionEndpointId
  {
    ClearedExactly(p, b, plan, capability, hasAdapter);
  }

  lemma DispatchTraced(host: Host, w: World, x: Text, plan: PlanView, capability: Option<Capability>, hasAdapter: bool, id: Text)
    requires Chain(host, w) && Traced(host, w, id)
    ensures Traced(host, AfterDispatch(host.site, w, x, plan, capability, hasAdapter), id)
  {
    var v := AfterDispatch(host.site, w, x, plan, capability, hasAdapter);
    if x in w.proposals && w.proposals[x].planId in w.sys.st.entries {
      var p, b := w.proposals[x], w.sys.st.entries[w.proposals[x].planId];
      var d := Decide(p, b, plan, capability, hasAdapter);
      if x == id && Cleared(d) {
        assert Linked(host, w, x);
        ClearedAgrees(p, b, plan, capability, hasAdapter);
        ClearedMarks(w.proposals, x, b, plan, capability, hasAdapter);
        assert v.proposals[id].(status := Confirmed) == p;
        assert DispatchOf(host, v.proposals[id], v.dispatches[|w.dispatches|]);
      } else {
        UnclearedDispatching(w.proposals, x, b, plan, capability, hasAdapter, id);
        if id in v.proposals && v.proposals[id].status == Dispatching {
          HasDispatchStays(host, w, v, w.proposals[id]);
        }
      }
    }
  }

  // Whatever is decided about a proposal, another that is dispatching was so before; so was this one, unless it is cleared.
  lemma UnclearedDispatching(m: Proposals, x: Text, b: Binding, plan: PlanView, capability: Option<Capability>, hasAdapter: bool,
                             id: Text)
    requires x in m && (x == id ==> !Cleared(Decide(m[x], b, plan, capability, hasAdapter)))
    ensures var n := AfterDecision(m, x, Decide(m[x], b, plan, capability, hasAdapter));
            id in n && n[id].status == Dispatching ==> id in m && n[id] == m[id]
  {
    if x != id {
      OthersStay(m, x, Decide(m[x], b, plan, capability, hasAdapter), id);
    }
  }

  /** No other call makes a proposal dispatching. */
  lemma OthersNeverDispatch(host: Host, w: World, op: WorldOp, id: Text)
    requires !op.DispatchCall?
    ensures var v := WorldStep(host, w, op);
            && v.dispatches == w.dispatches
            && (id in v.proposals && v.proposals[id].status == Dispatching ==> id in w.proposals && v.proposals[id] == w.proposals[id])
  {
    match op
    case EditCall(x, newId, preview, stdin, a) => EditNeverDispatches(host, w, x, newId, preview, stdin, a, id);
    case ConfirmCall(x, c, now) => ConfirmNeverDispatches(w, x, c, now, id);
    case ControlCall(x, c) => if c != MarkDispatching { ControlNeverDispatches(w.proposals, x, c, id); }
    case _ =>
  }

  lemma EditNeverDispatches(host: Host, w: World, x: Text, newId: Text, preview: Text, stdin: Text, a: Artifact, id: Text)
    ensures var v := AfterEdit(host, w, x, newId, preview, stdin, a);
            && v.dispatches == w.dispatches
            && (id in v.proposals && v.proposals[id].status == Dispatching ==> id in w.proposals && v.proposals[id] == w.proposals[id])
  {
  }

  lemma ConfirmNeverDispatches(w: World, x: Text, c: Confirmation, now: int, id: Text)
    ensures var v := AfterConfirmCall(w, x, c, now);
            && v.dispatches == w.dispatches
            && (id in v.proposals && v.proposals[id].status == Dispatching ==> id in w.proposals && v.proposals[id] == w.proposals[id])
  {
  }

  lemma ControlNeverDispatches(m: Proposals, x: Text, c: Control, id: Text)
    requires c != MarkDispatching
    ensures var n := Controlled(m, x, c); id in n && n[id].status == Dispatching ==> id in m && n[id] == m[id]
  {
  }

  lemma StepTraced(host: Host, w: World, op: WorldOp, id: Text)
    requires Chain(host, w) && Traced(host, w, id)
    ensures Traced(host, WorldStep(host, w, op), id)
  {
    if op.DispatchCall? {
      DispatchTraced(host, w, op.id, op.plan, op.capability, op.hasAdapter, id);
    } else {
      var v := WorldStep(host, w, op);
      OthersNeverDispatch(host, w, op, id);
      if id in v.proposals && v.proposals[id].status == Dispatching {
        HasDispatchStays(host, w, v, v.proposals[id]);
      }
    }
  }

  /** However the run goes on, as long as the proposal is not paused while dispatching, it is not dispatched a second time. */
  ghost predicate NeverAgain(host: Host, w: World, id: Text) {
    forall ops :: NeverPausedDispatching(host, w, ops, id) ==> CountFor(WorldRun(host, w, ops).dispatches, id) <= 1
  }

  ghost predicate NeverAgainAlong(host: Host, w: World, ops: seq<WorldOp>, id: Text)
    decreases |ops|
  {
    NeverAgain(host, w, id) && (ops != [] ==> NeverAgainAlong(host, WorldStep(host, w, ops[0]), ops[1..], id))
  }

  lemma UsedNeverAgain(host: Host, w: World, id: Text)
    requires Chain(host, w) && UsedOnce(w, id)
    ensures NeverAgain(host, w, id)
  {
    forall ops | NeverPausedDispatching(host, w, ops, id) ensures CountFor(WorldRun(host, w, ops).dispatches, id) <= 1 {
      RunUsesOnce(host, w, ops, id);
    }
  }

  lemma {:induction false} Counted(dispatches: seq<DispatchEvent>, k: nat, id: Text)
    requires k < |dispatches| && dispatches[k].proposal.id == id
    ensures CountFor(dispatches, id) >= 1
    decreases |dispatches|
  {
    var n := |dispatches| - 1;
    if k < n {
      assert dispatches[..n][k] == dispatches[k];
      Counted(dispatches[..n], k, id);
    }
  }

  const WORKBUDDY: Text := Ascii("workbuddy")

  /** A plan and a capability with which the proposal is cleared. */
  function PlanFor(p: Proposal): PlanView {
    PlanView(p.planId, p.goalId, PlanApproved, [StepView(p.stepId, p.executionEndpointId, [])])
  }

  function CapabilityFor(p: Proposal): Option<Capability> {
    Some(Capability(p.executionEndpointId, WORKBUDDY, true))
  }

  lemma ClearedFor(p: Proposal, b: Binding)
    requires p.status == Confirmed && p.planId == b.planId && p.goalId == b.goalId && p.bindingHash == b.bindingHash
    requires p.executionEndpointId == b.executionEndpointId
    ensures Cleared(Decide(p, b, PlanFor(p), CapabilityFor(p), true))
  {
    assert FindStep(PlanFor(p).steps, p.stepId) == Some(StepView(p.stepId, p.executionEndpointId, []));
    ClearedExactly(p, b, PlanFor(p), CapabilityFor(p), true);
  }

  /** Resuming, restoring the binding that was in force at the dispatch, and dispatching. */
  function Replay(id: Text, d: DispatchEvent): seq<WorldOp> {
    [ControlCall(id, Resume), BindingCall(HydrateCall(d.binding)),
     DispatchCall(id, PlanFor(d.proposal), CapabilityFor(d.proposal), true)]
  }

  lemma ReplayNotPausing(host: Host, w: World, id: Text, d: DispatchEvent)
    ensures NeverPausedDispatching(host, w, Replay(id, d), id)
  {
    var ops := Replay(id, d);
    var w1 := WorldStep(host, w, ops[0]);
    var w2 := WorldStep(host, w1, ops[1]);
    assert ops[1..][0] == ops[1] && ops[1..][1..][0] == ops[2] && ops[1..][1..][1..] == [];
    assert NeverPausedDispatching(host, WorldStep(host, w2, ops[2]), [], id);
    assert NeverPausedDispatching(host, w2, ops[1..][1..], id);
    assert NeverPausedDispatching(host, w1, ops[1..], id);
  }

  lemma Resumed(host: Host, w: World, id: Text, d: DispatchEvent)
    requires id in w.proposals && w.proposals[id].status == Paused && d.proposal == w.proposals[id].(status := Confirmed)
    requires d.proposal.confirmedAt.Some?
    ensures WorldStep(host, w, ControlCall(id, Resume)) == w.(proposals := w.proposals[id := d.proposal])
  {
  }

  /** A paused proposal that was dispatched before can be dispatched again, whatever has become of the binding since. */
  lemma PausedIsReplayed(host: Host, w: World, id: Text, k: nat)
    requires id in w.proposals && w.proposals[id].status == Paused && w.proposals[id].id == id
    requires k < |w.dispatches| && DispatchOf(host, w.proposals[id].(status := Dispatching), w.dispatches[k])
    ensures CountFor(WorldRun(host, w, Replay(id, w.dispatches[k])).dispatches, id) == CountFor(w.dispatches, id) + 1
  {
    var d := w.dispatches[k];
    var ops := Replay(id, d);
    var w1 := w.(proposals := w.proposals[id := d.proposal]);
    Resumed(host, w, id, d);
    var w2 := WorldStep(host, w1, ops[1]);
    assert w2 == w1.(sys := w2.sys) && d.binding.planId in w2.sys.st.entries && w2.sys.st.entries[d.binding.planId] == d.binding;
    ClearedFor(d.proposal, d.binding);
    DispatchStepEffect(host, w2, id, PlanFor(d.proposal), CapabilityFor(d.proposal), true);
    ThreeSteps(host, w, ops[0], ops[1], ops[2]);
    CountNext(w.dispatches, EventFor(host, w2, id, PlanFor(d.proposal), CapabilityFor(d.proposal), true), id);
  }

  /** Pausing a dispatching proposal is enough for it to be dispatched again. */
  lemma PauseAllowsAgain(host: Host, w: World, id: Text)
    requires Chain(host, w) && Traced(host, w, id) && id in w.proposals && w.proposals[id].status == Dispatching
    ensures !NeverAgain(host, WorldStep(host, w, ControlCall(id, Pause)), id)
  {
    var p := w.proposals[id];
    var v := WorldStep(host, w, ControlCall(id, Pause));
    assert v == w.(proposals := w.proposals[id := p.(status := Paused)]);
    assert Linked(host, w, id);
    var k: nat :| k < |w.dispatches| && DispatchOf(host, p, w.dispatches[k]);
    assert v.proposals[id].(status := Dispatching) == p;
    Counted(w.dispatches, k, id);
    PausedIsReplayed(host, v, id, k);
    ReplayNotPausing(host, v, id, w.dispatches[k]);
  }

  /** Exactly when one confirmation covers one dispatch: at no point of a run can the proposal be dispatched a second time if
      and only if the run never pauses it while it is dispatching. */
  lemma {:induction false} UsedOnceExactly(host: Host, w: World, ops: seq<WorldOp>, id: Text)
    requires Chain(host, w) && UsedOnce(w, id) && Traced(host, w, id)
    ensures NeverAgainAlong(host, w, ops, id) <==> NeverPausedDispatching(host, w, ops, id)
    decreases |ops|
  {
    UsedNeverAgain(host, w, id);
    if ops != [] {
      var v := WorldStep(host, w, ops[0]);
      StepKeepsChain(host, w, ops[0]);
      if PausesDispatching(w, ops[0], id) {
        PauseAllowsAgain(host, w, id);
      } else {
        StepUsesOnce(host, w, ops[0], id);
        StepTraced(host, w, ops[0], id);
        UsedOnceExactly(host, v, ops[1..], id);
      }
    }
  }

  /** In particular for every run from the start. */
  lemma UsedOnceFromStart(host: Host, ops: seq<WorldOp>, id: Text)
    ensures NeverAgainAlong(host, WORLD_START, ops, id) <==> NeverPausedDispatching(host, WORLD_START, ops, id)
  {
    UsedOnceExactly(host, WORLD_START, ops, id);
  }

  // ---- A run with a dispatch, and the same dispatch again ----

  const NAME: Text := [120]
  const EXECUTOR: Text := [121]

  function SomeEndpoint(id: Text): Endpoint {
    Endpoint(id, NAME, Transport.WorkBuddy, Capabilities(true, true, true, true, true, None), None, Online, 0)
  }

  function SomeInput(): CreateInput {
    CreateInput(NAME, NAME, None, NAME, EXECUTOR, Ascii("high"), Ascii("low"), NAME, NAME, Whole(1), Whole(1), NAME)
  }

  /** A server that knows every project and takes every date. */
  function SomeHost(hash: Text -> Text, lower: Text -> Text): Host {
    ServerHost(hash, lower, x => true, x => true, Site([], None))
  }

  // Two endpoints are registered and a binding is created for them.
  const SET_UP: seq<WorldOp> := [
    BindingCall(Registry(RegistryOp.Register(SomeEndpoint(NAME), 0))),
    BindingCall(Registry(RegistryOp.Register(SomeEndpoint(EXECUTOR), 0))),
    BindingCall(StoreCall(Create(SomeInput(), 0)))]

  lemma NameNotBlank()
    ensures Trim(NAME) == NAME && Trim(EXECUTOR) == EXECUTOR && NAME != EXECUTOR
  {
    assert FirstInk(NAME, 0) == 0 && FirstInk(EXECUTOR, 0) == 0;
    assert NAME[0..1] == NAME && EXECUTOR[0..1] == EXECUTOR;
    assert NAME[0] != EXECUTOR[0];
  }

  lemma NothingBlank(texts: seq<(string, Text)>)
    requires forall i :: 0 <= i < |texts| ==> texts[i].1 == NAME || texts[i].1 == EXECUTOR
    ensures FirstBlank(texts).None?
  {
    NameNotBlank();
    if texts != [] {
      NothingBlank(texts[1..]);
    }
  }

  lemma SomeInputValid(env: Env)
    requires env.projectExists(NAME) && env.isDate(NAME)
    ensures InputFailure(env, SomeInput()).None?
  {
    NothingBlank(RequiredTexts(SomeInput()));
  }

  // The binding that is created.
  function SomeBinding(hash: Text -> Text): Binding {
    var draft := Draft(SomeInput(), SomeEndpoint(NAME), SomeEndpoint(EXECUTOR), 0);
    draft.(bindingHash := Sha256(hash, AuthorityText(AuthorityOf(draft))))
  }

  function SetUpSystem(b: Binding): System {
    System(Registered(), Empty().Put(NAME, b), {})
  }

  lemma BuiltSome(hash: Text -> Text, lower: Text -> Text, eps: Endpoints)
    requires NAME in eps.entries && EXECUTOR in eps.entries
    requires eps.entries[NAME] == SomeEndpoint(NAME) && eps.entries[EXECUTOR] == SomeEndpoint(EXECUTOR)
    ensures Built(SomeHost(hash, lower).env, eps, SomeInput(), 0) == Result.Ok(SomeBinding(hash))
  {
    SomeInputValid(SomeHost(hash, lower).env);
    assert SHA256 <= SomeBinding(hash).bindingHash;
  }

  function Registered(): Endpoints {
    Empty().Put(NAME, SomeEndpoint(NAME)).Put(EXECUTOR, SomeEndpoint(EXECUTOR))
  }

  lemma BothRegistered(host: Host)
    ensures WorldStep(host, WorldStep(host, WORLD_START, SET_UP[0]), SET_UP[1]) == WORLD_START.(sys := System(Registered(), Empty(), {}))
  {
    NameNotBlank();
    var w1 := WorldStep(host, WORLD_START, SET_UP[0]);
    assert w1.sys.eps == Empty().Put(NAME, SomeEndpoint(NAME));
  }

  lemma BindingCreated(hash: Text -> Text, lower: Text -> Text)
    ensures WorldStep(SomeHost(hash, lower), WORLD_START.(sys := System(Registered(), Empty(), {})), SET_UP[2])
            == WORLD_START.(sys := SetUpSystem(SomeBinding(hash)))
  {
    BuiltSome(hash, lower, Registered());
  }

  lemma SetUpRun(hash: Text -> Text, lower: Text -> Text)
    ensures WorldRun(SomeHost(hash, lower), WORLD_START, SET_UP) == WORLD_START.(sys := SetUpSystem(SomeBinding(hash)))
  {
    BothRegistered(SomeHost(hash, lower));
    BindingCreated(hash, lower);
    ThreeSteps(SomeHost(hash, lower), WORLD_START, SET_UP[0], SET_UP[1], SET_UP[2]);
  }

  /** A request that may be drafted can be drafted, put to the human, and confirmed. */
  function Confirmed3(id: Text, r: Request, p: Proposal): seq<WorldOp> {
    [DraftCall(id, r), ControlCall(id, RequestConfirmation), ConfirmCall(id, ConfirmationOf(p), p.expiresAt)]
  }

  lemma DraftsAndConfirms(host: Host, w: World, id: Text, r: Request)
    requires id !in w.origin && r.plan.id in w.sys.st.entries
    requires DraftFailure(host.lower, DraftOf(w.sys.st.entries[r.plan.id], r)).None?
    ensures var b := w.sys.st.entries[r.plan.id];
            var p := NewProposal(host.contentHash, id, DraftOf(b, r));
            WorldRun(host, w, Confirmed3(id, r, p)) ==
              w.(proposals := w.proposals[id := p.(status := Confirmed, confirmedAt := Some(p.expiresAt))],
                 origin := w.origin[id := AuthorityOf(b)], confirmed := w.confirmed + {(id, ConfirmationOf(p))})
  {
    var b := w.sys.st.entries[r.plan.id];
    var p := NewProposal(host.contentHash, id, DraftOf(b, r));
    var w1 := w.(proposals := w.proposals[id := p], origin := w.origin[id := AuthorityOf(b)]);
    assert WorldStep(host, w, DraftCall(id, r)) == w1;
    AskedAndConfirmed(host, w1, id);
    ThreeSteps(host, w, DraftCall(id, r), ControlCall(id, RequestConfirmation), ConfirmCall(id, ConfirmationOf(p), p.expiresAt));
    assert w1.proposals[id := p.(status := Confirmed, confirmedAt := Some(p.expiresAt))]
           == w.proposals[id := p.(status := Confirmed, confirmedAt := Some(p.expiresAt))];
  }

  lemma AskedAndConfirmed(host: Host, w: World, id: Text)
    requires id in w.proposals && w.proposals[id].status == Drafted
    ensures var p := w.proposals[id];
            WorldStep(host, WorldStep(host, w, ControlCall(id, RequestConfirmation)),
                      ConfirmCall(id, ConfirmationOf(p), p.expiresAt)) ==
              w.(proposals := w.proposals[id := p.(status := Confirmed, confirmedAt := Some(p.expiresAt))],
                 confirmed := w.confirmed + {(id, ConfirmationOf(p))})
  {
    var p := w.proposals[id];
    var asked := p.(status := AwaitingConfirmation);
    assert WorldStep(host, w, ControlCall(id, RequestConfirmation)) == w.(proposals := w.proposals[id := asked]);
    assert ConfirmFailure(asked, ConfirmationOf(p), p.expiresAt).None?;
  }

  function SomePlan(): PlanView {
    PlanView(NAME, NAME, PlanApproved, [StepView(NAME, EXECUTOR, NAME)])
  }

  function SomeRequest(): Request {
    Request(SomePlan(), NAME, Artifact(NAME, NAME, NAME, NAME, NAME, Ascii("execution-proposal"), NAME, NAME, NAME), NAME,
            Ascii("codex"), [], NAME, 0)
  }

  function SomeDispatch(): WorldOp {
    DispatchCall(NAME, SomePlan(), Some(Capability(EXECUTOR, Ascii("workbuddy"), true)), true)
  }

  function SomeProposal(hash: Text -> Text): Proposal {
    NewProposal(ServerContentHash(hash), NAME, DraftOf(SomeBinding(hash), SomeRequest()))
  }

  lemma SomeRequestDrafts(hash: Text -> Text, lower: Text -> Text)
    ensures DraftFailure(lower, DraftOf(SomeBinding(hash), SomeRequest())).None?
  {
    assert ALLOWED_COMMANDS[0] == Ascii("codex");
    assert Permitted(lower, Execution(Ascii("codex"), [], NAME));
    assert FindStep(SomePlan().steps, NAME) == Some(StepView(NAME, EXECUTOR, NAME));
  }

  lemma DispatchClears(p: Proposal, b: Binding)
    requires p.status == Confirmed && p.stepId == NAME && p.executionEndpointId == b.executionEndpointId == EXECUTOR
    requires p.planId == b.planId && p.goalId == b.goalId && p.bindingHash == b.bindingHash
    ensures Cleared(Decide(p, b, SomePlan(), Some(Capability(EXECUTOR, Ascii("workbuddy"), true)), true))
  {
    assert FindStep(SomePlan().steps, NAME) == Some(StepView(NAME, EXECUTOR, NAME));
    ClearedExactly(p, b, SomePlan(), Some(Capability(EXECUTOR, Ascii("workbuddy"), true)), true);
  }

  /** The calls up to the confirmation. */
  function UpToConfirmed(hash: Text -> Text): seq<WorldOp> {
    SET_UP + Confirmed3(NAME, SomeRequest(), SomeProposal(hash))
  }

  function ConfirmedWorld(hash: Text -> Text): World {
    World(SetUpSystem(SomeBinding(hash)), map[NAME := SomeProposal(hash).(status := Confirmed, confirmedAt := Some(0))],
          map[NAME := AuthorityOf(SomeBinding(hash))], {(NAME, ConfirmationOf(SomeProposal(hash)))}, [])
  }

  lemma RunUpToConfirmed(hash: Text -> Text, lower: Text -> Text)
    ensures WorldRun(SomeHost(hash, lower), WORLD_START, UpToConfirmed(hash)) == ConfirmedWorld(hash)
  {
    SetUpRun(hash, lower);
    SomeRequestDrafts(hash, lower);
    RunAppend(SomeHost(hash, lower), WORLD_START, SET_UP, Confirmed3(NAME, SomeRequest(), SomeProposal(hash)));
    DraftsAndConfirms(SomeHost(hash, lower), WORLD_START.(sys := SetUpSystem(SomeBinding(hash))), NAME, SomeRequest());
  }

  lemma ConfirmedWorldClears(hash: Text -> Text)
    ensures var w := ConfirmedWorld(hash);
            && NAME in w.proposals && w.proposals[NAME].planId in w.sys.st.entries
            && Cleared(Decide(w.proposals[NAME], w.sys.st.entries[w.proposals[NAME].planId], SomePlan(),
                              Some(Capability(EXECUTOR, Ascii("workbuddy"), true)), true))
  {
    DispatchClears(ConfirmedWorld(hash).proposals[NAME], SomeBinding(hash));
  }

  /** From any confirmed world that some calls lead to, a clearing dispatch can be made once, or twice. */
  lemma OnceOrTwice(host: Host, ops: seq<WorldOp>, w: World, id: Text, plan: PlanView, capability: Option<Capability>,
                    hasAdapter: bool)
    requires w == WorldRun(host, WORLD_START, ops)
    requires id in w.proposals && w.proposals[id].planId in w.sys.st.entries
    requires Cleared(Decide(w.proposals[id], w.sys.st.entries[w.proposals[id].planId], plan, capability, hasAdapter))
    ensures var call := DispatchCall(id, plan, capability, hasAdapter);
            var d := EventFor(host, w, id, plan, capability, hasAdapter);
            var once := WorldRun(host, WORLD_START, ops + PausedAfter(call, id));
            var twice := WorldRun(host, WORLD_START, ops + (PausedAfter(call, id) + [call]));
            && once.dispatches == w.dispatches + [d] && twice.dispatches == w.dispatches + [d, d]
            && once.confirmed == twice.confirmed == w.confirmed
  {
    var call := DispatchCall(id, plan, capability, hasAdapter);
    EveryRunKeepsChain(host, WORLD_START, ops);
    EveryDispatchCanRepeat(host, w, id, plan, capability, hasAdapter);
    RunAppend(host, WORLD_START, ops, PausedAfter(call, id));
    RunAppend(host, WORLD_START, ops, PausedAfter(call, id) + [call]);
  }

  /** Whatever the digest: there is a run with a dispatch, and a longer one with the same dispatch twice under the single
      confirmation it contains. */
  lemma ConfirmationUsedTwice(hash: Text -> Text, lower: Text -> Text)
    ensures var host := SomeHost(hash, lower);
            var ops := UpToConfirmed(hash);
            var once := WorldRun(host, WORLD_START, ops + PausedAfter(SomeDispatch(), NAME));
            var twice := WorldRun(host, WORLD_START, ops + (PausedAfter(SomeDispatch(), NAME) + [SomeDispatch()]));
            && |once.dispatches| == 1 && twice.dispatches == once.dispatches + once.dispatches
            && twice.confirmed == once.confirmed == {(NAME, ConfirmationOf(SomeProposal(hash)))}
  {
    RunUpToConfirmed(hash, lower);
    ConfirmedWorldClears(hash);
    OnceOrTwice(SomeHost(hash, lower), UpToConfirmed(hash), ConfirmedWorld(hash), NAME, SomePlan(),
                Some(Capability(EXECUTOR, Ascii("workbuddy"), true)), true);
  }
}
