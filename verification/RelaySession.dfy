/** The active relay session of a page: a cell with a time to live, its evidence window, and the return from the panel. */
module RelaySession {
  import opened Wrappers
  import opened Texts

  datatype Session = Session(sessionId: Text, outboundPromptId: Text, packetId: Text, updatedAt: int)

  datatype Stage =
    | Unpaired
    | Paired
    | Claiming
    | Claimed
    | Filling
    | Acknowledging
    | WaitingManualSend
    | Submitted
    | Responding
    | ResponseReady
    | Returned
    | Failed
    | Cancelled
    | Completed

  datatype Evidence = Evidence(stage: Stage, at: int)

  datatype Snapshot = Snapshot(
    stage: Stage,
    sessionId: Option<Text>,
    outboundPromptId: Option<Text>,
    packetId: Option<Text>,
    updatedAt: int,
    evidence: seq<Evidence>)

  /** The two module variables. */
  datatype Relay = Relay(active: Option<Session>, snapshot: Snapshot)

  const ACTIVE_RELAY_SESSION_TTL_MS := 10 * 60 * 1000
  const EVIDENCE_WINDOW := 50

  /** `slice(-50)` */
  function Window(evidence: seq<Evidence>): seq<Evidence> {
    if |evidence| <= EVIDENCE_WINDOW then evidence else evidence[|evidence| - EVIDENCE_WINDOW..]
  }

  /** The ids that a recorded stage carries along; an absent id keeps the earlier one. */
  datatype Ids = NoIds | Ids(sessionId: Text, outboundPromptId: Text, packetId: Text)

  function IdsOf(s: Session): Ids {
    Ids(s.sessionId, s.outboundPromptId, s.packetId)
  }

  /** The snapshot names this session, prompt and packet. */
  predicate Names(s: Snapshot, sessionId: Text, outboundPromptId: Text, packetId: Text) {
    s.sessionId == Some(sessionId) && s.outboundPromptId == Some(outboundPromptId) && s.packetId == Some(packetId)
  }

  function Recorded(r: Relay, stage: Stage, ids: Ids, now: int): Relay {
    var s := r.snapshot;
    var evidence := Window(s.evidence + [Evidence(stage, now)]);
    r.(snapshot := match ids
                   case NoIds => Snapshot(stage, s.sessionId, s.outboundPromptId, s.packetId, now, evidence)
                   case Ids(sid, pid, kid) => Snapshot(stage, Some(sid), Some(pid), Some(kid), now, evidence))
  }

  predicate Fresh(s: Session, now: int) {
    now - s.updatedAt <= ACTIVE_RELAY_SESSION_TTL_MS
  }

  predicate HoldsFresh(r: Relay, now: int) {
    r.active.Some? && Fresh(r.active.value, now)
  }

  /** Reading the session drops it when it has expired. */
  function Expired(r: Relay, now: int): Relay {
    if r.active.Some? && !Fresh(r.active.value, now) then r.(active := None) else r
  }

  function Activated(r: Relay, s: Session): Relay {
    Recorded(r.(active := Some(s)), WaitingManualSend, IdsOf(s), s.updatedAt)
  }

  function CancelledRelay(r: Relay, now: int): Relay {
    Recorded(r.(active := None), Stage.Cancelled, NoIds, now)
  }

  /** The panel's return once the server has answered: on success it closes the session it was sent for, and no other. */
  function AfterReturn(r: Relay, sentFor: Option<Session>, ok: bool, now: int): Relay {
    if !ok || sentFor.None? then r
    else
      var t := Expired(Recorded(r, Completed, IdsOf(sentFor.value), now), now);
      if t.active.Some? && t.active.value.outboundPromptId == sentFor.value.outboundPromptId then t.(active := None) else t
  }

  /** A completing panel return drops a session that is still fresh only when it was sent for that session's prompt, and
      it never brings a session back. */
  lemma ReturnClearsOnlyItsOwn(r: Relay, sentFor: Option<Session>, ok: bool, now: int)
    requires HoldsFresh(r, now)
    ensures var t := AfterReturn(r, sentFor, ok, now);
            && (t.active == r.active || t.active.None?)
            && (t.active.None? <==> ok && sentFor.Some? && sentFor.value.outboundPromptId == r.active.value.outboundPromptId)
  {
  }

  /** The evidence is always the last fifty stages recorded, oldest first. */
  lemma WindowOfHistory(history: seq<Evidence>, e: Evidence)
    ensures Window(Window(history) + [e]) == Window(history + [e])
  {
  }

  class ActiveRelaySession {
    var activeRelaySession: Option<Session>
    var relaySessionSnapshot: Snapshot
    ghost var history: seq<Evidence>

    function State(): Relay
      reads this
    {
      Relay(activeRelaySession, relaySessionSnapshot)
    }

    ghost predicate Valid()
      reads this
    {
      relaySessionSnapshot.evidence == Window(history)
    }

    constructor (now: int)
      ensures Valid() && history == []
      ensures State() == Relay(None, Snapshot(Unpaired, None, None, None, now, []))
    {
      activeRelaySession := None;
      relaySessionSnapshot := Snapshot(Unpaired, None, None, None, now, []);
      history := [];
    }

    method RecordRelaySessionStage(stage: Stage, ids: Ids, now: int)
      requires Valid()
      modifies this
      ensures Valid() && State() == Recorded(old(State()), stage, ids, now)
      ensures history == old(history) + [Evidence(stage, now)]
      ensures activeRelaySession == old(activeRelaySession)
      ensures relaySessionSnapshot.stage == stage && relaySessionSnapshot.updatedAt == now
      ensures ids.Ids? ==> Names(relaySessionSnapshot, ids.sessionId, ids.outboundPromptId, ids.packetId)
      ensures ids.NoIds? ==>
                && relaySessionSnapshot.sessionId == old(relaySessionSnapshot.sessionId)
                && relaySessionSnapshot.packetId == old(relaySessionSnapshot.packetId)
                && relaySessionSnapshot.outboundPromptId == old(relaySessionSnapshot.outboundPromptId)
      ensures relaySessionSnapshot.evidence == if |history| <= 50 then history else history[|history| - 50..]
    {
      WindowOfHistory(history, Evidence(stage, now));
      var s := relaySessionSnapshot;
      var evidence := Window(s.evidence + [Evidence(stage, now)]);
      match ids {
        case NoIds =>
          relaySessionSnapshot := Snapshot(stage, s.sessionId, s.outboundPromptId, s.packetId, now, evidence);
        case Ids(sessionId, outboundPromptId, packetId) =>
          relaySessionSnapshot := Snapshot(stage, Some(sessionId), Some(outboundPromptId), Some(packetId), now, evidence);
      }
      history := history + [Evidence(stage, now)];
    }

    method SetActiveRelaySession(session: Session)
      requires Valid()
      modifies this
      ensures Valid() && State() == Activated(old(State()), session)
      ensures activeRelaySession == Some(session) && history == old(history) + [Evidence(WaitingManualSend, session.updatedAt)]
      ensures Names(relaySessionSnapshot, session.sessionId, session.outboundPromptId, session.packetId)
    {
      activeRelaySession := Some(session);
      RecordRelaySessionStage(WaitingManualSend, IdsOf(session), session.updatedAt);
    }

    method GetActiveRelaySession(now: int) returns (r: Option<Session>)
      requires Valid()
      modifies this
      ensures Valid() && State() == Expired(old(State()), now) && r == activeRelaySession
      ensures r.Some? <==> old(activeRelaySession).Some? && now - old(activeRelaySession).value.updatedAt <= 10 * 60 * 1000
      ensures r.Some? ==> r == old(activeRelaySession)
      ensures relaySessionSnapshot == old(relaySessionSnapshot) && history == old(history)
    {
      if activeRelaySession.Some? && !Fresh(activeRelaySession.value, now) {
        activeRelaySession := None;
      }
      return activeRelaySession;
    }

    method ConsumeActiveRelaySession(now: int) returns (r: Option<Session>)
      requires Valid()
      modifies this
      ensures Valid() && State() == old(State()).(active := None)
      ensures r == if HoldsFresh(old(State()), now) then old(activeRelaySession) else None
      ensures activeRelaySession.None?
    {
      r := GetActiveRelaySession(now);
      activeRelaySession := None;
    }

    method CancelActiveRelaySession(now: int)
      requires Valid()
      modifies this
      ensures Valid() && State() == CancelledRelay(old(State()), now)
      ensures activeRelaySession.None? && history == old(history) + [Evidence(Stage.Cancelled, now)]
    {
      activeRelaySession := None;
      RecordRelaySessionStage(Stage.Cancelled, NoIds, now);
    }

    /** The first half of `submitExtractReturn`: the session the content will be sent for. */
    method BeginExtractReturn(now: int) returns (sentFor: Option<Session>)
      requires Valid()
      modifies this
      ensures Valid() && State() == Expired(old(State()), now) && sentFor == activeRelaySession
    {
      sentFor := GetActiveRelaySession(now);
    }

    /** The second half, after the server has answered. */
    method FinishExtractReturn(sentFor: Option<Session>, ok: bool, now: int)
      requires Valid()
      modifies this
      ensures Valid() && State() == AfterReturn(old(State()), sentFor, ok, now)
      ensures history == if ok && sentFor.Some? then old(history) + [Evidence(Completed, now)] else old(history)
      ensures !ok || sentFor.None? ==> State() == old(State())
      ensures ok && sentFor.Some? ==>
                && relaySessionSnapshot.stage == Completed
                && Names(relaySessionSnapshot, sentFor.value.sessionId, sentFor.value.outboundPromptId, sentFor.value.packetId)
    {
      if ok && sentFor.Some? {
        RecordRelaySessionStage(Completed, IdsOf(sentFor.value), now);
        var current := GetActiveRelaySession(now);
        if current.Some? && current.value.outboundPromptId == sentFor.value.outboundPromptId {
          activeRelaySession := None;
        }
      }
    }
  }
}
