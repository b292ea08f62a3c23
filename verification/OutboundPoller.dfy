/** The outbound prompt poller: asynchronous ticks, cut at every `await`, interleaved with each other, with the panel's
    returns, and with stopping and restarting the poller. */
module OutboundPoller {
  import opened Wrappers
  import opened Texts
  import opened RelaySession

  datatype Prompt = Prompt(id: Text, sessionId: Text, packetId: Text)

  datatype Mark = MarkSubmitted | MarkResponding | MarkResponseReady | MarkReturned | MarkFailed

  /** The calls a tick makes to the server and the page. */
  datatype Call =
    | Claim
    | Fill(p: Prompt)
    | Ack(p: Prompt, filled: bool)
    | Submit(p: Prompt)
    | MarkStage(p: Prompt, mark: Mark)
    | Await(p: Prompt)
    | ExtractReturn(p: Prompt, text: Text)

  /** Where a tick is waiting. `AtFailed` remembers how many calls it had made when it gave up. */
  datatype Pc =
    | AtClaim
    | AtFill(p: Prompt)
    | AtAck(p: Prompt, filled: bool)
    | AtSubmit(p: Prompt)
    | AtSubmitted(p: Prompt)
    | AtResponding(p: Prompt)
    | AtResponse(p: Prompt)
    | AtResponseReady(p: Prompt, text: Text)
    | AtReturn(p: Prompt, text: Text)
    | AtReturned(p: Prompt, text: Text)
    | AtFailed(p: Prompt, text: Text, after: nat)

  /** What the awaited call comes back with. */
  datatype Answer = Answer(ok: bool, prompt: Option<Prompt>, text: Text) | Threw

  /** One segment of a tick: the new session state, where it waits next (nowhere when it is finished), and the call it has
      made. */
  datatype Segment = Segment(relay: Relay, next: Option<Pc>, call: Option<Call>)

  function Finished(r: Relay): Segment {
    Segment(r, None, None)
  }

  function GiveUp(r: Relay, p: Prompt, text: Text, after: nat, now: int): Segment {
    Segment(Recorded(r, RelaySession.Failed, NoIds, now), Some(AtFailed(p, text, after)), Some(MarkStage(p, MarkFailed)))
  }

  function PromptIds(p: Prompt): Ids {
    Ids(p.sessionId, p.id, p.packetId)
  }

  function Continue(r: Relay, pc: Pc, a: Answer, autoRelay: bool, now: int): Segment {
    if a.Threw? then Finished(r)
    else
      match pc
      case AtClaim =>
        if !a.ok || a.prompt.None? then Finished(Recorded(r, Paired, NoIds, now))
        else
          var p := a.prompt.value;
          Segment(Recorded(Recorded(r, Claimed, PromptIds(p), now), Filling, NoIds, now), Some(AtFill(p)), Some(Fill(p)))
      case AtFill(p) => Segment(Recorded(r, Acknowledging, NoIds, now), Some(AtAck(p, a.ok)), Some(Ack(p, a.ok)))
      case AtAck(p, filled) =>
        if !filled || !a.ok then Finished(Recorded(r, RelaySession.Failed, NoIds, now))
        else
          var s := Activated(r, Session(p.sessionId, p.id, p.packetId, now));
          if autoRelay then Segment(s, Some(AtSubmit(p)), Some(Submit(p))) else Finished(s)
      case AtSubmit(p) =>
        if !a.ok then GiveUp(r, p, [], 4, now) else Segment(r, Some(AtSubmitted(p)), Some(MarkStage(p, MarkSubmitted)))
      case AtSubmitted(p) =>
        if !a.ok then GiveUp(r, p, [], 5, now)
        else Segment(Recorded(r, Submitted, PromptIds(p), now), Some(AtResponding(p)), Some(MarkStage(p, MarkResponding)))
      case AtResponding(p) =>
        if !a.ok then GiveUp(r, p, [], 6, now) else Segment(Recorded(r, Responding, NoIds, now), Some(AtResponse(p)), Some(Await(p)))
      case AtResponse(p) =>
        if !a.ok then GiveUp(r, p, [], 7, now)
        else Segment(r, Some(AtResponseReady(p, a.text)), Some(MarkStage(p, MarkResponseReady)))
      case AtResponseReady(p, text) =>
        if !a.ok then GiveUp(r, p, text, 8, now)
        else Segment(Recorded(r, ResponseReady, NoIds, now), Some(AtReturn(p, text)), Some(ExtractReturn(p, text)))
      case AtReturn(p, text) =>
        if !a.ok then GiveUp(r, p, text, 9, now) else Segment(r, Some(AtReturned(p, text)), Some(MarkStage(p, MarkReturned)))
      case AtReturned(p, text) =>
        if !a.ok then GiveUp(r, p, text, 10, now) else Finished(CancelledRelay(Recorded(r, RelaySession.Returned, NoIds, now), now))
      case AtFailed(p, text, after) => Finished(r)
  }

  // ---- The calls of one tick ----

  /** The calls of a tick that succeeds throughout. */
  function Protocol(p: Prompt, text: Text): (r: seq<Call>)
    ensures |r| == 10
  {
    [Claim, Fill(p), Ack(p, true), Submit(p), MarkStage(p, MarkSubmitted), MarkStage(p, MarkResponding), Await(p),
     MarkStage(p, MarkResponseReady), ExtractReturn(p, text), MarkStage(p, MarkReturned)]
  }

  /** The calls made by the time a tick waits here. */
  ghost predicate CallsAt(pc: Pc, calls: seq<Call>) {
    match pc
    case AtClaim => calls == [Claim]
    case AtFill(p) => calls == [Claim, Fill(p)]
    case AtAck(p, filled) => calls == [Claim, Fill(p), Ack(p, filled)]
    case AtSubmit(p) => calls == Protocol(p, [])[..4]
    case AtSubmitted(p) => calls == Protocol(p, [])[..5]
    case AtResponding(p) => calls == Protocol(p, [])[..6]
    case AtResponse(p) => calls == Protocol(p, [])[..7]
    case AtResponseReady(p, text) => calls == Protocol(p, text)[..8]
    case AtReturn(p, text) => calls == Protocol(p, text)[..9]
    case AtReturned(p, text) => calls == Protocol(p, text)
    case AtFailed(p, text, after) => 4 <= after <= 10 && calls == Protocol(p, text)[..after] + [MarkStage(p, MarkFailed)]
  }

  /** A beginning of the protocol, or one that was submitted and then closed by a single `failed` mark, or a prompt that
      could not be filled in. */
  ghost predicate GoodCalls(calls: seq<Call>) {
    exists p, text ::
      || calls <= Protocol(p, text)
      || (exists k :: 4 <= k <= 10 && calls == Protocol(p, text)[..k] + [MarkStage(p, MarkFailed)])
      || calls == [Claim, Fill(p), Ack(p, false)]
  }

  lemma ProtocolPrefix(p: Prompt, text: Text, n: nat)
    requires n <= 7
    ensures Protocol(p, [])[..n] == Protocol(p, text)[..n]
  {
  }

  lemma CallsAtGood(pc: Pc, calls: seq<Call>)
    requires CallsAt(pc, calls)
    ensures GoodCalls(calls)
  {
    match pc
    case AtClaim => assert calls <= Protocol(Prompt([], [], []), []);
    case AtFill(p) => assert calls <= Protocol(p, []);
    case AtAck(p, filled) => assert filled ==> calls <= Protocol(p, []);
    case AtSubmit(p) => assert calls <= Protocol(p, []);
    case AtSubmitted(p) => assert calls <= Protocol(p, []);
    case AtResponding(p) => assert calls <= Protocol(p, []);
    case AtResponse(p) => assert calls <= Protocol(p, []);
    case AtResponseReady(p, text) => assert calls <= Protocol(p, text);
    case AtReturn(p, text) => assert calls <= Protocol(p, text);
    case AtReturned(p, text) => assert calls <= Protocol(p, text);
    case AtFailed(p, text, after) =>
      assert calls == Protocol(p, text)[..after] + [MarkStage(p, MarkFailed)];
  }

  lemma ContinueCalls(r: Relay, pc: Pc, a: Answer, autoRelay: bool, now: int, calls: seq<Call>)
    requires CallsAt(pc, calls)
    ensures var g := Continue(r, pc, a, autoRelay, now);
            && (g.next.Some? <==> g.call.Some?)
            && (g.next.Some? ==> CallsAt(g.next.value, calls + [g.call.value]))
  {
    match pc
    case AtResponse(p) => ProtocolPrefix(p, if a.Answer? then a.text else [], 7);
    case _ =>
  }

  // ---- The page ----

  datatype PollerState = PollerState(stopped: bool, inFlight: bool, autoRelay: bool)

  /** A tick in flight, with the calls it has made. */
  datatype Tick = Tick(poller: nat, pc: Pc, calls: seq<Call>)

  /** The session module, every poller ever started, the active one, the ticks and the panel returns in flight, and the
      calls of the ticks that are over. */
  datatype Page = Page(
    relay: Relay,
    pollers: seq<PollerState>,
    handle: Option<nat>,
    ticks: seq<Tick>,
    panel: seq<Option<Session>>,
    over: seq<seq<Call>>)

  function NewPage(now: int): Page {
    Page(Relay(None, Snapshot(Unpaired, None, None, None, now, [])), [], None, [], [], [])
  }

  datatype Event =
    | EnsurePoller(autoRelay: bool)
    | StopPoller
    | TickBegin(poller: nat, paired: bool, streaming: bool, now: int)
    | TickResume(tick: nat, answer: Answer, now: int)
    | PanelBegin(now: int)
    | PanelEnd(ret: nat, ok: bool, now: int)
    // the panel shows the session that is held
    | PanelShow(now: int)
    // the panel drops the session: it does so right after stopping the poller, when the pairing is cleared
    | CancelSession(now: int)

  function Remove<T>(s: seq<T>, k: nat): seq<T>
    requires k < |s|
  {
    s[..k] + s[k + 1..]
  }

  /** The part of a tick before its first `await`: what it leaves of the session state, and whether it goes on to claim. */
  function BeginTick(r: Relay, f: PollerState, paired: bool, streaming: bool, now: int): (Relay, bool) {
    if f.stopped || f.inFlight then (r, false)
    else if !paired then (Recorded(r, Unpaired, NoIds, now), false)
    else
      var t := Expired(r, now);
      if t.active.Some? then (t, false)
      else if streaming then (Recorded(t, Paired, NoIds, now), false)
      else (Recorded(t, RelaySession.Claiming, NoIds, now), true)
  }

  function PageStep(g: Page, e: Event): Page {
    match e
    case EnsurePoller(auto) =>
      if g.handle.Some? then g
      else g.(pollers := g.pollers + [PollerState(false, false, auto)], handle := Some(|g.pollers|))
    case StopPoller =>
      if g.handle.None? || g.handle.value >= |g.pollers| then g
      else g.(pollers := g.pollers[g.handle.value := g.pollers[g.handle.value].(stopped := true)], handle := None)
    case TickBegin(i, paired, streaming, now) =>
      if i >= |g.pollers| then g
      else
        var (relay, claims) := BeginTick(g.relay, g.pollers[i], paired, streaming, now);
        if !claims then g.(relay := relay)
        else g.(relay := relay, pollers := g.pollers[i := g.pollers[i].(inFlight := true)], ticks := g.ticks + [Tick(i, AtClaim, [Claim])])
    case TickResume(k, answer, now) =>
      if k >= |g.ticks| || g.ticks[k].poller >= |g.pollers| then g
      else
        var t := g.ticks[k];
        var m := Continue(g.relay, t.pc, answer, g.pollers[t.poller].autoRelay, now);
        if m.next.Some? && m.call.Some? then
          g.(relay := m.relay, ticks := g.ticks[k := Tick(t.poller, m.next.value, t.calls + [m.call.value])])
        else
          g.(relay := m.relay, pollers := g.pollers[t.poller := g.pollers[t.poller].(inFlight := false)],
             ticks := Remove(g.ticks, k), over := g.over + [t.calls])
    case PanelBegin(now) => g.(relay := Expired(g.relay, now), panel := g.panel + [Expired(g.relay, now).active])
    case PanelEnd(k, ok, now) =>
      if k >= |g.panel| then g
      else g.(relay := AfterReturn(g.relay, g.panel[k], ok, now), panel := Remove(g.panel, k))
    case PanelShow(now) => g.(relay := Expired(g.relay, now))
    case CancelSession(now) => g.(relay := CancelledRelay(g.relay, now))
  }

  function PageRun(g: Page, events: seq<Event>): Page
    decreases |events|
  {
    if events == [] then g else PageRun(PageStep(g, events[0]), events[1..])
  }

  // ---- What every interleaving keeps ----

  ghost predicate InFlight(g: Page, q: nat) {
    exists k :: 0 <= k < |g.ticks| && g.ticks[k].poller == q
  }

  /** At most one poller is not stopped; a poller is in flight exactly when it has a tick; it never has two; and every tick
      has made the calls that its place in the protocol calls for. */
  ghost predicate PageSound(g: Page) {
    && (g.handle.Some? ==> g.handle.value < |g.pollers|)
    && (forall q :: 0 <= q < |g.pollers| ==> (!g.pollers[q].stopped <==> g.handle == Some(q)))
    && (forall k :: 0 <= k < |g.ticks| ==> g.ticks[k].poller < |g.pollers|)
    && (forall q :: 0 <= q < |g.pollers| ==> (g.pollers[q].inFlight <==> InFlight(g, q)))
    && (forall j, k :: 0 <= j < k < |g.ticks| ==> g.ticks[j].poller != g.ticks[k].poller)
    && (forall k :: 0 <= k < |g.ticks| ==> CallsAt(g.ticks[k].pc, g.ticks[k].calls))
    && (forall k :: 0 <= k < |g.over| ==> GoodCalls(g.over[k]))
  }

  lemma BeginKeeps(g: Page, i: nat, paired: bool, streaming: bool, now: int)
    requires PageSound(g)
    ensures PageSound(PageStep(g, TickBegin(i, paired, streaming, now)))
  {
    var h := PageStep(g, TickBegin(i, paired, streaming, now));
    if |h.ticks| > |g.ticks| {
      forall q | 0 <= q < |h.pollers| ensures h.pollers[q].inFlight <==> InFlight(h, q) {
        if q == i {
          assert h.ticks[|g.ticks|].poller == q;
        } else if InFlight(g, q) {
          var k :| 0 <= k < |g.ticks| && g.ticks[k].poller == q;
          assert h.ticks[k].poller == q;
        }
      }
      assert !InFlight(g, i);
    } else {
      forall q | 0 <= q < |h.pollers| ensures InFlight(h, q) <==> InFlight(g, q) {
      }
    }
  }

  lemma ResumeKeeps(g: Page, k: nat, a: Answer, now: int)
    requires PageSound(g) && k < |g.ticks|
    ensures PageSound(PageStep(g, TickResume(k, a, now)))
  {
    var h := PageStep(g, TickResume(k, a, now));
    var t := g.ticks[k];
    ContinueCalls(g.relay, t.pc, a, g.pollers[t.poller].autoRelay, now, t.calls);
    if |h.ticks| == |g.ticks| {
      TickMoved(g, h, k);
    } else {
      CallsAtGood(t.pc, t.calls);
      TickOver(g, h, k);
    }
  }

  lemma TickMoved(g: Page, h: Page, k: nat)
    requires PageSound(g) && k < |g.ticks| && h.pollers == g.pollers && h.handle == g.handle && h.over == g.over
    requires |h.ticks| == |g.ticks| && h.ticks[k].poller == g.ticks[k].poller && CallsAt(h.ticks[k].pc, h.ticks[k].calls)
    requires forall j :: 0 <= j < |g.ticks| && j != k ==> h.ticks[j] == g.ticks[j]
    ensures PageSound(h)
  {
    forall q | 0 <= q < |h.pollers| ensures InFlight(h, q) <==> InFlight(g, q) {
      SamePollers(g.ticks, h.ticks, q);
    }
  }

  lemma TickOver(g: Page, h: Page, k: nat)
    requires PageSound(g) && k < |g.ticks| && h.handle == g.handle && h.ticks == Remove(g.ticks, k)
    requires h.pollers == g.pollers[g.ticks[k].poller := g.pollers[g.ticks[k].poller].(inFlight := false)]
    requires h.over == g.over + [g.ticks[k].calls] && GoodCalls(g.ticks[k].calls)
    ensures PageSound(h)
  {
    forall q | 0 <= q < |h.pollers| ensures InFlight(h, q) <==> InFlight(g, q) && q != g.ticks[k].poller {
      RemovedPoller(g.ticks, k, q);
    }
  }

  lemma SamePollers(s: seq<Tick>, t: seq<Tick>, q: nat)
    requires |s| == |t| && forall j :: 0 <= j < |s| ==> s[j].poller == t[j].poller
    ensures (exists j :: 0 <= j < |t| && t[j].poller == q) <==> (exists j :: 0 <= j < |s| && s[j].poller == q)
  {
    if j :| 0 <= j < |s| && s[j].poller == q {
      assert t[j].poller == q;
    }
  }

  lemma RemovedPoller(s: seq<Tick>, k: nat, q: nat)
    requires k < |s| && forall i, j :: 0 <= i < j < |s| ==> s[i].poller != s[j].poller
    ensures (exists j :: 0 <= j < |Remove(s, k)| && Remove(s, k)[j].poller == q) <==>
              (exists j :: 0 <= j < |s| && s[j].poller == q) && q != s[k].poller
  {
    var r := Remove(s, k);
    if j :| 0 <= j < |s| && s[j].poller == q && q != s[k].poller {
      assert r[if j < k then j else j - 1].poller == q;
    }
    if j :| 0 <= j < |r| && r[j].poller == q {
      assert r[j] == s[if j < k then j else j + 1];
    }
  }

  lemma StepKeepsPage(g: Page, e: Event)
    requires PageSound(g)
    ensures PageSound(PageStep(g, e))
  {
    match e
    case TickBegin(i, paired, streaming, now) => BeginKeeps(g, i, paired, streaming, now);
    case TickResume(k, a, now) => if k < |g.ticks| { ResumeKeeps(g, k, a, now); }
    case EnsurePoller(auto) =>
      var h := PageStep(g, e);
      forall q | 0 <= q < |h.pollers| ensures h.pollers[q].inFlight <==> InFlight(h, q) {
        assert InFlight(h, q) <==> InFlight(g, q);
      }
    case _ =>
      var h := PageStep(g, e);
      forall q: nat ensures InFlight(h, q) <==> InFlight(g, q) {
      }
  }

  /** In every interleaving of ticks, panel returns, stops and restarts: each poller has at most one tick in flight, at most
      one poller is live, and the calls of every tick, over or not, follow the protocol. */
  lemma {:induction false} EveryInterleaving(g: Page, events: seq<Event>)
    requires PageSound(g)
    ensures PageSound(PageRun(g, events))
    ensures forall k :: 0 <= k < |PageRun(g, events).ticks| ==> GoodCalls(PageRun(g, events).ticks[k].calls)
    decreases |events|
  {
    if events != [] {
      StepKeepsPage(g, events[0]);
      EveryInterleaving(PageStep(g, events[0]), events[1..]);
    } else {
      forall k | 0 <= k < |g.ticks| ensures GoodCalls(g.ticks[k].calls) {
        CallsAtGood(g.ticks[k].pc, g.ticks[k].calls);
      }
    }
  }

  // ---- Whose session it is ----

  /** The tick will not touch the session any more: its prompt could not be filled in, or it has given up. */
  predicate Spent(pc: Pc) {
    pc.AtFailed? || (pc.AtAck? && !pc.filled)
  }

  predicate Owns(pc: Pc, active: Option<Session>) {
    match pc
    case AtClaim => active.None?
    case AtFill(_) => active.None?
    case AtAck(_, filled) => filled ==> active.None?
    case AtFailed(_, _, _) => true
    case _ => active.None? || active.value.outboundPromptId == pc.p.id
  }

  /** While a tick is between its claim and its delivery no session is held, and after that only its own. */
  ghost predicate OwnSession(g: Page) {
    forall k :: 0 <= k < |g.ticks| ==> Owns(g.ticks[k].pc, g.relay.active)
  }

  /** At most one tick in flight can still touch the session, and while a poller is active it is that poller's. */
  ghost predicate Lone(g: Page) {
    && (forall j, k :: 0 <= j < k < |g.ticks| ==> Spent(g.ticks[j].pc) || Spent(g.ticks[k].pc))
    && (g.handle.Some? ==> forall k :: 0 <= k < |g.ticks| ==> Spent(g.ticks[k].pc) || g.ticks[k].poller == g.handle.value)
  }

  ghost predicate AllSpent(g: Page) {
    forall k :: 0 <= k < |g.ticks| ==> Spent(g.ticks[k].pc)
  }

  /** A new poller is started only when no tick in flight can touch the session. */
  ghost predicate Calm(g: Page, e: Event) {
    e.EnsurePoller? && g.handle.None? ==> AllSpent(g)
  }

  ghost predicate CalmRun(g: Page, events: seq<Event>)
    decreases |events|
  {
    events != [] ==> Calm(g, events[0]) && CalmRun(PageStep(g, events[0]), events[1..])
  }

  /** A session is held, and has not expired by the time of the event. */
  predicate HeldAt(g: Page, e: Event) {
    match e
    case TickBegin(_, _, _, now) => HoldsFresh(g.relay, now)
    case TickResume(_, _, now) => HoldsFresh(g.relay, now)
    case PanelBegin(now) => HoldsFresh(g.relay, now)
    case PanelEnd(_, _, now) => HoldsFresh(g.relay, now)
    case PanelShow(now) => HoldsFresh(g.relay, now)
    case CancelSession(now) => HoldsFresh(g.relay, now)
    case _ => g.relay.active.Some?
  }

  /** The event is the successful end of the panel return that was sent for the session's prompt, the last answer to the
      tick that delivered it, or the panel dropping it. */
  predicate EndsSession(g: Page, e: Event, s: Session) {
    match e
    case PanelEnd(k, ok, _) => ok && k < |g.panel| && g.panel[k].Some? && g.panel[k].value.outboundPromptId == s.outboundPromptId
    case TickResume(k, a, _) => k < |g.ticks| && g.ticks[k].pc.AtReturned? && g.ticks[k].pc.p.id == s.outboundPromptId
    case CancelSession(_) => true
    case _ => false
  }

  /** The event leaves an unexpired session alone, unless it rightly ends it. */
  predicate Respects(g: Page, e: Event) {
    HeldAt(g, e) ==> PageStep(g, e).relay.active == g.relay.active || EndsSession(g, e, g.relay.active.value)
  }

  /** Nothing that can happen next drops or replaces an unexpired session wrongly. */
  ghost predicate SessionSafe(g: Page) {
    forall e: Event :: Respects(g, e)
  }

  lemma ContinueOwns(r: Relay, pc: Pc, a: Answer, autoRelay: bool, now: int)
    requires Owns(pc, r.active)
    ensures var m := Continue(r, pc, a, autoRelay, now);
            && (m.next.Some? ==> Owns(m.next.value, m.relay.active))
            && (Spent(pc) ==> m.relay.active == r.active && (m.next.Some? ==> Spent(m.next.value)))
  {
  }

  lemma ResumeOwns(g: Page, k: nat, a: Answer, now: int)
    requires PageSound(g) && Lone(g) && OwnSession(g) && k < |g.ticks|
    ensures Lone(PageStep(g, TickResume(k, a, now))) && OwnSession(PageStep(g, TickResume(k, a, now)))
  {
    var h := PageStep(g, TickResume(k, a, now));
    var t := g.ticks[k];
    var m := Continue(g.relay, t.pc, a, g.pollers[t.poller].autoRelay, now);
    ContinueOwns(g.relay, t.pc, a, g.pollers[t.poller].autoRelay, now);
    ContinueCalls(g.relay, t.pc, a, g.pollers[t.poller].autoRelay, now, t.calls);
    if m.next.Some? {
      OwnsMoved(g, h, k);
    } else {
      OwnsOver(g, h, k);
    }
  }

  // What one tick does to the session is no concern of the others: they are spent, unless this one is.
  lemma OwnsMoved(g: Page, h: Page, k: nat)
    requires Lone(g) && OwnSession(g) && k < |g.ticks| == |h.ticks| && h.handle == g.handle
    requires h.ticks[k].poller == g.ticks[k].poller && Owns(h.ticks[k].pc, h.relay.active)
    requires forall j :: 0 <= j < |g.ticks| && j != k ==> h.ticks[j] == g.ticks[j]
    requires Spent(g.ticks[k].pc) ==> Spent(h.ticks[k].pc) && h.relay.active == g.relay.active
    ensures Lone(h) && OwnSession(h)
  {
    forall j | 0 <= j < |h.ticks| ensures Owns(h.ticks[j].pc, h.relay.active) {
      if j != k && !Spent(g.ticks[k].pc) { assert Spent(g.ticks[j].pc); }
    }
  }

  lemma OwnsOver(g: Page, h: Page, k: nat)
    requires Lone(g) && OwnSession(g) && k < |g.ticks| && h.ticks == Remove(g.ticks, k) && h.handle == g.handle
    requires Spent(g.ticks[k].pc) ==> h.relay.active == g.relay.active
    ensures Lone(h) && OwnSession(h)
  {
    forall j | 0 <= j < |h.ticks|
      ensures h.ticks[j] == g.ticks[if j < k then j else j + 1] && Owns(h.ticks[j].pc, h.relay.active)
    {
      if !Spent(g.ticks[k].pc) { assert Spent(g.ticks[if j < k then j else j + 1].pc); }
    }
  }

  lemma BeginOwns(g: Page, i: nat, paired: bool, streaming: bool, now: int)
    requires PageSound(g) && Lone(g) && OwnSession(g)
    ensures Lone(PageStep(g, TickBegin(i, paired, streaming, now))) && OwnSession(PageStep(g, TickBegin(i, paired, streaming, now)))
  {
    var h := PageStep(g, TickBegin(i, paired, streaming, now));
    if |h.ticks| > |g.ticks| {
      assert g.handle == Some(i) && !InFlight(g, i);
      forall k | 0 <= k < |g.ticks| ensures Spent(h.ticks[k].pc) {
        assert g.ticks[k].poller != i;
      }
    }
  }

  /** A calm event keeps the session with the one tick that can touch it. */
  lemma StepOwns(g: Page, e: Event)
    requires PageSound(g) && Lone(g) && OwnSession(g) && Calm(g, e)
    ensures Lone(PageStep(g, e)) && OwnSession(PageStep(g, e))
  {
    match e
    case TickResume(k, a, now) => if k < |g.ticks| { ResumeOwns(g, k, a, now); }
    case TickBegin(i, paired, streaming, now) => BeginOwns(g, i, paired, streaming, now);
    case _ =>
  }

  lemma OwnedIsSafe(g: Page)
    requires PageSound(g) && OwnSession(g)
    ensures SessionSafe(g)
  {
    forall e: Event ensures Respects(g, e) {
      match e
      case PanelEnd(k, ok, now) => if k < |g.panel| && HeldAt(g, e) { ReturnClearsOnlyItsOwn(g.relay, g.panel[k], ok, now); }
      case TickResume(k, a, now) => if k < |g.ticks| { assert Owns(g.ticks[k].pc, g.relay.active); }
      case _ =>
    }
  }

  lemma {:induction false} CalmRunOwns(g: Page, events: seq<Event>)
    requires PageSound(g) && Lone(g) && OwnSession(g) && CalmRun(g, events)
    ensures PageSound(PageRun(g, events)) && Lone(PageRun(g, events)) && OwnSession(PageRun(g, events))
    decreases |events|
  {
    if events != [] {
      StepKeepsPage(g, events[0]);
      StepOwns(g, events[0]);
      CalmRunOwns(PageStep(g, events[0]), events[1..]);
    }
  }

  /** In every interleaving with any number of pollers, each started when no tick in flight can touch the session any more:
      the session held is that of the tick that can, and an unexpired session is neither dropped nor replaced by anything
      but the panel return sent for its own prompt, the end of its own tick, or the panel dropping it. */
  lemma SessionHeldUntilEnded(start: int, events: seq<Event>, e: Event)
    requires CalmRun(NewPage(start), events)
    ensures OwnSession(PageRun(NewPage(start), events)) && Respects(PageRun(NewPage(start), events), e)
  {
    CalmRunOwns(NewPage(start), events);
    OwnedIsSafe(PageRun(NewPage(start), events));
  }

  lemma {:induction false} PollersGrow(g: Page, events: seq<Event>)
    ensures |g.pollers| <= |PageRun(g, events).pollers|
    decreases |events|
  {
    if events != [] {
      PollersGrow(PageStep(g, events[0]), events[1..]);
    }
  }

  /** A page that has never started a second poller has run calmly. */
  lemma {:induction false} OnePollerIsCalm(g: Page, events: seq<Event>)
    requires PageSound(g) && |PageRun(g, events).pollers| <= 1
    ensures CalmRun(g, events)
    decreases |events|
  {
    if events != [] {
      PollersGrow(PageStep(g, events[0]), events[1..]);
      StepKeepsPage(g, events[0]);
      OnePollerIsCalm(PageStep(g, events[0]), events[1..]);
    }
  }

  // ---- Any other restart can lose a session ----

  function Ok(p: Option<Prompt>, text: Text): Answer {
    Answer(true, p, text)
  }

  /** The tick works on another prompt, or on none yet. */
  predicate Foreign(pc: Pc, promptId: Text) {
    pc.AtClaim? || pc.p.id != promptId
  }

  // How many more answers the tick needs before the next one touches the session.
  function AnswersLeft(pc: Pc): nat {
    match pc
    case AtClaim => 2
    case AtFill(_) => 1
    case AtSubmit(_) => 6
    case AtSubmitted(_) => 5
    case AtResponding(_) => 4
    case AtResponse(_) => 3
    case AtResponseReady(_, _) => 2
    case AtReturn(_, _) => 1
    case _ => 0
  }

  // A prompt id other than this one.
  function OtherId(id: Text): (r: Text)
    ensures r != id
  {
    id + [0]
  }

  lemma RunCons(g: Page, e: Event, events: seq<Event>)
    ensures PageRun(g, [e] + events) == PageRun(PageStep(g, e), events)
  {
    assert ([e] + events)[1..] == events;
  }

  predicate NoRestart(events: seq<Event>) {
    forall i :: 0 <= i < |events| ==> !events[i].EnsurePoller?
  }

  lemma {:induction false} NoRestartIsCalm(g: Page, events: seq<Event>)
    requires NoRestart(events)
    ensures CalmRun(g, events)
    decreases |events|
  {
    if events != [] {
      NoRestartIsCalm(PageStep(g, events[0]), events[1..]);
    }
  }

  /** The tick is answered: it moves on, and nothing else on the page changes but the session. */
  lemma Answered(g: Page, k: nat, a: Answer, now: int)
    requires PageSound(g) && k < |g.ticks|
    requires Continue(g.relay, g.ticks[k].pc, a, g.pollers[g.ticks[k].poller].autoRelay, now).next.Some?
    ensures var m := Continue(g.relay, g.ticks[k].pc, a, g.pollers[g.ticks[k].poller].autoRelay, now);
            var h := PageStep(g, TickResume(k, a, now));
            && PageSound(h) && h.relay == m.relay && h.pollers == g.pollers && h.handle == g.handle
            && |h.ticks| == |g.ticks| && h.ticks[k].pc == m.next.value && h.ticks[k].poller == g.ticks[k].poller
            && forall j :: 0 <= j < |g.ticks| && j != k ==> h.ticks[j] == g.ticks[j]
  {
    StepKeepsPage(g, TickResume(k, a, now));
    ContinueCalls(g.relay, g.ticks[k].pc, a, g.pollers[g.ticks[k].poller].autoRelay, now, g.ticks[k].calls);
  }

  // The answer that takes a tick on; a claim is given a prompt other than the one whose session is held.
  function GoOn(pc: Pc, s: Session): Answer {
    Ok(if pc.AtClaim? then Some(Prompt(OtherId(s.outboundPromptId), [], [])) else None, [])
  }

  lemma GoesOn(r: Relay, pc: Pc, s: Session, autoRelay: bool, now: int)
    requires !Spent(pc) && !pc.AtAck? && !pc.AtReturned? && Foreign(pc, s.outboundPromptId)
    ensures var m := Continue(r, pc, GoOn(pc, s), autoRelay, now);
            && m.next.Some? && m.relay.active == r.active && !Spent(m.next.value)
            && AnswersLeft(m.next.value) < AnswersLeft(pc) && Foreign(m.next.value, s.outboundPromptId)
  {
    match pc
    case AtClaim =>
      var p := Prompt(OtherId(s.outboundPromptId), [], []);
      assert Continue(r, pc, GoOn(pc, s), autoRelay, now).next == Some(AtFill(p));
    case _ =>
  }

  /** A tick that can still touch the session, while another prompt's session is held, goes on to do so. */
  lemma {:induction false} TouchesForeignSession(g: Page, k: nat, s: Session, now: int) returns (events: seq<Event>, e: Event)
    requires PageSound(g) && k < |g.ticks| && !Spent(g.ticks[k].pc)
    requires g.relay.active == Some(s) && Fresh(s, now) && Foreign(g.ticks[k].pc, s.outboundPromptId)
    ensures NoRestart(events) && !Respects(PageRun(g, events), e)
    decreases AnswersLeft(g.ticks[k].pc)
  {
    var pc := g.ticks[k].pc;
    var a := GoOn(pc, s);
    e := TickResume(k, a, now);
    if pc.AtAck? || pc.AtReturned? {
      events := [];
      ForeignSessionTouched(g, k, s, a, now);
    } else {
      GoesOn(g.relay, pc, s, g.pollers[g.ticks[k].poller].autoRelay, now);
      Answered(g, k, a, now);
      var first := e;
      events, e := TouchesForeignSession(PageStep(g, e), k, s, now);
      RunCons(g, first, events);
      events := [first] + events;
    }
  }

  lemma ForeignSessionTouched(g: Page, k: nat, s: Session, a: Answer, now: int)
    requires PageSound(g) && k < |g.ticks| && !Spent(g.ticks[k].pc) && (g.ticks[k].pc.AtAck? || g.ticks[k].pc.AtReturned?)
    requires g.relay.active == Some(s) && Fresh(s, now) && g.ticks[k].pc.p.id != s.outboundPromptId && a.Answer? && a.ok
    ensures !Respects(g, TickResume(k, a, now))
  {
    var p := g.ticks[k].pc.p;
    var after := PageStep(g, TickResume(k, a, now)).relay.active;
    assert after == None || after == Some(Session(p.sessionId, p.id, p.packetId, now));
  }

  // A time by which a session that is held has expired.
  function Late(r: Relay): int {
    if r.active.Some? then r.active.value.updatedAt + ACTIVE_RELAY_SESSION_TTL_MS + 1 else 0
  }

  /** The page after a new poller has claimed a prompt; the ticks that were in flight are still there. */
  lemma NewPollerClaims(g: Page, auto: bool)
    requires PageSound(g) && g.handle.None?
    ensures var now := Late(g.relay);
            var h := PageStep(PageStep(g, EnsurePoller(auto)), TickBegin(|g.pollers|, true, false, now));
            && PageSound(h) && h.relay.active.None? && h.handle == Some(|g.pollers|)
            && |h.ticks| == |g.ticks| + 1 && h.ticks[|g.ticks|].pc == AtClaim
            && forall j :: 0 <= j < |g.ticks| ==> h.ticks[j] == g.ticks[j]
  {
    var h := PageStep(g, EnsurePoller(auto));
    StepKeepsPage(g, EnsurePoller(auto));
    StepKeepsPage(h, TickBegin(|g.pollers|, true, false, Late(g.relay)));
    assert !InFlight(h, |g.pollers|);
  }

  /** A tick waiting for its claim is given a prompt, fills it in and delivers it: from then on its session is held. */
  lemma Delivers(g: Page, t: nat, b: Prompt, now: int) returns (h: Page)
    requires PageSound(g) && t < |g.ticks| && g.ticks[t].pc == AtClaim
    ensures h == PageRun(g, Delivery(t, b, now)) && PageSound(h)
    ensures h.relay.active == Some(Session(b.sessionId, b.id, b.packetId, now))
    ensures forall j :: 0 <= j < t ==> j < |h.ticks| && h.ticks[j] == g.ticks[j]
  {
    var e := Delivery(t, b, now);
    Answered(g, t, Ok(Some(b), []), now);
    var g1 := PageStep(g, e[0]);
    Answered(g1, t, Ok(None, []), now);
    var g2 := PageStep(g1, e[1]);
    h := PageStep(g2, e[2]);
    StepKeepsPage(g2, e[2]);
    Delivered(g2, t, b, now);
    Steps3(g, e);
    assert e[3..] == [];
  }

  function Delivery(t: nat, b: Prompt, now: int): seq<Event> {
    [TickResume(t, Ok(Some(b), []), now), TickResume(t, Ok(None, []), now), TickResume(t, Ok(None, []), now)]
  }

  lemma Delivered(g: Page, t: nat, b: Prompt, now: int)
    requires PageSound(g) && t < |g.ticks| && g.ticks[t].pc == AtAck(b, true)
    ensures var h := PageStep(g, TickResume(t, Ok(None, []), now));
            && h.relay.active == Some(Session(b.sessionId, b.id, b.packetId, now))
            && forall j :: 0 <= j < t ==> j < |h.ticks| && h.ticks[j] == g.ticks[j]
  {
  }

  /** Starting a poller while some tick in flight can still touch the session: the new poller's own session can be lost. */
  lemma RestartCanLose(g: Page, auto: bool, k: nat) returns (events: seq<Event>, e: Event)
    requires PageSound(g) && g.handle.None? && k < |g.ticks| && !Spent(g.ticks[k].pc)
    ensures NoRestart(events) && !Respects(PageRun(PageStep(g, EnsurePoller(auto)), events), e)
  {
    var t, now := |g.ticks|, Late(g.relay);
    var pc := g.ticks[k].pc;
    var b := Prompt(if pc.AtClaim? then [] else OtherId(pc.p.id), [], []);
    NewPollerClaims(g, auto);
    var g1 := PageStep(PageStep(g, EnsurePoller(auto)), TickBegin(|g.pollers|, true, false, now));
    assert g1.ticks[t].pc == AtClaim && g1.ticks[k] == g.ticks[k];
    events, e := DeliversAndLoses(g1, t, b, k, now);
    RunCons(PageStep(g, EnsurePoller(auto)), TickBegin(|g.pollers|, true, false, now), events);
    events := [TickBegin(|g.pollers|, true, false, now)] + events;
  }

  lemma DeliversAndLoses(g: Page, t: nat, b: Prompt, k: nat, now: int) returns (events: seq<Event>, e: Event)
    requires PageSound(g) && k < t < |g.ticks| && g.ticks[t].pc == AtClaim
    requires !Spent(g.ticks[k].pc) && Foreign(g.ticks[k].pc, b.id)
    ensures NoRestart(events) && !Respects(PageRun(g, events), e)
  {
    var h := Delivers(g, t, b, now);
    events, e := TouchesForeignSession(h, k, Session(b.sessionId, b.id, b.packetId, now), now);
    RunAppend(g, Delivery(t, b, now), events);
    events := Delivery(t, b, now) + events;
  }

  /** However the page goes on, as long as it is calmly, no unexpired session is dropped or replaced wrongly. */
  ghost predicate NeverLoses(g: Page) {
    forall events :: CalmRun(g, events) ==> SessionSafe(PageRun(g, events))
  }

  lemma OwnedNeverLoses(g: Page)
    requires PageSound(g) && Lone(g) && OwnSession(g)
    ensures NeverLoses(g)
  {
    forall events | CalmRun(g, events) ensures SessionSafe(PageRun(g, events)) {
      CalmRunOwns(g, events);
      OwnedIsSafe(PageRun(g, events));
    }
  }

  /** Exactly when a poller may be started anew: when no tick in flight can touch the session any more. */
  lemma RestartSafeExactly(g: Page, auto: bool)
    requires PageSound(g) && Lone(g) && OwnSession(g) && g.handle.None?
    ensures NeverLoses(PageStep(g, EnsurePoller(auto))) <==> AllSpent(g)
  {
    var h := PageStep(g, EnsurePoller(auto));
    if AllSpent(g) {
      StepKeepsPage(g, EnsurePoller(auto));
      StepOwns(g, EnsurePoller(auto));
      OwnedNeverLoses(h);
    } else {
      var k: nat :| k < |g.ticks| && !Spent(g.ticks[k].pc);
      var events, e := RestartCanLose(g, auto, k);
      NoRestartIsCalm(h, events);
      assert CalmRun(h, events) && !SessionSafe(PageRun(h, events));
    }
  }

  ghost predicate NeverLosesAlong(g: Page, events: seq<Event>)
    decreases |events|
  {
    NeverLoses(g) && (events != [] ==> NeverLosesAlong(PageStep(g, events[0]), events[1..]))
  }

  /** Over whole runs, with any number of pollers: no session can be lost at any point of a run exactly when every restart
      in it was made with no tick in flight that could still touch the session. */
  lemma {:induction false} RunSafeExactly(g: Page, events: seq<Event>)
    requires PageSound(g) && Lone(g) && OwnSession(g)
    ensures NeverLosesAlong(g, events) <==> CalmRun(g, events)
    decreases |events|
  {
    OwnedNeverLoses(g);
    if events != [] {
      var h := PageStep(g, events[0]);
      StepKeepsPage(g, events[0]);
      if Calm(g, events[0]) {
        StepOwns(g, events[0]);
        RunSafeExactly(h, events[1..]);
      } else {
        RestartSafeExactly(g, events[0].autoRelay);
      }
    }
  }

  /** A claim never starts while a fresh session is held, nor while a tick of the same poller is in flight. */
  lemma ClaimNeedsNoSession(g: Page, e: Event)
    requires PageSound(g) && |PageStep(g, e).ticks| > |g.ticks|
    ensures e.TickBegin? && !HoldsFresh(g.relay, e.now) && !InFlight(g, e.poller)
  {
  }

  // ---- What a tick does, guard by guard ----

  predicate Unexpired(active: Option<Session>, now: int) {
    active.Some? && now - active.value.updatedAt <= 10 * 60 * 1000
  }

  /** A tick claims exactly when its poller is live and has no tick in flight, the page is paired, no session is held that has
      not expired, and no answer is being written; claiming is then its only call. */
  lemma ClaimsExactly(g: Page, i: nat, paired: bool, streaming: bool, now: int)
    requires PageSound(g)
    ensures var h := PageStep(g, TickBegin(i, paired, streaming, now));
            && (h.ticks != g.ticks <==>
                  && i < |g.pollers| && !g.pollers[i].stopped && !InFlight(g, i)
                  && paired && !Unexpired(g.relay.active, now) && !streaming)
            && (h.ticks != g.ticks ==>
                  && h.ticks == g.ticks + [Tick(i, AtClaim, [Claim])]
                  && h.relay.active.None? && h.relay.snapshot.stage == RelaySession.Claiming)
  {
    assert i < |g.pollers| ==> (g.pollers[i].inFlight <==> InFlight(g, i));
  }

  /** A tick that is refused makes no call, and drops the session only if it has expired; it shows why it was refused. */
  lemma RefusedTick(g: Page, i: nat, paired: bool, streaming: bool, now: int)
    requires PageSound(g) && PageStep(g, TickBegin(i, paired, streaming, now)).ticks == g.ticks
    ensures var h := PageStep(g, TickBegin(i, paired, streaming, now));
            && h == g.(relay := h.relay)
            && (Unexpired(g.relay.active, now) || g.relay.active.None? ==> h.relay.active == g.relay.active)
            && (h.relay.active == g.relay.active || h.relay.active.None?)
            && (i < |g.pollers| && !g.pollers[i].stopped && !InFlight(g, i) ==>
                  if !paired then h.relay.snapshot.stage == Unpaired
                  else if Unexpired(g.relay.active, now) then h.relay.snapshot == g.relay.snapshot
                  else h.relay.snapshot.stage == Paired)
  {
    assert i < |g.pollers| ==> (g.pollers[i].inFlight <==> InFlight(g, i));
  }

  /** Starting and stopping: a new poller is live and as it was asked for, and is started only when none is; stopping stops the
      live one and nothing else, whatever it has in flight. */
  lemma PollersExactly(g: Page, auto: bool)
    requires PageSound(g)
    ensures PageStep(g, EnsurePoller(auto)) ==
              if g.handle.Some? then g
              else g.(pollers := g.pollers + [PollerState(false, false, auto)], handle := Some(|g.pollers|))
    ensures var h := PageStep(g, StopPoller);
            && h == g.(pollers := h.pollers, handle := None) && |h.pollers| == |g.pollers|
            && forall q :: 0 <= q < |g.pollers| ==> h.pollers[q].stopped && h.pollers[q] == g.pollers[q].(stopped := true)
  {
  }

  /** The panel: a return is sent for the session held, unless it has expired; showing the session drops it if it has; the end of
      a return forgets that return; cancelling drops the session and shows it. None of them touches a poller or a tick. */
  lemma PanelExactly(g: Page, k: nat, ok: bool, now: int)
    ensures var held := if Unexpired(g.relay.active, now) then g.relay.active else None;
            && PageStep(g, PanelBegin(now)) == g.(relay := g.relay.(active := held), panel := g.panel + [held])
            && PageStep(g, PanelShow(now)) == g.(relay := g.relay.(active := held))
    ensures var h := PageStep(g, PanelEnd(k, ok, now));
            if k < |g.panel| then h == g.(relay := h.relay, panel := g.panel[..k] + g.panel[k + 1..]) else h == g
    ensures var h := PageStep(g, CancelSession(now));
            h == g.(relay := h.relay) && h.relay.active.None? && h.relay.snapshot.stage == Stage.Cancelled
  {
  }

  /** The answer lets the tick go on to the next call of the protocol. Filling in is acknowledged either way. */
  predicate Proceeds(pc: Pc, a: Answer, autoRelay: bool) {
    a.Answer? && (
      match pc
      case AtClaim => a.ok && a.prompt.Some?
      case AtFill(_) => true
      case AtAck(_, filled) => filled && a.ok && autoRelay
      case AtReturned(_, _) => false
      case AtFailed(_, _, _) => false
      case _ => a.ok)
  }

  /** The answer makes a tick that has submitted its prompt mark it as failed. */
  predicate FallsBack(pc: Pc, a: Answer) {
    a.Answer? && !a.ok && !pc.AtClaim? && !pc.AtFill? && !pc.AtAck? && !pc.AtFailed?
  }

  /** The stage shown once a call is made. */
  function StageAt(c: Call, before: Stage): Stage {
    match c
    case Claim => RelaySession.Claiming
    case Fill(_) => Filling
    case Ack(_, _) => Acknowledging
    case Submit(_) => WaitingManualSend
    case Await(_) => Responding
    case ExtractReturn(_, _) => ResponseReady
    case MarkStage(_, mark) => if mark == MarkFailed then RelaySession.Failed else if mark == MarkResponding then Submitted else before
  }

  /** What an answer does to a tick: it makes its next call, marks a failure, or is over. The session is the tick's own once its
      prompt was filled in and acknowledged, is dropped once the return was marked, and is left alone otherwise. */
  lemma ResumesExactly(g: Page, k: nat, a: Answer, now: int)
    requires PageSound(g) && k < |g.ticks|
    ensures var h := PageStep(g, TickResume(k, a, now));
            var t := g.ticks[k];
            && (|h.ticks| == |g.ticks| <==> Proceeds(t.pc, a, g.pollers[t.poller].autoRelay) || FallsBack(t.pc, a))
            && (|h.ticks| == |g.ticks| ==>
                  && |h.ticks[k].calls| == |t.calls| + 1 && h.ticks[k].calls[..|t.calls|] == t.calls
                  && var c := h.ticks[k].calls[|t.calls|];
                     && (FallsBack(t.pc, a) <==> c.MarkStage? && c.mark == MarkFailed)
                     && (c.Submit? ==> g.pollers[t.poller].autoRelay)
                     && h.relay.snapshot.stage == StageAt(c, g.relay.snapshot.stage))
            && h.relay.active ==
                 (if a.Answer? && a.ok && t.pc.AtAck? && t.pc.filled then Some(Session(t.pc.p.sessionId, t.pc.p.id, t.pc.p.packetId, now))
                  else if a.Answer? && a.ok && t.pc.AtReturned? then None
                  else g.relay.active)
  {
    var t := g.ticks[k];
    ContinueExactly(g.relay, t.pc, a, g.pollers[t.poller].autoRelay, now);
    var m := Continue(g.relay, t.pc, a, g.pollers[t.poller].autoRelay, now);
    if m.next.Some? {
      LastCall(t.calls, m.call.value);
    }
  }

  /** The stages that a segment shows, one after the other. */
  function StagesShown(pc: Pc, a: Answer, autoRelay: bool): seq<Stage> {
    if a.Threw? then []
    else if FallsBack(pc, a) then [RelaySession.Failed]
    else
      match pc
      case AtClaim => if a.ok && a.prompt.Some? then [Claimed, Filling] else [Paired]
      case AtFill(_) => [Acknowledging]
      case AtAck(_, filled) => if filled && a.ok then [WaitingManualSend] else [RelaySession.Failed]
      case AtSubmitted(_) => [Submitted]
      case AtResponding(_) => [Responding]
      case AtResponseReady(_, _) => [ResponseReady]
      case AtReturned(_, _) => [RelaySession.Returned, Stage.Cancelled]
      case _ => []
  }

  function Stamped(stages: seq<Stage>, now: int): seq<Evidence> {
    seq(|stages|, i requires 0 <= i < |stages| => Evidence(stages[i], now))
  }

  /** The ids that a segment shows: those of its prompt when it was claimed, delivered or submitted. */
  function IdsShown(pc: Pc, a: Answer): Ids {
    if a.Threw? || !a.ok then NoIds
    else
      match pc
      case AtClaim => if a.prompt.Some? then Ids(a.prompt.value.sessionId, a.prompt.value.id, a.prompt.value.packetId) else NoIds
      case AtAck(p, filled) => if filled then Ids(p.sessionId, p.id, p.packetId) else NoIds
      case AtSubmitted(p) => Ids(p.sessionId, p.id, p.packetId)
      case _ => NoIds
  }

  /** The snapshot after these stages: its evidence has grown by them and been cut to the last fifty, its stage is the last of
      them, and it names what the ids name or, without ids, what it named before. */
  predicate Shows(before: Snapshot, after: Snapshot, stages: seq<Stage>, ids: Ids, now: int) {
    && after.evidence == (if stages == [] then before.evidence else Window(before.evidence + Stamped(stages, now)))
    && after.stage == (if stages == [] then before.stage else stages[|stages| - 1])
    && (if ids.Ids? then Names(after, ids.sessionId, ids.outboundPromptId, ids.packetId)
        else after.sessionId == before.sessionId && after.outboundPromptId == before.outboundPromptId
             && after.packetId == before.packetId)
  }

  /** What a segment shows. */
  lemma ShowsExactly(g: Page, k: nat, a: Answer, now: int)
    requires PageSound(g) && k < |g.ticks|
    ensures var t := g.ticks[k];
            Shows(g.relay.snapshot, PageStep(g, TickResume(k, a, now)).relay.snapshot,
                  StagesShown(t.pc, a, g.pollers[t.poller].autoRelay), IdsShown(t.pc, a), now)
  {
    var t := g.ticks[k];
    SegmentShows(g.relay, t.pc, a, g.pollers[t.poller].autoRelay, now);
  }

  lemma ShowsOne(r: Relay, x: Stage, ids: Ids, now: int)
    ensures Shows(r.snapshot, Recorded(r, x, ids, now).snapshot, [x], ids, now)
  {
    assert Stamped([x], now) == [Evidence(x, now)];
  }

  lemma ShowsTwo(r: Relay, x: Stage, ids: Ids, y: Stage, now: int)
    ensures Shows(r.snapshot, Recorded(Recorded(r, x, ids, now), y, NoIds, now).snapshot, [x, y], ids, now)
  {
    var e := r.snapshot.evidence;
    assert e + Stamped([x, y], now) == (e + [Evidence(x, now)]) + [Evidence(y, now)];
    WindowOfHistory(e + [Evidence(x, now)], Evidence(y, now));
  }

  lemma SegmentShows(r: Relay, pc: Pc, a: Answer, autoRelay: bool, now: int)
    ensures Shows(r.snapshot, Continue(r, pc, a, autoRelay, now).relay.snapshot, StagesShown(pc, a, autoRelay), IdsShown(pc, a), now)
  {
    if a.Answer? && a.ok {
      GoodAnswerShows(r, pc, a, autoRelay, now);
    } else if a.Answer? {
      BadAnswerShows(r, pc, a, autoRelay, now);
    }
  }

  lemma BadAnswerShows(r: Relay, pc: Pc, a: Answer, autoRelay: bool, now: int)
    requires a.Answer? && !a.ok
    ensures Shows(r.snapshot, Continue(r, pc, a, autoRelay, now).relay.snapshot, StagesShown(pc, a, autoRelay), IdsShown(pc, a), now)
  {
    ShowsOne(r, if pc.AtClaim? then Paired else if pc.AtFill? then Acknowledging else RelaySession.Failed, NoIds, now);
  }

  lemma GoodAnswerShows(r: Relay, pc: Pc, a: Answer, autoRelay: bool, now: int)
    requires a.Answer? && a.ok
    ensures Shows(r.snapshot, Continue(r, pc, a, autoRelay, now).relay.snapshot, StagesShown(pc, a, autoRelay), IdsShown(pc, a), now)
  {
    match pc
    case AtClaim =>
      if a.prompt.Some? {
        ShowsTwo(r, Claimed, PromptIds(a.prompt.value), Filling, now);
      } else {
        ShowsOne(r, Paired, NoIds, now);
      }
    case AtFill(_) => ShowsOne(r, Acknowledging, NoIds, now);
    case AtAck(p, filled) =>
      if filled {
        ShowsOne(r.(active := Some(Session(p.sessionId, p.id, p.packetId, now))), WaitingManualSend, PromptIds(p), now);
      } else {
        ShowsOne(r, RelaySession.Failed, NoIds, now);
      }
    case AtSubmitted(p) => ShowsOne(r, Submitted, PromptIds(p), now);
    case AtResponding(_) => ShowsOne(r, Responding, NoIds, now);
    case AtResponseReady(_, _) => ShowsOne(r, ResponseReady, NoIds, now);
    case AtReturned(_, _) =>
      DropsThenShows(r, now);
      ShowsTwo(r, RelaySession.Returned, NoIds, Stage.Cancelled, now);
    case _ =>
  }

  // Dropping the session does not change what is shown.
  lemma DropsThenShows(r: Relay, now: int)
    ensures var returned := Recorded(r, RelaySession.Returned, NoIds, now);
            CancelledRelay(returned, now).snapshot == Recorded(returned, Stage.Cancelled, NoIds, now).snapshot
  {
  }

  lemma LastCall(calls: seq<Call>, c: Call)
    ensures (calls + [c])[..|calls|] == calls && (calls + [c])[|calls|] == c
  {
  }

  lemma ContinueExactly(r: Relay, pc: Pc, a: Answer, autoRelay: bool, now: int)
    ensures var m := Continue(r, pc, a, autoRelay, now);
            && (m.next.Some? <==> m.call.Some?)
            && (m.next.Some? <==> Proceeds(pc, a, autoRelay) || FallsBack(pc, a))
            && (m.call.Some? ==>
                  && (FallsBack(pc, a) <==> m.call.value.MarkStage? && m.call.value.mark == MarkFailed)
                  && (m.call.value.Submit? ==> autoRelay)
                  && m.relay.snapshot.stage == StageAt(m.call.value, r.snapshot.stage))
            && m.relay.active ==
                 (if a.Answer? && a.ok && pc.AtAck? && pc.filled then Some(Session(pc.p.sessionId, pc.p.id, pc.p.packetId, now))
                  else if a.Answer? && a.ok && pc.AtReturned? then None
                  else r.active)
  {
  }

  // ---- The poller itself ----

  class OutboundPromptPoller {
    const autoRelay: bool
    const session: ActiveRelaySession
    var stopped: bool
    var inFlight: bool

    function State(): PollerState
      reads this
    {
      PollerState(stopped, inFlight, autoRelay)
    }

    constructor (session: ActiveRelaySession, autoRelay: bool)
      ensures this.session == session && State() == PollerState(false, false, autoRelay)
    {
      this.session := session;
      this.autoRelay := autoRelay;
      stopped := false;
      inFlight := false;
    }

    method Stop()
      modifies this
      ensures stopped && inFlight == old(inFlight)
    {
      stopped := true;
    }

    /** A tick up to its first `await`. */
    method Tick(paired: bool, streaming: bool, now: int) returns (claims: bool)
      requires session.Valid()
      modifies this, session
      ensures session.Valid() && (session.State(), claims) == BeginTick(old(session.State()), old(State()), paired, streaming, now)
      ensures stopped == old(stopped) && inFlight == (old(inFlight) || claims)
    {
      if stopped {
        return false;
      }
      if inFlight {
        return false;
      }
      if !paired {
        session.RecordRelaySessionStage(Unpaired, NoIds, now);
        return false;
      }
      var active := session.GetActiveRelaySession(now);
      if active.Some? {
        return false;
      }
      if streaming {
        session.RecordRelaySessionStage(Paired, NoIds, now);
        return false;
      }
      inFlight := true;
      session.RecordRelaySessionStage(RelaySession.Claiming, NoIds, now);
      return true;
    }

    method Abandon(p: Prompt, text: Text, after: nat, now: int) returns (next: Option<Pc>, call: Option<Call>)
      requires session.Valid()
      modifies session
      ensures session.Valid() && Segment(session.State(), next, call) == GiveUp(old(session.State()), p, text, after, now)
    {
      session.RecordRelaySessionStage(RelaySession.Failed, NoIds, now);
      return Some(AtFailed(p, text, after)), Some(MarkStage(p, MarkFailed));
    }

    /** A tick from one `await` to the next, or to its end; whatever way it ends, the poller is free again. */
    method Resume(pc: Pc, a: Answer, now: int) returns (next: Option<Pc>, call: Option<Call>)
      requires session.Valid() && inFlight
      modifies this, session
      ensures session.Valid() && Segment(session.State(), next, call) == Continue(old(session.State()), pc, a, autoRelay, now)
      ensures stopped == old(stopped) && inFlight == next.Some?
    {
      next, call := Proceed(pc, a, now);
      if next.None? {
        inFlight := false;
      }
    }

    method Proceed(pc: Pc, a: Answer, now: int) returns (next: Option<Pc>, call: Option<Call>)
      requires session.Valid()
      modifies session
      ensures session.Valid() && Segment(session.State(), next, call) == Continue(old(session.State()), pc, a, autoRelay, now)
    {
      if a.Threw? {
        return None, None;
      }
      match pc {
        case AtClaim =>
          if !a.ok || a.prompt.None? {
            session.RecordRelaySessionStage(Paired, NoIds, now);
            return None, None;
          }
          var p := a.prompt.value;
          session.RecordRelaySessionStage(Claimed, PromptIds(p), now);
          session.RecordRelaySessionStage(Filling, NoIds, now);
          return Some(AtFill(p)), Some(Fill(p));
        case AtFill(p) =>
          session.RecordRelaySessionStage(Acknowledging, NoIds, now);
          return Some(AtAck(p, a.ok)), Some(Ack(p, a.ok));
        case AtAck(p, filled) =>
          if filled && a.ok {
            session.SetActiveRelaySession(Session(p.sessionId, p.id, p.packetId, now));
            if autoRelay {
              return Some(AtSubmit(p)), Some(Submit(p));
            }
          } else {
            session.RecordRelaySessionStage(RelaySession.Failed, NoIds, now);
          }
          return None, None;
        case AtSubmit(p) =>
          if !a.ok { next, call := Abandon(p, [], 4, now); return; }
          return Some(AtSubmitted(p)), Some(MarkStage(p, MarkSubmitted));
        case AtSubmitted(p) =>
          if !a.ok { next, call := Abandon(p, [], 5, now); return; }
          session.RecordRelaySessionStage(Submitted, PromptIds(p), now);
          return Some(AtResponding(p)), Some(MarkStage(p, MarkResponding));
        case AtResponding(p) =>
          if !a.ok { next, call := Abandon(p, [], 6, now); return; }
          session.RecordRelaySessionStage(Responding, NoIds, now);
          return Some(AtResponse(p)), Some(Await(p));
        case AtResponse(p) =>
          if !a.ok { next, call := Abandon(p, [], 7, now); return; }
          return Some(AtResponseReady(p, a.text)), Some(MarkStage(p, MarkResponseReady));
        case AtResponseReady(p, text) =>
          if !a.ok { next, call := Abandon(p, text, 8, now); return; }
          session.RecordRelaySessionStage(ResponseReady, NoIds, now);
          return Some(AtReturn(p, text)), Some(ExtractReturn(p, text));
        case AtReturn(p, text) =>
          if !a.ok { next, call := Abandon(p, text, 9, now); return; }
          return Some(AtReturned(p, text)), Some(MarkStage(p, MarkReturned));
        case AtReturned(p, text) =>
          if !a.ok { next, call := Abandon(p, text, 10, now); return; }
          session.RecordRelaySessionStage(RelaySession.Returned, NoIds, now);
          session.CancelActiveRelaySession(now);
          return None, None;
        case AtFailed(p, text, after) =>
          return None, None;
      }
    }
  }

  // ---- Two pollers: stopping does not call back a tick in flight ----

  /** The page seen without the session snapshot. */
  ghost predicate Looks(g: Page, active: Option<Session>, pollers: seq<PollerState>, handle: Option<nat>, pcs: seq<(nat, Pc)>,
                        panel: seq<Option<Session>>)
  {
    && g.relay.active == active && g.pollers == pollers && g.handle == handle && g.panel == panel
    && |g.ticks| == |pcs| && forall k :: 0 <= k < |pcs| ==> (g.ticks[k].poller, g.ticks[k].pc) == pcs[k]
  }

  const A := Prompt([1], [1], [1])
  const B := Prompt([2], [2], [2])
  const HELD_A := Session([1], [1], [1], 0)
  const HELD_B := Session([2], [2], [2], 0)
  const LIVE := PollerState(false, true, true)
  const STOPPED := PollerState(true, true, true)

  // The first poller delivers prompt A and waits for its submission.
  const FIRST: seq<Event> := [
    EnsurePoller(true), TickBegin(0, true, false, 0), TickResume(0, Ok(Some(A), []), 0), TickResume(0, Ok(None, []), 0),
    TickResume(0, Ok(None, []), 0)]

  // The pairing is cleared and made again, and the second poller delivers prompt B.
  const SECOND: seq<Event> := [
    StopPoller, CancelSession(0), EnsurePoller(true), TickBegin(1, true, false, 0), TickResume(1, Ok(Some(B), []), 0),
    TickResume(1, Ok(None, []), 0), TickResume(1, Ok(None, []), 0)]

  // The first tick runs on to its end.
  const THIRD: seq<Event> := [
    TickResume(0, Ok(None, []), 0), TickResume(0, Ok(None, []), 0), TickResume(0, Ok(None, []), 0),
    TickResume(0, Ok(None, []), 0), TickResume(0, Ok(None, []), 0), TickResume(0, Ok(None, []), 0),
    TickResume(0, Ok(None, []), 0)]

  lemma {:induction false} RunAppend(g: Page, a: seq<Event>, b: seq<Event>)
    ensures PageRun(g, a + b) == PageRun(PageRun(g, a), b)
    decreases |a|
  {
    if a == [] {
      assert a + b == b;
    } else {
      assert (a + b)[1..] == a[1..] + b;
      RunAppend(PageStep(g, a[0]), a[1..], b);
    }
  }

  /** A tick moves on: the page looks the same but for that tick and, perhaps, the session. */
  lemma TickMoves(g: Page, active: Option<Session>, pollers: seq<PollerState>, handle: Option<nat>, pcs: seq<(nat, Pc)>, k: nat,
                  a: Answer, next: Pc, after: Option<Session>)
    requires Looks(g, active, pollers, handle, pcs, []) && k < |pcs| && pcs[k].0 < |pollers|
    requires var m := Continue(g.relay, pcs[k].1, a, pollers[pcs[k].0].autoRelay, 0);
             m.next == Some(next) && m.call.Some? && m.relay.active == after
    ensures Looks(PageStep(g, TickResume(k, a, 0)), after, pollers, handle, pcs[k := (pcs[k].0, next)], [])
  {
  }

  lemma FirstPart()
    ensures Looks(PageRun(NewPage(0), FIRST), Some(HELD_A), [LIVE], Some(0), [(0, AtSubmit(A))], [])
  {
    var g1 := PageStep(NewPage(0), FIRST[0]);
    var g2 := PageStep(g1, FIRST[1]);
    assert Looks(g2, None, [LIVE], Some(0), [(0, AtClaim)], []);
    TickMoves(g2, None, [LIVE], Some(0), [(0, AtClaim)], 0, Ok(Some(A), []), AtFill(A), None);
    var g3 := PageStep(g2, FIRST[2]);
    TickMoves(g3, None, [LIVE], Some(0), [(0, AtFill(A))], 0, Ok(None, []), AtAck(A, true), None);
    var g4 := PageStep(g3, FIRST[3]);
    TickMoves(g4, None, [LIVE], Some(0), [(0, AtAck(A, true))], 0, Ok(None, []), AtSubmit(A), Some(HELD_A));
    var g5 := PageStep(g4, FIRST[4]);
    RunCons(g4, FIRST[4], []);
    RunCons(g3, FIRST[3], FIRST[4..]);
    Steps3(NewPage(0), FIRST);
    assert FIRST[3..] == [FIRST[3]] + FIRST[4..] && FIRST[4..] == [FIRST[4]] + [];
  }

  lemma SecondPart(g: Page)
    requires Looks(g, Some(HELD_A), [LIVE], Some(0), [(0, AtSubmit(A))], [])
    ensures Looks(PageRun(g, SECOND), Some(HELD_B), [STOPPED, LIVE], Some(1), [(0, AtSubmit(A)), (1, AtSubmit(B))], [])
  {
    PairingCleared(g);
    var g2 := PageStep(PageStep(g, SECOND[0]), SECOND[1]);
    PollerRestarts(g2);
    var a, two := (0, AtSubmit(A)), [STOPPED, LIVE];
    var g4 := PageStep(PageStep(g2, SECOND[2]), SECOND[3]);
    TickMoves(g4, None, two, Some(1), [a, (1, AtClaim)], 1, Ok(Some(B), []), AtFill(B), None);
    var g5 := PageStep(g4, SECOND[4]);
    TickMoves(g5, None, two, Some(1), [a, (1, AtFill(B))], 1, Ok(None, []), AtAck(B, true), None);
    var g6 := PageStep(g5, SECOND[5]);
    TickMoves(g6, None, two, Some(1), [a, (1, AtAck(B, true))], 1, Ok(None, []), AtSubmit(B), Some(HELD_B));
    Steps7(g, SECOND);
  }

  lemma PairingCleared(g: Page)
    requires Looks(g, Some(HELD_A), [LIVE], Some(0), [(0, AtSubmit(A))], [])
    ensures Looks(PageStep(PageStep(g, StopPoller), CancelSession(0)), None, [STOPPED], None, [(0, AtSubmit(A))], [])
  {
    var h := PageStep(g, StopPoller);
    assert Looks(h, Some(HELD_A), [STOPPED], None, [(0, AtSubmit(A))], []);
  }

  lemma PollerRestarts(g: Page)
    requires Looks(g, None, [STOPPED], None, [(0, AtSubmit(A))], [])
    ensures Looks(PageStep(PageStep(g, EnsurePoller(true)), TickBegin(1, true, false, 0)),
                  None, [STOPPED, LIVE], Some(1), [(0, AtSubmit(A)), (1, AtClaim)], [])
  {
    var h := PageStep(g, EnsurePoller(true));
    assert Looks(h, None, [STOPPED, PollerState(false, false, true)], Some(1), [(0, AtSubmit(A))], []);
  }

  lemma ThirdPart(g: Page)
    requires Looks(g, Some(HELD_B), [STOPPED, LIVE], Some(1), [(0, AtSubmit(A)), (1, AtSubmit(B))], [])
    ensures PageRun(g, THIRD).relay.active.None?
    ensures |PageRun(g, THIRD).ticks| == 1 && PageRun(g, THIRD).ticks[0].pc == AtSubmit(B)
  {
    var g1 := PageStep(g, THIRD[0]);
    FirstTickMoves(g, AtSubmit(A), AtSubmitted(A));
    var g2 := PageStep(g1, THIRD[1]);
    FirstTickMoves(g1, AtSubmitted(A), AtResponding(A));
    var g3 := PageStep(g2, THIRD[2]);
    FirstTickMoves(g2, AtResponding(A), AtResponse(A));
    var g4 := PageStep(g3, THIRD[3]);
    FirstTickMoves(g3, AtResponse(A), AtResponseReady(A, []));
    var g5 := PageStep(g4, THIRD[4]);
    FirstTickMoves(g4, AtResponseReady(A, []), AtReturn(A, []));
    var g6 := PageStep(g5, THIRD[5]);
    FirstTickMoves(g5, AtReturn(A, []), AtReturned(A, []));
    FirstTickCancels(g6);
    Steps7(g, THIRD);
  }

  lemma FirstTickMoves(g: Page, pc: Pc, next: Pc)
    requires Looks(g, Some(HELD_B), [STOPPED, LIVE], Some(1), [(0, pc), (1, AtSubmit(B))], [])
    requires var m := Continue(g.relay, pc, Ok(None, []), true, 0);
             m.next == Some(next) && m.call.Some? && m.relay.active == Some(HELD_B)
    ensures Looks(PageStep(g, TickResume(0, Ok(None, []), 0)), Some(HELD_B), [STOPPED, LIVE], Some(1),
                  [(0, next), (1, AtSubmit(B))], [])
  {
    TickMoves(g, Some(HELD_B), [STOPPED, LIVE], Some(1), [(0, pc), (1, AtSubmit(B))], 0, Ok(None, []), next, Some(HELD_B));
  }

  lemma FirstTickCancels(g: Page)
    requires Looks(g, Some(HELD_B), [STOPPED, LIVE], Some(1), [(0, AtReturned(A, [])), (1, AtSubmit(B))], [])
    ensures var h := PageStep(g, TickResume(0, Ok(None, []), 0));
            h.relay.active.None? && |h.ticks| == 1 && h.ticks[0].pc == AtSubmit(B)
  {
    var h := PageStep(g, TickResume(0, Ok(None, []), 0));
    assert h.ticks == Remove(g.ticks, 0);
  }

  lemma Steps3(g: Page, e: seq<Event>)
    requires |e| >= 3
    ensures PageRun(g, e) == PageRun(PageStep(PageStep(PageStep(g, e[0]), e[1]), e[2]), e[3..])
  {
    var h := PageStep(g, e[0]);
    var i := PageStep(h, e[1]);
    assert e[1..][0] == e[1] && e[1..][1..] == e[2..] && e[2..][0] == e[2] && e[2..][1..] == e[3..];
    assert PageRun(g, e) == PageRun(h, e[1..]);
    assert PageRun(h, e[1..]) == PageRun(i, e[2..]);
    assert PageRun(i, e[2..]) == PageRun(PageStep(i, e[2]), e[3..]);
  }

  lemma Steps6(g: Page, e: seq<Event>)
    requires |e| == 6
    ensures PageRun(g, e) == PageStep(PageStep(PageStep(PageStep(PageStep(PageStep(g, e[0]), e[1]), e[2]), e[3]), e[4]), e[5])
  {
    Steps3(g, e);
    Steps3(PageStep(PageStep(PageStep(g, e[0]), e[1]), e[2]), e[3..]);
    assert e[3..][3..] == [];
  }

  lemma Steps7(g: Page, e: seq<Event>)
    requires |e| == 7
    ensures PageRun(g, e)
            == PageStep(PageStep(PageStep(PageStep(PageStep(PageStep(PageStep(g, e[0]), e[1]), e[2]), e[3]), e[4]), e[5]), e[6])
  {
    Steps6(PageStep(g, e[0]), e[1..]);
  }

  /** With two pollers the session is not safe: `stop` does not call back a tick in flight, so after a restart the old tick
      goes on and, when it is done, cancels the session that the new poller's tick has just been given. */
  lemma RestartedPollerLosesSession()
    ensures var before := PageRun(NewPage(0), FIRST + SECOND);
            var after := PageRun(before, THIRD);
            && PageSound(before) && before.relay.active == Some(HELD_B)
            && after.relay.active.None? && |after.ticks| == 1 && after.ticks[0].pc == AtSubmit(B)
            && !OwnSession(before)
  {
    FirstPart();
    RunAppend(NewPage(0), FIRST, SECOND);
    var before := PageRun(NewPage(0), FIRST + SECOND);
    SecondPart(PageRun(NewPage(0), FIRST));
    ThirdPart(before);
    EveryInterleaving(NewPage(0), FIRST + SECOND);
    assert before.ticks[0].pc == AtSubmit(A);
  }
}
