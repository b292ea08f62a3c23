/** The verification view of a project and its one-line summary: two passes over the same artifacts that must agree. */
module VerificationView {
  import opened Wrappers
  import opened Texts

  datatype VerificationResult = Passed | Failed | Skipped | Errored | Unknown | Unrecognised(name: Text)

  datatype Evidence = Evidence(result: VerificationResult, details: Text)

  datatype Status = Done | OtherStatus(name: Text)

  datatype Slot = Slot(id: Text, stepIndex: int, status: Status)

  datatype Team = Team(id: Text, slots: seq<Slot>)

  datatype Step = Step(id: Text, index: int, intent: Text, status: Status)

  datatype Plan = Plan(steps: seq<Step>)

  datatype Artifact = Artifact(
    teamId: Text,
    slotId: Text,
    planStepId: Text,
    summary: Text,
    notes: Option<Text>,
    evidence: Option<Evidence>,
    createdAt: int)

  datatype Input = Input(plans: seq<Plan>, teams: seq<Team>, artifacts: seq<Artifact>)

  datatype HarnessStatus = Recorded | Unavailable

  datatype Record = Record(
    stepId: Text,
    stepIndex: Option<int>,
    stepIntent: Text,
    stepStatus: Option<Status>,
    harness: HarnessStatus,
    notes: Option<Text>,
    evidence: Option<Evidence>,
    teamId: Option<Text>,
    slotId: Option<Text>,
    createdAt: Option<int>)

  type ResultCounts = map<VerificationResult, nat>

  const NO_RESULTS: ResultCounts := map[Passed := 0, Failed := 0, Skipped := 0, Errored := 0, Unknown := 0]

  datatype Summary = Summary(
    evidenceCount: nat,
    lastRecordedAt: Option<int>,
    doneStepCount: nat,
    totalStepCount: nat,
    resultCounts: Option<ResultCounts>)

  datatype View = View(records: seq<Record>, status: HarnessStatus, summary: Summary)

  // ---- Which artifacts count ----

  /** Notes that are not blank, trimmed. */
  function Notes(a: Artifact): Option<Text> {
    if a.notes.Some? && Trim(a.notes.value) != [] then Some(Trim(a.notes.value)) else None
  }

  /** `validVerificationEvidence` */
  function ValidEvidence(a: Artifact): Option<Evidence> {
    if a.evidence.Some? && !a.evidence.value.result.Unrecognised? then a.evidence else None
  }

  /** The last team with an id, as a map filled from the list would give it. */
  function TeamById(teams: seq<Team>, id: Text): Option<Team>
    decreases |teams|
  {
    if teams == [] then None
    else if teams[|teams| - 1].id == id then Some(teams[|teams| - 1])
    else TeamById(teams[..|teams| - 1], id)
  }

  ghost predicate LastTeam(teams: seq<Team>, id: Text, t: Team) {
    exists k :: 0 <= k < |teams| && teams[k] == t && t.id == id && forall i :: k < i < |teams| ==> teams[i].id != id
  }

  /** A map filled from the list has the last team with the id, and one for exactly the ids in the list. */
  lemma {:induction false} TeamByIdExactly(teams: seq<Team>, id: Text)
    ensures TeamById(teams, id).Some? <==> exists k :: 0 <= k < |teams| && teams[k].id == id
    ensures TeamById(teams, id).Some? ==> LastTeam(teams, id, TeamById(teams, id).value)
    decreases |teams|
  {
    if teams != [] && teams[|teams| - 1].id != id {
      var front := teams[..|teams| - 1];
      TeamByIdExactly(front, id);
      if TeamById(front, id).Some? {
        var k :| 0 <= k < |front| && front[k] == TeamById(front, id).value && front[k].id == id
                 && forall i :: k < i < |front| ==> front[i].id != id;
        assert teams[k] == front[k];
        assert forall i :: k < i < |front| ==> teams[i] == front[i];
      }
    }
  }

  predicate Counts(teams: seq<Team>, a: Artifact) {
    (Notes(a).Some? || ValidEvidence(a).Some?) && TeamById(teams, a.teamId).Some?
  }

  function Keeps(teams: seq<Team>): Artifact -> bool {
    a => Counts(teams, a)
  }

  /** The artifacts that count, in order. */
  function Counted(keeps: Artifact -> bool, artifacts: seq<Artifact>): seq<Artifact>
    decreases |artifacts|
  {
    if artifacts == [] then []
    else
      var n := |artifacts| - 1;
      var before := Counted(keeps, artifacts[..n]);
      if keeps(artifacts[n]) then before + [artifacts[n]] else before
  }

  // ---- The summary ----

  function CountOf(c: ResultCounts, r: VerificationResult): nat {
    if r in c then c[r] else 0
  }

  function Plus(c: ResultCounts, r: VerificationResult): ResultCounts {
    c[r := CountOf(c, r) + 1]
  }

  function Total(c: ResultCounts): nat {
    CountOf(c, Passed) + CountOf(c, Failed) + CountOf(c, Skipped) + CountOf(c, Errored) + CountOf(c, Unknown)
  }

  lemma PlusCounts(c: ResultCounts, r: VerificationResult, q: VerificationResult)
    ensures CountOf(Plus(c, r), q) == CountOf(c, q) + if q == r then 1 else 0
  {
  }

  lemma PlusTotal(c: ResultCounts, r: VerificationResult)
    requires !r.Unrecognised?
    ensures Total(Plus(c, r)) == Total(c) + 1
  {
    var d := Plus(c, r);
    PlusCounts(c, r, Passed);
    PlusCounts(c, r, Failed);
    PlusCounts(c, r, Skipped);
    PlusCounts(c, r, Errored);
    PlusCounts(c, r, Unknown);
    assert Total(d) == CountOf(d, Passed) + CountOf(d, Failed) + CountOf(d, Skipped) + CountOf(d, Errored) + CountOf(d, Unknown);
  }

  function CountResults(counted: seq<Artifact>): ResultCounts
    decreases |counted|
  {
    if counted == [] then NO_RESULTS
    else
      var a := counted[|counted| - 1];
      var c := CountResults(counted[..|counted| - 1]);
      if ValidEvidence(a).Some? then Plus(c, ValidEvidence(a).value.result) else c
  }

  function Latest(counted: seq<Artifact>): Option<int>
    decreases |counted|
  {
    if counted == [] then None
    else
      var before := Latest(counted[..|counted| - 1]);
      var t := counted[|counted| - 1].createdAt;
      if before.None? || t > before.value then Some(t) else before
  }

  /** All the steps of all the plans, in order. */
  function StepsOf(plans: seq<Plan>): seq<Step>
    decreases |plans|
  {
    if plans == [] then [] else StepsOf(plans[..|plans| - 1]) + plans[|plans| - 1].steps
  }

  function DoneSteps(steps: seq<Step>): seq<Step>
    decreases |steps|
  {
    if steps == [] then []
    else
      var n := |steps| - 1;
      if steps[n].status.Done? then DoneSteps(steps[..n]) + [steps[n]] else DoneSteps(steps[..n])
  }

  function SummaryOf(x: Input): Summary {
    var counted := Counted(Keeps(x.teams), x.artifacts);
    var results := CountResults(counted);
    Summary(|counted|, Latest(counted), |DoneSteps(StepsOf(x.plans))|, |StepsOf(x.plans)|,
            if Total(results) == 0 then None else Some(results))
  }

  lemma CountedNext(keeps: Artifact -> bool, artifacts: seq<Artifact>, k: nat)
    requires k < |artifacts|
    ensures Counted(keeps, artifacts[..k + 1])
            == if keeps(artifacts[k]) then Counted(keeps, artifacts[..k]) + [artifacts[k]] else Counted(keeps, artifacts[..k])
  {
    assert artifacts[..k + 1][..k] == artifacts[..k];
  }

  lemma AddedCounts(counted: seq<Artifact>, a: Artifact)
    ensures CountResults(counted + [a])
            == if ValidEvidence(a).Some? then Plus(CountResults(counted), ValidEvidence(a).value.result) else CountResults(counted)
    ensures Latest(counted + [a])
            == if Latest(counted).None? || a.createdAt > Latest(counted).value then Some(a.createdAt) else Latest(counted)
  {
    assert (counted + [a])[..|counted|] == counted;
  }

  lemma TotalAdded(counted: seq<Artifact>, a: Artifact)
    ensures Total(CountResults(counted + [a])) == Total(CountResults(counted)) + if ValidEvidence(a).Some? then 1 else 0
  {
    AddedCounts(counted, a);
    if ValidEvidence(a).Some? {
      PlusTotal(CountResults(counted), ValidEvidence(a).value.result);
    }
  }

  lemma ResultAdded(counted: seq<Artifact>, a: Artifact, r: VerificationResult)
    ensures CountOf(CountResults(counted + [a]), r)
            == CountOf(CountResults(counted), r) + if ValidEvidence(a).Some? && ValidEvidence(a).value.result == r then 1 else 0
  {
    AddedCounts(counted, a);
    if ValidEvidence(a).Some? {
      PlusCounts(CountResults(counted), ValidEvidence(a).value.result, r);
    }
  }

  lemma DoneStepsNext(steps: seq<Step>, s: Step)
    ensures DoneSteps(steps + [s]) == if s.status.Done? then DoneSteps(steps) + [s] else DoneSteps(steps)
  {
    assert (steps + [s])[..|steps|] == steps;
  }

  lemma StepsNext(plans: seq<Plan>, k: nat)
    requires k < |plans|
    ensures StepsOf(plans[..k + 1]) == StepsOf(plans[..k]) + plans[k].steps
  {
    assert plans[..k + 1][..k] == plans[..k];
  }

  datatype Tally = Tally(evidenceCount: nat, lastRecordedAt: Option<int>, typedEvidenceCount: nat, resultCounts: ResultCounts)

  function TallyOf(counted: seq<Artifact>): Tally {
    Tally(|counted|, Latest(counted), Total(CountResults(counted)), CountResults(counted))
  }

  /** What the loop does with one more artifact that counts. */
  method TallyOne(t: Tally, a: Artifact, ghost counted: seq<Artifact>) returns (r: Tally)
    requires t == TallyOf(counted)
    ensures r == TallyOf(counted + [a])
  {
    AddedCounts(counted, a);
    TotalAdded(counted, a);
    r := t.(evidenceCount := t.evidenceCount + 1);
    var evidence := ValidEvidence(a);
    if evidence.Some? {
      r := r.(typedEvidenceCount := r.typedEvidenceCount + 1, resultCounts := Plus(r.resultCounts, evidence.value.result));
    }
    if r.lastRecordedAt.None? || a.createdAt > r.lastRecordedAt.value {
      r := r.(lastRecordedAt := Some(a.createdAt));
    }
  }

  /** The first loop of `buildVerificationStatusSummary`. */
  method CountEvidence(keeps: Artifact -> bool, artifacts: seq<Artifact>) returns (t: Tally)
    ensures t == TallyOf(Counted(keeps, artifacts))
  {
    t := Tally(0, None, 0, NO_RESULTS);
    for k := 0 to |artifacts|
      invariant t == TallyOf(Counted(keeps, artifacts[..k]))
    {
      CountedNext(keeps, artifacts, k);
      if keeps(artifacts[k]) {
        t := TallyOne(t, artifacts[k], Counted(keeps, artifacts[..k]));
      }
    }
    assert artifacts[..|artifacts|] == artifacts;
  }

  /** The second: the steps of the plans. */
  method CountSteps(plans: seq<Plan>) returns (doneStepCount: nat, totalStepCount: nat)
    ensures doneStepCount == |DoneSteps(StepsOf(plans))| && totalStepCount == |StepsOf(plans)|
  {
    doneStepCount, totalStepCount := 0, 0;
    ghost var seen := [];
    for k := 0 to |plans|
      invariant seen == StepsOf(plans[..k])
      invariant doneStepCount == |DoneSteps(seen)| && totalStepCount == |seen|
    {
      var steps := plans[k].steps;
      ghost var before := seen;
      for j := 0 to |steps|
        invariant seen == before + steps[..j]
        invariant doneStepCount == |DoneSteps(seen)| && totalStepCount == |seen|
      {
        DoneStepsNext(seen, steps[j]);
        seen := seen + [steps[j]];
        totalStepCount := totalStepCount + 1;
        if steps[j].status.Done? {
          doneStepCount := doneStepCount + 1;
        }
      }
      StepsNext(plans, k);
      assert steps[..|steps|] == steps;
    }
    assert plans[..|plans|] == plans;
  }

  method BuildVerificationStatusSummary(x: Input) returns (s: Summary)
    ensures s == SummaryOf(x)
  {
    var t := CountEvidence(Keeps(x.teams), x.artifacts);
    var doneStepCount, totalStepCount := CountSteps(x.plans);
    return Summary(t.evidenceCount, t.lastRecordedAt, doneStepCount, totalStepCount,
                   if t.typedEvidenceCount == 0 then None else Some(t.resultCounts));
  }

  // ---- The detailed view ----

  /** `find`: the first slot with the id. */
  function SlotById(slots: seq<Slot>, id: Text): Option<Slot> {
    if slots == [] then None else if slots[0].id == id then Some(slots[0]) else SlotById(slots[1..], id)
  }

  ghost predicate FirstSlot(slots: seq<Slot>, id: Text, s: Slot) {
    exists k :: 0 <= k < |slots| && slots[k] == s && s.id == id && forall i :: 0 <= i < k ==> slots[i].id != id
  }

  lemma {:induction false} SlotByIdExactly(slots: seq<Slot>, id: Text)
    ensures SlotById(slots, id).Some? <==> exists k :: 0 <= k < |slots| && slots[k].id == id
    ensures SlotById(slots, id).Some? ==> FirstSlot(slots, id, SlotById(slots, id).value)
  {
    if slots != [] && slots[0].id != id {
      var rest := slots[1..];
      SlotByIdExactly(rest, id);
      assert forall i :: 0 < i < |slots| ==> slots[i] == rest[i - 1];
      if SlotById(rest, id).Some? {
        var k :| 0 <= k < |rest| && rest[k] == SlotById(rest, id).value && rest[k].id == id
                 && forall i :: 0 <= i < k ==> rest[i].id != id;
        assert slots[k + 1] == rest[k];
      }
    }
  }

  /** The last step with the id. */
  function StepById(steps: seq<Step>, id: Text): Option<Step>
    decreases |steps|
  {
    if steps == [] then None
    else if steps[|steps| - 1].id == id then Some(steps[|steps| - 1])
    else StepById(steps[..|steps| - 1], id)
  }

  ghost predicate LastStep(steps: seq<Step>, id: Text, s: Step) {
    exists k :: 0 <= k < |steps| && steps[k] == s && s.id == id && forall i :: k < i < |steps| ==> steps[i].id != id
  }

  lemma {:induction false} StepByIdExactly(steps: seq<Step>, id: Text)
    ensures StepById(steps, id).Some? <==> exists k :: 0 <= k < |steps| && steps[k].id == id
    ensures StepById(steps, id).Some? ==> LastStep(steps, id, StepById(steps, id).value)
    decreases |steps|
  {
    if steps != [] && steps[|steps| - 1].id != id {
      var front := steps[..|steps| - 1];
      StepByIdExactly(front, id);
      if StepById(front, id).Some? {
        var k :| 0 <= k < |front| && front[k] == StepById(front, id).value && front[k].id == id
                 && forall i :: k < i < |front| ==> front[i].id != id;
        assert steps[k] == front[k];
        assert forall i :: k < i < |front| ==> steps[i] == front[i];
      }
    }
  }

  function SlotOf(x: Input, a: Artifact): Option<Slot> {
    var team := TeamById(x.teams, a.teamId);
    if team.None? then None else SlotById(team.value.slots, a.slotId)
  }

  function RecordOf(x: Input, a: Artifact): Record {
    var slot := SlotOf(x, a);
    var step := StepById(StepsOf(x.plans), a.planStepId);
    Record(a.planStepId,
           if slot.Some? then Some(slot.value.stepIndex) else None,
           if step.Some? then step.value.intent else a.summary,
           if slot.Some? then Some(slot.value.status) else None,
           Recorded, Notes(a), ValidEvidence(a), Some(a.teamId), Some(a.slotId), Some(a.createdAt))
  }

  function RecordsOf(x: Input, counted: seq<Artifact>): seq<Record>
    decreases |counted|
  {
    if counted == [] then [] else RecordsOf(x, counted[..|counted| - 1]) + [RecordOf(x, counted[|counted| - 1])]
  }

  const COLON: CodeUnit := 58

  /** The key that breaks ties between records of the same time. */
  function TieKey(r: Record): Text {
    OrElse(r.teamId, []) + [COLON] + OrElse(r.slotId, []) + [COLON] + r.stepId
  }

  /** `compare(a, b) > 0`. `localeCompare` compares collation keys, which `collate` gives. */
  predicate Later(collate: Text -> Text, a: Record, b: Record) {
    var s, t := OrElse(a.createdAt, 0), OrElse(b.createdAt, 0);
    s < t || (s == t && Less(collate(TieKey(b)), collate(TieKey(a))))
  }

  function Insert(collate: Text -> Text, e: Record, s: seq<Record>): (r: seq<Record>)
    ensures multiset(r) == multiset{e} + multiset(s)
  {
    if s == [] || !Later(collate, e, s[0]) then [e] + s
    else
      assert s == [s[0]] + s[1..];
      [s[0]] + Insert(collate, e, s[1..])
  }

  /** The stable sort of the records, newest first. */
  function Sorted(collate: Text -> Text, s: seq<Record>): (r: seq<Record>)
    ensures multiset(r) == multiset(s)
  {
    if s == [] then []
    else
      assert s == [s[0]] + s[1..];
      Insert(collate, s[0], Sorted(collate, s[1..]))
  }

  function StepRecord(s: Step): Record {
    Record(s.id, Some(s.index), s.intent, Some(s.status), Unavailable, None, None, None, None, None)
  }

  function Fallback(steps: seq<Step>): seq<Record>
    decreases |steps|
  {
    if steps == [] then []
    else
      var n := |steps| - 1;
      if steps[n].status.Done? then Fallback(steps[..n]) + [StepRecord(steps[n])] else Fallback(steps[..n])
  }

  function ViewOf(collate: Text -> Text, x: Input): View {
    var records := RecordsOf(x, Counted(Keeps(x.teams), x.artifacts));
    if records != [] then View(Sorted(collate, records), Recorded, SummaryOf(x))
    else View(Fallback(StepsOf(x.plans)), Unavailable, SummaryOf(x))
  }

  lemma RecordsNext(x: Input, counted: seq<Artifact>, a: Artifact)
    ensures RecordsOf(x, counted + [a]) == RecordsOf(x, counted) + [RecordOf(x, a)]
  {
    assert (counted + [a])[..|counted|] == counted;
  }

  lemma FallbackNext(steps: seq<Step>, s: Step)
    ensures Fallback(steps + [s])
            == if s.status.Done? then Fallback(steps) + [StepRecord(s)] else Fallback(steps)
  {
    assert (steps + [s])[..|steps|] == steps;
  }

  lemma TakeNext<T>(s: seq<T>, k: nat)
    requires k < |s|
    ensures s[..k + 1] == s[..k] + [s[k]]
  {
  }

  lemma TakeAll<T>(s: seq<T>)
    ensures s[..|s|] == s
  {
  }

  /** The inner loop: the done steps of one more plan. */
  method FallbackOfPlan(steps: seq<Step>, records: seq<Record>, ghost seen: seq<Step>) returns (r: seq<Record>)
    requires records == Fallback(seen)
    ensures r == Fallback(seen + steps)
  {
    r := records;
    ghost var now := seen;
    for j := 0 to |steps|
      invariant now == seen + steps[..j] && r == Fallback(now)
    {
      FallbackNext(now, steps[j]);
      TakeNext(steps, j);
      now := now + [steps[j]];
      if steps[j].status.Done? {
        r := r + [StepRecord(steps[j])];
      }
    }
    TakeAll(steps);
  }

  method FallbackRecords(plans: seq<Plan>) returns (records: seq<Record>)
    ensures records == Fallback(StepsOf(plans))
  {
    records := [];
    for k := 0 to |plans|
      invariant records == Fallback(StepsOf(plans[..k]))
    {
      StepsNext(plans, k);
      records := FallbackOfPlan(plans[k].steps, records, StepsOf(plans[..k]));
    }
    TakeAll(plans);
  }

  method ArtifactRecords(x: Input, keeps: Artifact -> bool) returns (records: seq<Record>)
    ensures records == RecordsOf(x, Counted(keeps, x.artifacts))
  {
    records := [];
    for k := 0 to |x.artifacts|
      invariant records == RecordsOf(x, Counted(keeps, x.artifacts[..k]))
    {
      CountedNext(keeps, x.artifacts, k);
      if keeps(x.artifacts[k]) {
        RecordsNext(x, Counted(keeps, x.artifacts[..k]), x.artifacts[k]);
        records := records + [RecordOf(x, x.artifacts[k])];
      }
    }
    assert x.artifacts[..|x.artifacts|] == x.artifacts;
  }

  method BuildHarnessVerification(collate: Text -> Text, x: Input) returns (v: View)
    ensures v == ViewOf(collate, x)
  {
    var summary := BuildVerificationStatusSummary(x);
    var artifactRecords := ArtifactRecords(x, Keeps(x.teams));
    if |artifactRecords| > 0 {
      return View(Sorted(collate, artifactRecords), Recorded, summary);
    }
    var records := FallbackRecords(x.plans);
    return View(records, Unavailable, summary);
  }

  // ---- The two agree ----

  /** The records are the artifacts that count, one by one. */
  lemma {:induction false} RecordsMatch(x: Input, counted: seq<Artifact>)
    ensures |RecordsOf(x, counted)| == |counted|
    ensures forall k :: 0 <= k < |counted| ==> RecordsOf(x, counted)[k] == RecordOf(x, counted[k])
    decreases |counted|
  {
    if counted != [] {
      RecordsMatch(x, counted[..|counted| - 1]);
    }
  }

  /** The number of records with a given result. */
  function WithResult(records: seq<Record>, r: VerificationResult): nat {
    if records == [] then 0
    else (if records[0].evidence.Some? && records[0].evidence.value.result == r then 1 else 0) + WithResult(records[1..], r)
  }

  function WithEvidence(records: seq<Record>): nat {
    if records == [] then 0 else (if records[0].evidence.Some? then 1 else 0) + WithEvidence(records[1..])
  }

  lemma {:induction false} WithResultAppend(records: seq<Record>, e: Record, r: VerificationResult)
    ensures WithResult(records + [e], r)
            == WithResult(records, r) + if e.evidence.Some? && e.evidence.value.result == r then 1 else 0
  {
    if records != [] {
      assert (records + [e])[1..] == records[1..] + [e];
      WithResultAppend(records[1..], e, r);
    }
  }

  lemma {:induction false} WithEvidenceAppend(records: seq<Record>, e: Record)
    ensures WithEvidence(records + [e]) == WithEvidence(records) + if e.evidence.Some? then 1 else 0
  {
    if records != [] {
      assert (records + [e])[1..] == records[1..] + [e];
      WithEvidenceAppend(records[1..], e);
    }
  }

  lemma {:induction false} CountsMatch(x: Input, counted: seq<Artifact>, r: VerificationResult)
    ensures CountOf(CountResults(counted), r) == WithResult(RecordsOf(x, counted), r)
    ensures Total(CountResults(counted)) == WithEvidence(RecordsOf(x, counted))
    decreases |counted|
  {
    if counted != [] {
      var n := |counted| - 1;
      CountsMatch(x, counted[..n], r);
      TotalAdded(counted[..n], counted[n]);
      ResultAdded(counted[..n], counted[n], r);
      assert counted[..n] + [counted[n]] == counted;
      WithResultAppend(RecordsOf(x, counted[..n]), RecordOf(x, counted[n]), r);
      WithEvidenceAppend(RecordsOf(x, counted[..n]), RecordOf(x, counted[n]));
    }
  }

  lemma {:induction false} InsertCounts(collate: Text -> Text, e: Record, s: seq<Record>, r: VerificationResult)
    ensures WithResult(Insert(collate, e, s), r)
            == WithResult(s, r) + if e.evidence.Some? && e.evidence.value.result == r then 1 else 0
    ensures WithEvidence(Insert(collate, e, s)) == WithEvidence(s) + if e.evidence.Some? then 1 else 0
  {
    if s == [] || !Later(collate, e, s[0]) {
      assert ([e] + s)[1..] == s;
    } else {
      InsertCounts(collate, e, s[1..], r);
      assert ([s[0]] + Insert(collate, e, s[1..]))[1..] == Insert(collate, e, s[1..]);
    }
  }

  lemma {:induction false} SortedCounts(collate: Text -> Text, s: seq<Record>, r: VerificationResult)
    ensures WithResult(Sorted(collate, s), r) == WithResult(s, r)
    ensures WithEvidence(Sorted(collate, s)) == WithEvidence(s)
  {
    if s != [] {
      SortedCounts(collate, s[1..], r);
      InsertCounts(collate, s[0], Sorted(collate, s[1..]), r);
    }
  }

  ghost predicate NewestFirst(collate: Text -> Text, s: seq<Record>) {
    forall i, j :: 0 <= i < j < |s| ==> !Later(collate, s[i], s[j])
  }

  lemma NotLaterTransitive(collate: Text -> Text, a: Record, b: Record, c: Record)
    requires !Later(collate, a, b) && !Later(collate, b, c)
    ensures !Later(collate, a, c)
  {
    var k, l, m := collate(TieKey(a)), collate(TieKey(b)), collate(TieKey(c));
    if OrElse(a.createdAt, 0) == OrElse(b.createdAt, 0) == OrElse(c.createdAt, 0) {
      NotGreaterTransitive(k, l, m);
    }
  }

  lemma LaterTotal(collate: Text -> Text, a: Record, b: Record)
    ensures !Later(collate, a, b) || !Later(collate, b, a)
  {
    LessTotal(collate(TieKey(a)), collate(TieKey(b)));
  }

  lemma {:induction false} InsertNewestFirst(collate: Text -> Text, e: Record, s: seq<Record>)
    requires NewestFirst(collate, s)
    ensures NewestFirst(collate, Insert(collate, e, s))
  {
    if s == [] {
    } else if !Later(collate, e, s[0]) {
      forall j | 0 <= j < |s| ensures !Later(collate, e, s[j]) {
        if j > 0 { NotLaterTransitive(collate, e, s[0], s[j]); }
      }
    } else {
      InsertNewestFirst(collate, e, s[1..]);
      var r := Insert(collate, e, s[1..]);
      LaterTotal(collate, s[0], e);
      forall j | 0 <= j < |r| ensures !Later(collate, s[0], r[j]) {
        assert r[j] in multiset(r);
        if r[j] != e {
          assert r[j] in s[1..];
        }
      }
    }
  }

  lemma {:induction false} SortedNewestFirst(collate: Text -> Text, s: seq<Record>)
    ensures NewestFirst(collate, Sorted(collate, s))
  {
    if s != [] {
      SortedNewestFirst(collate, s[1..]);
      InsertNewestFirst(collate, s[0], Sorted(collate, s[1..]));
    }
  }

  lemma {:induction false} LatestIsMaximum(counted: seq<Artifact>)
    requires counted != []
    ensures Latest(counted).Some?
    ensures forall k :: 0 <= k < |counted| ==> counted[k].createdAt <= Latest(counted).value
    ensures exists k :: 0 <= k < |counted| && counted[k].createdAt == Latest(counted).value
    decreases |counted|
  {
    var n := |counted| - 1;
    if n > 0 {
      LatestIsMaximum(counted[..n]);
      var j :| 0 <= j < n && counted[..n][j].createdAt == Latest(counted[..n]).value;
      assert counted[j].createdAt == Latest(counted[..n]).value;
      forall k | 0 <= k < |counted| ensures counted[k].createdAt <= Latest(counted).value {
        if k < n { assert counted[k] == counted[..n][k]; }
      }
    }
    assert counted[n].createdAt == Latest(counted).value || n > 0;
  }

  /** The summary's time is that of the first record shown. */
  lemma LastRecordedIsFirstShown(collate: Text -> Text, x: Input)
    requires ViewOf(collate, x).status == Recorded
    ensures ViewOf(collate, x).records != [] && ViewOf(collate, x).records[0].createdAt == SummaryOf(x).lastRecordedAt
  {
    var counted := Counted(Keeps(x.teams), x.artifacts);
    var records := RecordsOf(x, counted);
    var shown := Sorted(collate, records);
    RecordsMatch(x, counted);
    LatestIsMaximum(counted);
    SortedNewestFirst(collate, records);
    assert |multiset(shown)| == |multiset(records)|;
    FirstShownTime(collate, records, shown, Latest(counted).value);
  }

  lemma FirstShownTime(collate: Text -> Text, records: seq<Record>, shown: seq<Record>, latest: int)
    requires multiset(shown) == multiset(records) && shown != [] && NewestFirst(collate, shown)
    requires forall k :: 0 <= k < |records| ==> records[k].createdAt.Some? && records[k].createdAt.value <= latest
    requires exists k :: 0 <= k < |records| && records[k].createdAt == Some(latest)
    ensures shown[0].createdAt == Some(latest)
  {
    assert shown[0] in multiset(records);
    var k :| 0 <= k < |records| && records[k].createdAt == Some(latest);
    assert records[k] in multiset(shown);
    var j :| 0 <= j < |shown| && shown[j] == records[k];
    if j > 0 {
      assert !Later(collate, shown[0], shown[j]);
    }
  }

  lemma {:induction false} FallbackCount(steps: seq<Step>)
    ensures |Fallback(steps)| == |DoneSteps(steps)|
    decreases |steps|
  {
    if steps != [] {
      FallbackCount(steps[..|steps| - 1]);
    }
  }

  /** The summary agrees with the view: the status says whether there is evidence, the counts are those of the records shown,
      result by result, and the results are left out exactly when no record carries evidence. */
  lemma SummaryAgreesWithView(collate: Text -> Text, x: Input, r: VerificationResult)
    ensures var v, s := ViewOf(collate, x), SummaryOf(x);
            && v.summary == s
            && (v.status == Recorded <==> s.evidenceCount > 0)
            && |v.records| == (if s.evidenceCount > 0 then s.evidenceCount else s.doneStepCount)
            && (s.resultCounts.None? <==> WithEvidence(v.records) == 0)
            && (s.resultCounts.Some? ==> CountOf(s.resultCounts.value, r) == WithResult(v.records, r)
                                         && Total(s.resultCounts.value) == WithEvidence(v.records))
            && (s.lastRecordedAt.None? <==> s.evidenceCount == 0)
  {
    var counted := Counted(Keeps(x.teams), x.artifacts);
    var records := RecordsOf(x, counted);
    RecordsMatch(x, counted);
    CountsMatch(x, counted, r);
    FallbackCount(StepsOf(x.plans));
    if records != [] {
      SortedCounts(collate, records, r);
      assert |multiset(Sorted(collate, records))| == |multiset(records)|;
      LatestIsMaximum(counted);
    } else {
      NoEvidence(StepsOf(x.plans));
    }
  }

  lemma {:induction false} NoEvidence(steps: seq<Step>)
    ensures WithEvidence(Fallback(steps)) == 0
    decreases |steps|
  {
    if steps != [] {
      NoEvidence(steps[..|steps| - 1]);
      WithEvidenceAppend(Fallback(steps[..|steps| - 1]), StepRecord(steps[|steps| - 1]));
    }
  }

  // ---- What is shown, artifact by artifact and step by step ----

  /** The artifact is evidence: it has notes that are not blank or a result the program knows, and its team is in the list. */
  ghost predicate IsEvidence(x: Input, a: Artifact) {
    && (|| (a.notes.Some? && Trim(a.notes.value) != [])
        || (a.evidence.Some? && a.evidence.value.result in {Passed, VerificationResult.Failed, Skipped, Errored, Unknown}))
    && exists k :: 0 <= k < |x.teams| && x.teams[k].id == a.teamId
  }

  lemma {:induction false} CountedOccurrences(keeps: Artifact -> bool, artifacts: seq<Artifact>, a: Artifact)
    ensures multiset(Counted(keeps, artifacts))[a] == if keeps(a) then multiset(artifacts)[a] else 0
    decreases |artifacts|
  {
    if artifacts != [] {
      var n := |artifacts| - 1;
      CountedOccurrences(keeps, artifacts[..n], a);
      assert artifacts == artifacts[..n] + [artifacts[n]];
    }
  }

  /** The artifacts that count are those that are evidence, each as often as it is there. */
  lemma CountedExactly(x: Input, a: Artifact)
    ensures multiset(Counted(Keeps(x.teams), x.artifacts))[a] == if IsEvidence(x, a) then multiset(x.artifacts)[a] else 0
  {
    CountedOccurrences(Keeps(x.teams), x.artifacts, a);
    TeamByIdExactly(x.teams, a.teamId);
    assert Keeps(x.teams)(a) <==> IsEvidence(x, a);
  }

  /** The slot, if any, and the step, if any, that the artifact is about, as the record shows them: the first slot with its id in
      the last team with its id, and the last step with its id. */
  ghost predicate Places(x: Input, a: Artifact, r: Record) {
    && (r.stepIndex.Some? <==> r.stepStatus.Some?)
    && (r.stepIndex.Some? ==>
          exists t, s :: LastTeam(x.teams, a.teamId, t) && FirstSlot(t.slots, a.slotId, s)
                         && r.stepIndex == Some(s.stepIndex) && r.stepStatus == Some(s.status))
    && (r.stepIndex.None? ==> forall t :: LastTeam(x.teams, a.teamId, t) ==> forall i :: 0 <= i < |t.slots| ==> t.slots[i].id != a.slotId)
    && (|| (exists s :: LastStep(StepsOf(x.plans), a.planStepId, s) && r.stepIntent == s.intent)
        || ((forall i :: 0 <= i < |StepsOf(x.plans)| ==> StepsOf(x.plans)[i].id != a.planStepId) && r.stepIntent == a.summary))
  }

  ghost predicate Records(x: Input, a: Artifact, r: Record) {
    && r.stepId == a.planStepId && r.harness == Recorded
    && r.teamId == Some(a.teamId) && r.slotId == Some(a.slotId) && r.createdAt == Some(a.createdAt)
    && r.notes == (if a.notes.Some? && Trim(a.notes.value) != [] then Some(Trim(a.notes.value)) else None)
    && r.evidence == (if a.evidence.Some? && a.evidence.value.result.Unrecognised? then None else a.evidence)
    && Places(x, a, r)
  }

  lemma OneLastTeam(teams: seq<Team>, id: Text, t: Team, u: Team)
    requires LastTeam(teams, id, t) && LastTeam(teams, id, u)
    ensures t == u
  {
  }

  lemma SlotPlaces(x: Input, a: Artifact)
    ensures Places(x, a, RecordOf(x, a))
  {
    var team, r := TeamById(x.teams, a.teamId), RecordOf(x, a);
    TeamByIdExactly(x.teams, a.teamId);
    if team.Some? {
      forall t | LastTeam(x.teams, a.teamId, t) ensures t == team.value {
        OneLastTeam(x.teams, a.teamId, t, team.value);
      }
      SlotByIdExactly(team.value.slots, a.slotId);
    }
    StepByIdExactly(StepsOf(x.plans), a.planStepId);
  }

  /** With evidence: every record shown is that of an artifact that is evidence, and every such artifact has its record. */
  lemma EveryRecordIsEvidence(collate: Text -> Text, x: Input, r: Record) returns (a: Artifact)
    requires ViewOf(collate, x).status == Recorded && r in ViewOf(collate, x).records
    ensures a in x.artifacts && IsEvidence(x, a) && Records(x, a, r)
  {
    var counted := Counted(Keeps(x.teams), x.artifacts);
    RecordsMatch(x, counted);
    assert r in multiset(Sorted(collate, RecordsOf(x, counted)));
    assert r in RecordsOf(x, counted);
    var k: nat :| k < |counted| && RecordsOf(x, counted)[k] == r;
    a := counted[k];
    CountedExactly(x, a);
    assert a in multiset(counted) && a in multiset(x.artifacts);
    SlotPlaces(x, a);
  }

  lemma EveryEvidenceIsRecorded(collate: Text -> Text, x: Input, a: Artifact) returns (r: Record)
    requires a in x.artifacts && IsEvidence(x, a)
    ensures ViewOf(collate, x).status == Recorded && r in ViewOf(collate, x).records && Records(x, a, r)
  {
    CountedExactly(x, a);
    assert a in multiset(x.artifacts);
    assert a in multiset(Counted(Keeps(x.teams), x.artifacts));
    CountedIsShown(collate, x, Counted(Keeps(x.teams), x.artifacts), a);
    SlotPlaces(x, a);
    assert IsEvidence(x, a) && Records(x, a, RecordOf(x, a));
    r := RecordOf(x, a);
  }

  lemma CountedIsShown(collate: Text -> Text, x: Input, counted: seq<Artifact>, a: Artifact)
    requires a in counted
    ensures RecordsOf(x, counted) != [] && RecordOf(x, a) in Sorted(collate, RecordsOf(x, counted))
  {
    RecordsMatch(x, counted);
    var k: nat :| k < |counted| && counted[k] == a;
    assert RecordsOf(x, counted)[k] in multiset(RecordsOf(x, counted));
    assert RecordOf(x, a) in multiset(Sorted(collate, RecordsOf(x, counted)));
  }

  /** The records stand newest first, and those of the same time by team, slot and step, as they are collated. */
  lemma ShownInOrder(collate: Text -> Text, x: Input, i: nat, j: nat)
    requires ViewOf(collate, x).status == Recorded && i < j < |ViewOf(collate, x).records|
    ensures var a, b := ViewOf(collate, x).records[i], ViewOf(collate, x).records[j];
            && a.createdAt.Some? && b.createdAt.Some? && a.createdAt.value >= b.createdAt.value
            && (a.createdAt == b.createdAt ==>
                  && a.teamId.Some? && a.slotId.Some? && b.teamId.Some? && b.slotId.Some?
                  && !Less(collate(b.teamId.value + Ascii(":") + b.slotId.value + Ascii(":") + b.stepId),
                           collate(a.teamId.value + Ascii(":") + a.slotId.value + Ascii(":") + a.stepId)))
  {
    var shown := ViewOf(collate, x).records;
    SortedNewestFirst(collate, RecordsOf(x, Counted(Keeps(x.teams), x.artifacts)));
    var _ := EveryRecordIsEvidence(collate, x, shown[i]);
    var _ := EveryRecordIsEvidence(collate, x, shown[j]);
    assert !Later(collate, shown[i], shown[j]);
    assert Ascii(":") == [COLON];
  }

  // The record, if it is neither before nor after this one.
  function IfTied(collate: Text -> Text, e: Record, r: Record): seq<Record> {
    if !Later(collate, e, r) && !Later(collate, r, e) then [r] else []
  }

  // The records that are neither before nor after this one, in order.
  function Tied(collate: Text -> Text, e: Record, s: seq<Record>): seq<Record> {
    if s == [] then [] else IfTied(collate, e, s[0]) + Tied(collate, e, s[1..])
  }

  lemma TiedCons(collate: Text -> Text, e: Record, r: Record, s: seq<Record>)
    ensures Tied(collate, e, [r] + s) == IfTied(collate, e, r) + Tied(collate, e, s)
  {
    assert ([r] + s)[1..] == s;
  }

  lemma {:induction false} InsertKeepsTied(collate: Text -> Text, e: Record, x: Record, s: seq<Record>)
    ensures Tied(collate, e, Insert(collate, x, s)) == IfTied(collate, e, x) + Tied(collate, e, s)
  {
    TiedCons(collate, e, x, s);
    if s != [] && Later(collate, x, s[0]) {
      InsertKeepsTied(collate, e, x, s[1..]);
      TiedCons(collate, e, s[0], Insert(collate, x, s[1..]));
      NotBothTied(collate, e, x, s[0]);
    }
  }

  lemma NotBothTied(collate: Text -> Text, e: Record, x: Record, y: Record)
    requires Later(collate, x, y)
    ensures IfTied(collate, e, x) == [] || IfTied(collate, e, y) == []
  {
    if !Later(collate, x, e) && !Later(collate, e, y) {
      NotLaterTransitive(collate, x, e, y);
    }
  }

  /** The sort is stable: records that the order does not tell apart stay as they were recorded. */
  lemma {:induction false} SortedStable(collate: Text -> Text, e: Record, s: seq<Record>)
    ensures Tied(collate, e, Sorted(collate, s)) == Tied(collate, e, s)
  {
    if s != [] {
      SortedStable(collate, e, s[1..]);
      InsertKeepsTied(collate, e, s[0], Sorted(collate, s[1..]));
    }
  }

  // How many steps the first `k` plans have.
  function StepsBefore(plans: seq<Plan>, k: nat): nat
    requires k <= |plans|
  {
    if k == 0 then 0 else StepsBefore(plans, k - 1) + |plans[k - 1].steps|
  }

  /** The steps of the plans, one plan after the other. */
  lemma {:induction false} StepsInOrder(plans: seq<Plan>, n: nat, k: nat, j: nat)
    requires n <= |plans|
    ensures |StepsOf(plans[..n])| == StepsBefore(plans, n)
    ensures k < n && j < |plans[k].steps| ==>
              StepsBefore(plans, k) + j < StepsBefore(plans, n) && StepsOf(plans[..n])[StepsBefore(plans, k) + j] == plans[k].steps[j]
  {
    if n > 0 {
      StepsInOrder(plans, n - 1, k, j);
      StepsNext(plans, n - 1);
    }
  }

  /** The steps counted as done are those with that status, each as often as it is there. */
  lemma {:induction false} DoneExactly(steps: seq<Step>, s: Step)
    ensures multiset(DoneSteps(steps))[s] == if s.status == Done then multiset(steps)[s] else 0
    decreases |steps|
  {
    if steps != [] {
      var n := |steps| - 1;
      DoneExactly(steps[..n], s);
      assert steps == steps[..n] + [steps[n]];
    }
  }

  /** Without evidence the done steps are shown, one record each. */
  lemma {:induction false} FallbackExactly(steps: seq<Step>, k: nat)
    requires k < |DoneSteps(steps)|
    ensures |Fallback(steps)| == |DoneSteps(steps)|
    ensures var s := DoneSteps(steps)[k];
            Fallback(steps)[k] == Record(s.id, Some(s.index), s.intent, Some(s.status), Unavailable, None, None, None, None, None)
    decreases |steps|
  {
    var n := |steps| - 1;
    FallbackCount(steps);
    FallbackCount(steps[..n]);
    if k < |DoneSteps(steps[..n])| {
      FallbackExactly(steps[..n], k);
    }
  }
}
