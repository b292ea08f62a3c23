/** The pull inbox of the WorkBuddy executor: tasks are enqueued, claimed by polling workers, and closed
    by a result. */
module WorkBuddyInbox {
  import opened Wrappers
  import opened Texts
  import opened OrderedMaps

  datatype TaskStatus = Pending | Claimed | Returned | Failed

  datatype TaskInput = TaskInput(
    endpointId: Text,
    proposalId: Text,
    planId: Text,
    goalId: Text,
    bindingHash: Text,
    prompt: Text,
    workingDirectory: Text,
    timeoutMs: Option<int>)

  datatype Task = Task(
    taskId: Text,
    input: TaskInput,
    timeoutMs: int,
    createdAt: int,
    status: TaskStatus,
    claimedAt: Option<int>,
    returnedAt: Option<int>)

  /** What a worker reports; the adapter adds the id and the time. */
  datatype Report = Report(ok: bool, proposalId: Text, output: Text, failureReason: Option<Text>, durationMs: int)

  datatype TaskResult = TaskResult(taskId: Text, report: Report, returnedAt: int)

  datatype Inbox = Inbox(tasks: OrderedMap<Text, Task>, results: map<Text, TaskResult>)

  const DEFAULT_TIMEOUT_MS := 120_000

  const EMPTY_INBOX := Inbox(Empty(), map[])

  // ---- Calls on the inbox as a value ----

  function NewTask(taskId: Text, input: TaskInput, now: int): Task {
    Task(taskId, input, OrElse(input.timeoutMs, DEFAULT_TIMEOUT_MS), now, Pending, None, None)
  }

  function Enqueued(s: Inbox, taskId: Text, input: TaskInput, now: int): Inbox {
    s.(tasks := s.tasks.Put(taskId, NewTask(taskId, input, now)))
  }

  predicate Waiting(s: Inbox, id: Text, endpointId: Text) {
    id in s.tasks.entries && s.tasks.entries[id].input.endpointId == endpointId && s.tasks.entries[id].status == Pending
  }

  /** The earliest enqueued pending task of the endpoint. */
  function NextPending(s: Inbox, endpointId: Text, from: nat): (r: Option<Text>)
    requires from <= |s.tasks.order|
    ensures r.Some? ==> Waiting(s, r.value, endpointId) && r.value in s.tasks.order
    decreases |s.tasks.order| - from
  {
    if from == |s.tasks.order| then None
    else if Waiting(s, s.tasks.order[from], endpointId) then Some(s.tasks.order[from])
    else NextPending(s, endpointId, from + 1)
  }

  function ClaimedTask(s: Inbox, id: Text, now: int): Inbox
    requires id in s.tasks.entries
  {
    s.(tasks := s.tasks.Put(id, s.tasks.entries[id].(status := Claimed, claimedAt := Some(now))))
  }

  predicate Open(s: Inbox, taskId: Text) {
    taskId in s.tasks.entries && s.tasks.entries[taskId].status == Claimed
  }

  function Recorded(s: Inbox, taskId: Text, report: Report, now: int): Inbox
    requires Open(s, taskId)
  {
    Inbox(s.tasks.Put(taskId, s.tasks.entries[taskId].(status := if report.ok then Returned else Failed, returnedAt := Some(now))),
          s.results[taskId := TaskResult(taskId, report, now)])
  }

  // ---- Runs ----

  datatype InboxOp =
    | Enqueue(taskId: Text, input: TaskInput, now: int)
    | ClaimNext(endpointId: Text, now: int)
    | RecordResult(taskId: Text, report: Report, now: int)

  /** The inbox and the ids handed out by `claimNext`, in order. */
  datatype History = History(s: Inbox, claims: seq<Text>)

  const NOTHING_YET := History(EMPTY_INBOX, [])

  /** One call. Task ids are random, so an id is enqueued once. */
  function Step(h: History, op: InboxOp): History {
    match op
    case Enqueue(id, input, now) => if id in h.s.tasks.entries then h else h.(s := Enqueued(h.s, id, input, now))
    case ClaimNext(endpointId, now) =>
      (match NextPending(h.s, endpointId, 0)
       case None => h
       case Some(id) => History(ClaimedTask(h.s, id, now), h.claims + [id]))
    case RecordResult(id, report, now) => if Open(h.s, id) then h.(s := Recorded(h.s, id, report, now)) else h
  }

  function Run(h: History, ops: seq<InboxOp>): History
    decreases |ops|
  {
    if ops == [] then h else Run(Step(h, ops[0]), ops[1..])
  }

  // ---- What every run keeps ----

  ghost predicate InboxValid(s: Inbox) {
    && s.tasks.Valid()
    && (forall id :: id in s.tasks.entries ==> s.tasks.entries[id].taskId == id)
    // a result exists for exactly the closed tasks, and says how they closed
    && (forall id :: id in s.results ==> id in s.tasks.entries && s.results[id].taskId == id)
    && (forall id :: id in s.tasks.entries ==>
          (id in s.results <==> s.tasks.entries[id].status == Returned || s.tasks.entries[id].status == Failed))
    && (forall id :: id in s.results ==> (s.results[id].report.ok <==> s.tasks.entries[id].status == Returned))
  }

  ghost predicate SameEndpoint(s: Inbox, a: Text, b: Text) {
    a in s.tasks.entries && b in s.tasks.entries && s.tasks.entries[a].input.endpointId == s.tasks.entries[b].input.endpointId
  }

  predicate Taken(s: Inbox, id: Text) {
    id in s.tasks.entries && s.tasks.entries[id].status != Pending
  }

  /** Within an endpoint no task is taken before an earlier one. */
  ghost predicate TakenInOrder(s: Inbox) {
    forall i, j :: 0 <= i < j < |s.tasks.order| ==>
      (SameEndpoint(s, s.tasks.order[i], s.tasks.order[j]) && Taken(s, s.tasks.order[j]) ==> Taken(s, s.tasks.order[i]))
  }

  ghost predicate Before(order: seq<Text>, a: Text, b: Text) {
    exists i, j :: 0 <= i < j < |order| && order[i] == a && order[j] == b
  }

  /** The claims are the taken tasks, each once, and in enqueue order within an endpoint. */
  ghost predicate ClaimsInOrder(h: History) {
    && (forall id :: id in h.claims <==> Taken(h.s, id))
    && (forall i, j :: 0 <= i < j < |h.claims| ==> h.claims[i] != h.claims[j])
    && (forall i, j :: 0 <= i < j < |h.claims| && SameEndpoint(h.s, h.claims[i], h.claims[j]) ==>
                         Before(h.s.tasks.order, h.claims[i], h.claims[j]))
  }

  ghost predicate HistoryValid(h: History) {
    InboxValid(h.s) && TakenInOrder(h.s) && ClaimsInOrder(h)
  }

  lemma {:induction false} NextPendingIsFirst(s: Inbox, endpointId: Text, from: nat)
    requires from <= |s.tasks.order|
    ensures NextPending(s, endpointId, from).None? ==> forall i :: from <= i < |s.tasks.order| ==> !Waiting(s, s.tasks.order[i], endpointId)
    ensures NextPending(s, endpointId, from).Some? ==>
              exists k :: && from <= k < |s.tasks.order| && s.tasks.order[k] == NextPending(s, endpointId, from).value
                          && forall i :: from <= i < k ==> !Waiting(s, s.tasks.order[i], endpointId)
    decreases |s.tasks.order| - from
  {
    if from < |s.tasks.order| && !Waiting(s, s.tasks.order[from], endpointId) {
      NextPendingIsFirst(s, endpointId, from + 1);
    }
  }

  lemma EnqueueKeeps(h: History, id: Text, input: TaskInput, now: int)
    requires HistoryValid(h) && id !in h.s.tasks.entries
    ensures HistoryValid(h.(s := Enqueued(h.s, id, input, now)))
  {
    var h' := h.(s := Enqueued(h.s, id, input, now));
    assert h'.s.tasks.order == h.s.tasks.order + [id];
    assert forall x :: Taken(h'.s, x) <==> Taken(h.s, x);
    EnqueueKeepsOrder(h, h', id);
  }

  lemma EnqueueKeepsOrder(h: History, h': History, id: Text)
    requires HistoryValid(h) && id !in h.s.tasks.entries
    requires h'.claims == h.claims && h'.s.tasks.order == h.s.tasks.order + [id]
    requires forall x :: Taken(h'.s, x) <==> Taken(h.s, x)
    requires forall x, y :: x in h.s.tasks.entries && y in h.s.tasks.entries ==> (SameEndpoint(h'.s, x, y) <==> SameEndpoint(h.s, x, y))
    ensures TakenInOrder(h'.s) && ClaimsInOrder(h')
  {
    var o, o' := h.s.tasks.order, h'.s.tasks.order;
    forall i, j | 0 <= i < j < |o'| && SameEndpoint(h'.s, o'[i], o'[j]) && Taken(h'.s, o'[j]) ensures Taken(h'.s, o'[i]) {
      assert j < |o|;
      assert o[i] in o && o[j] in o;
    }
    forall i, j | 0 <= i < j < |h.claims| && SameEndpoint(h'.s, h.claims[i], h.claims[j])
      ensures Before(o', h.claims[i], h.claims[j])
    {
      assert h.claims[i] in h.claims && h.claims[j] in h.claims;
      assert Taken(h.s, h.claims[i]) && Taken(h.s, h.claims[j]);
      assert SameEndpoint(h.s, h.claims[i], h.claims[j]);
      var a, b :| 0 <= a < b < |o| && o[a] == h.claims[i] && o[b] == h.claims[j];
      assert o'[a] == o[a] && o'[b] == o[b];
    }
  }

  lemma ClaimKeeps(h: History, endpointId: Text, now: int)
    requires HistoryValid(h) && NextPending(h.s, endpointId, 0).Some?
    ensures HistoryValid(Step(h, ClaimNext(endpointId, now)))
  {
    var id := NextPending(h.s, endpointId, 0).value;
    var h' := Step(h, ClaimNext(endpointId, now));
    var o := h.s.tasks.order;
    NextPendingIsFirst(h.s, endpointId, 0);
    var k :| 0 <= k < |o| && o[k] == id && forall i :: 0 <= i < k ==> !Waiting(h.s, o[i], endpointId);
    assert h'.s.tasks.order == o;
    ClaimEffect(h.s, id, now);
    ClaimKeepsOrder(h, h', id, k);
  }

  lemma ClaimEffect(s: Inbox, id: Text, now: int)
    requires InboxValid(s) && id in s.tasks.entries && s.tasks.entries[id].status == Pending
    ensures InboxValid(ClaimedTask(s, id, now))
    ensures forall x :: Taken(ClaimedTask(s, id, now), x) <==> Taken(s, x) || x == id
    ensures forall x, y :: SameEndpoint(ClaimedTask(s, id, now), x, y) <==> SameEndpoint(s, x, y)
  {
  }

  lemma ClaimKeepsOrder(h: History, h': History, id: Text, k: nat)
    requires HistoryValid(h) && id in h.s.tasks.entries && h.s.tasks.entries[id].status == Pending
    requires h'.claims == h.claims + [id] && h'.s.tasks.order == h.s.tasks.order
    requires k < |h.s.tasks.order| && h.s.tasks.order[k] == id
    requires forall i :: 0 <= i < k ==> !Waiting(h.s, h.s.tasks.order[i], h.s.tasks.entries[id].input.endpointId)
    requires forall x :: Taken(h'.s, x) <==> Taken(h.s, x) || x == id
    requires forall x, y :: SameEndpoint(h'.s, x, y) <==> SameEndpoint(h.s, x, y)
    ensures TakenInOrder(h'.s) && ClaimsInOrder(h')
  {
    var o := h.s.tasks.order;
    forall i, j | 0 <= i < j < |o| && SameEndpoint(h'.s, o[i], o[j]) && Taken(h'.s, o[j]) ensures Taken(h'.s, o[i]) {
      if o[j] == id {
        assert j == k;
        assert o[i] in o;
      }
    }
    forall i, j | 0 <= i < j < |h'.claims| && SameEndpoint(h'.s, h'.claims[i], h'.claims[j])
      ensures Before(o, h'.claims[i], h'.claims[j])
    {
      assert h'.claims[i] == h.claims[i];
      if j == |h.claims| {
        var c := h.claims[i];
        assert c in h.claims;
        assert c in o;
        var a :| 0 <= a < |o| && o[a] == c;
        assert a < k by {
          if k < a {
            assert SameEndpoint(h.s, o[k], o[a]);
          }
        }
      }
    }
  }

  lemma RecordKeeps(h: History, id: Text, report: Report, now: int)
    requires HistoryValid(h) && Open(h.s, id)
    ensures HistoryValid(h.(s := Recorded(h.s, id, report, now)))
  {
    var s' := Recorded(h.s, id, report, now);
    RecordEffect(h.s, id, report, now);
    RecordKeepsTaken(h.s, id, report, now);
    assert s'.tasks.order == h.s.tasks.order;
  }

  lemma RecordEffect(s: Inbox, id: Text, report: Report, now: int)
    requires InboxValid(s) && Open(s, id)
    ensures InboxValid(Recorded(s, id, report, now))
  {
  }

  lemma RecordKeepsTaken(s: Inbox, id: Text, report: Report, now: int)
    requires InboxValid(s) && Open(s, id)
    ensures forall x :: Taken(Recorded(s, id, report, now), x) <==> Taken(s, x)
    ensures forall x, y :: SameEndpoint(Recorded(s, id, report, now), x, y) <==> SameEndpoint(s, x, y)
  {
  }

  lemma StepKeeps(h: History, op: InboxOp)
    requires HistoryValid(h)
    ensures HistoryValid(Step(h, op))
  {
    match op
    case Enqueue(id, input, now) => if id !in h.s.tasks.entries { EnqueueKeeps(h, id, input, now); }
    case ClaimNext(endpointId, now) => if NextPending(h.s, endpointId, 0).Some? { ClaimKeeps(h, endpointId, now); }
    case RecordResult(id, report, now) => if Open(h.s, id) { RecordKeeps(h, id, report, now); }
  }

  /** A closed task and its result are final; a task never leaves, and only its status and its later times change. */
  ghost predicate Final(s: Inbox, t: Inbox) {
    && (forall id :: id in s.results ==> id in t.results && t.results[id] == s.results[id] && id in s.tasks.entries
                                         && id in t.tasks.entries && t.tasks.entries[id] == s.tasks.entries[id])
    && s.tasks.order <= t.tasks.order
    && (forall id :: id in s.tasks.entries ==>
          && id in t.tasks.entries
          && t.tasks.entries[id].input == s.tasks.entries[id].input
          && t.tasks.entries[id].timeoutMs == s.tasks.entries[id].timeoutMs
          && t.tasks.entries[id].createdAt == s.tasks.entries[id].createdAt
          && (Taken(s, id) ==> Taken(t, id)))
  }

  lemma StepFinal(h: History, op: InboxOp)
    requires HistoryValid(h)
    ensures Final(h.s, Step(h, op).s) && h.claims <= Step(h, op).claims
  {
    match op
    case Enqueue(id, input, now) => if id !in h.s.tasks.entries { EnqueueFinal(h.s, id, input, now); }
    case ClaimNext(endpointId, now) =>
      var next := NextPending(h.s, endpointId, 0);
      if next.Some? { ClaimFinal(h.s, next.value, now); }
    case RecordResult(id, report, now) => if Open(h.s, id) { RecordFinal(h.s, id, report, now); }
  }

  lemma EnqueueFinal(s: Inbox, id: Text, input: TaskInput, now: int)
    requires InboxValid(s) && id !in s.tasks.entries
    ensures Final(s, Enqueued(s, id, input, now))
  {
  }

  lemma ClaimFinal(s: Inbox, id: Text, now: int)
    requires InboxValid(s) && id in s.tasks.entries && s.tasks.entries[id].status == Pending
    ensures Final(s, ClaimedTask(s, id, now))
  {
  }

  lemma RecordFinal(s: Inbox, id: Text, report: Report, now: int)
    requires InboxValid(s) && Open(s, id)
    ensures Final(s, Recorded(s, id, report, now))
  {
  }

  /** Under any interleaving of workers: within an endpoint tasks are claimed in enqueue order, each at most
      once; results exist for exactly the closed tasks; and what is closed stays as it is. */
  lemma {:induction false} EveryRun(h: History, ops: seq<InboxOp>)
    requires HistoryValid(h)
    ensures HistoryValid(Run(h, ops))
    ensures Final(h.s, Run(h, ops).s) && h.claims <= Run(h, ops).claims
    decreases |ops|
  {
    if ops != [] {
      StepKeeps(h, ops[0]);
      StepFinal(h, ops[0]);
      EveryRun(Step(h, ops[0]), ops[1..]);
      FinalTransitive(h.s, Step(h, ops[0]).s, Run(h, ops).s);
    }
  }

  lemma FinalTransitive(a: Inbox, b: Inbox, c: Inbox)
    requires Final(a, b) && Final(b, c)
    ensures Final(a, c)
  {
  }

  function CountStatus(s: Inbox, status: TaskStatus, n: nat): nat
    requires n <= |s.tasks.order|
  {
    if n == 0 then 0
    else
      var id := s.tasks.order[n - 1];
      CountStatus(s, status, n - 1) + if id in s.tasks.entries && s.tasks.entries[id].status == status then 1 else 0
  }

  lemma {:induction false} CountsAddUp(s: Inbox, n: nat)
    requires s.tasks.Valid() && n <= |s.tasks.order|
    ensures CountStatus(s, Pending, n) + CountStatus(s, Claimed, n) + CountStatus(s, Returned, n) + CountStatus(s, Failed, n) == n
  {
    if n > 0 {
      CountsAddUp(s, n - 1);
      assert s.tasks.order[n - 1] in s.tasks.order;
    }
  }

  /** Number of `enqueue` calls of the run that added a task. */
  function EnqueueCount(h: History, ops: seq<InboxOp>): nat
    decreases |ops|
  {
    if ops == [] then 0 else (if Enqueues(h, ops[0]) then 1 else 0) + EnqueueCount(Step(h, ops[0]), ops[1..])
  }

  predicate Enqueues(h: History, op: InboxOp) {
    op.Enqueue? && op.taskId !in h.s.tasks.entries
  }

  lemma OrderGrows(h: History, op: InboxOp)
    requires HistoryValid(h)
    ensures |Step(h, op).s.tasks.order| == |h.s.tasks.order| + if Enqueues(h, op) then 1 else 0
  {
  }

  lemma {:induction false} OrderGrowsByEnqueues(h: History, ops: seq<InboxOp>)
    requires HistoryValid(h)
    ensures |Run(h, ops).s.tasks.order| == |h.s.tasks.order| + EnqueueCount(h, ops)
    decreases |ops|
  {
    if ops != [] {
      StepKeeps(h, ops[0]);
      OrderGrows(h, ops[0]);
      OrderGrowsByEnqueues(Step(h, ops[0]), ops[1..]);
    }
  }

  /** No task is lost: pending, claimed, returned and failed tasks together are as many as were enqueued. */
  lemma Conservation(ops: seq<InboxOp>)
    ensures var s := Run(NOTHING_YET, ops).s;
            CountStatus(s, Pending, |s.tasks.order|) + CountStatus(s, Claimed, |s.tasks.order|)
            + CountStatus(s, Returned, |s.tasks.order|) + CountStatus(s, Failed, |s.tasks.order|)
            == EnqueueCount(NOTHING_YET, ops)
  {
    var s := Run(NOTHING_YET, ops).s;
    EveryRun(NOTHING_YET, ops);
    CountsAddUp(s, |s.tasks.order|);
    OrderGrowsByEnqueues(NOTHING_YET, ops);
  }

  // ---- The adapter ----

  /** No task before this one is pending for the endpoint. */
  ghost predicate FirstFor(tasks: OrderedMap<Text, Task>, id: Text, endpointId: Text) {
    exists k ::
      && 0 <= k < |tasks.order| && tasks.order[k] == id
      && forall i :: 0 <= i < k && tasks.order[i] in tasks.entries ==>
           tasks.entries[tasks.order[i]].input.endpointId != endpointId || tasks.entries[tasks.order[i]].status != Pending
  }

  class WorkBuddyExecutionAdapter {
    var tasks: OrderedMap<Text, Task>
    var results: map<Text, TaskResult>

    function State(): Inbox
      reads this
    {
      Inbox(tasks, results)
    }

    ghost predicate Valid()
      reads this
    {
      InboxValid(State())
    }

    constructor ()
      ensures Valid() && State() == EMPTY_INBOX
    {
      tasks := Empty();
      results := map[];
    }

    /** `taskId` is a random id, not used before. */
    method Enqueue(taskId: Text, input: TaskInput, now: int) returns (task: Task)
      requires Valid() && taskId !in tasks.entries
      modifies this
      ensures Valid() && State() == Enqueued(old(State()), taskId, input, now)
      ensures task.taskId == taskId && task.input == input && task.createdAt == now
      ensures task.timeoutMs == if input.timeoutMs.Some? then input.timeoutMs.value else DEFAULT_TIMEOUT_MS
      ensures task.status == Pending && task.claimedAt.None? && task.returnedAt.None?
      ensures tasks.order == old(tasks.order) + [taskId] && tasks.entries == old(tasks.entries)[taskId := task]
    {
      task := Task(taskId, input, OrElse(input.timeoutMs, DEFAULT_TIMEOUT_MS), now, Pending, None, None);
      tasks := tasks.Put(task.taskId, task);
    }

    method ClaimNext(endpointId: Text, now: int) returns (task: Option<Task>)
      requires Valid()
      modifies this
      ensures Valid()
      ensures task.None? <==> old(NextPending(State(), endpointId, 0)).None?
      ensures task.None? ==> State() == old(State())
      ensures task.Some? ==>
                && Some(task.value.taskId) == old(NextPending(State(), endpointId, 0))
                && State() == ClaimedTask(old(State()), task.value.taskId, now)
                && task.value == tasks.entries[task.value.taskId]
      // what is handed out is the first task of its endpoint that waits, and only its status and its time change
      ensures task.None? ==> forall id :: id in tasks.entries ==>
                               tasks.entries[id].input.endpointId != endpointId || tasks.entries[id].status != Pending
      ensures task.Some? ==> task.value.taskId in old(tasks.entries) && task.value.input.endpointId == endpointId
      ensures task.Some? ==> old(tasks.entries)[task.value.taskId].status == Pending
      ensures task.Some? ==> task.value == old(tasks.entries)[task.value.taskId].(status := Claimed, claimedAt := Some(now))
      ensures task.Some? ==> FirstFor(old(tasks), task.value.taskId, endpointId)
      ensures task.Some? ==> tasks.order == old(tasks.order) && tasks.entries == old(tasks.entries)[task.value.taskId := task.value]
    {
      for i := 0 to |tasks.order|
        invariant State() == old(State())
        invariant forall j :: 0 <= j < i ==> !Waiting(old(State()), tasks.order[j], endpointId)
        invariant NextPending(State(), endpointId, 0) == NextPending(State(), endpointId, i)
      {
        var id := tasks.order[i];
        assert id in tasks.order;
        var found := tasks.entries[id];
        if found.input.endpointId == endpointId && found.status == Pending {
          found := found.(status := Claimed);
          found := found.(claimedAt := Some(now));
          ClaimEffect(State(), id, now);
          assert FirstFor(tasks, id, endpointId);
          tasks := tasks.Put(found.taskId, found);
          return Some(found);
        }
      }
      return None;
    }

    method RecordResult(taskId: Text, report: Report, now: int) returns (result: Option<TaskResult>)
      requires Valid()
      modifies this
      ensures Valid()
      ensures result == if old(Open(State(), taskId)) then Some(TaskResult(taskId, report, now)) else None
      ensures State() == if old(Open(State(), taskId)) then Recorded(old(State()), taskId, report, now) else old(State())
      ensures result.Some? <==> taskId in old(tasks.entries) && old(tasks.entries)[taskId].status == Claimed
      ensures result.Some? ==> results == old(results)[taskId := TaskResult(taskId, report, now)] && tasks.order == old(tasks.order)
      ensures result.Some? ==>
                tasks.entries == old(tasks.entries)[
                  taskId := old(tasks.entries)[taskId].(status := if report.ok then Returned else Failed, returnedAt := Some(now))]
    {
      if taskId !in tasks.entries || tasks.entries[taskId].status != Claimed {
        return None;
      }
      var task := tasks.entries[taskId];
      var full := TaskResult(taskId, report, now);
      results := results[taskId := full];
      task := task.(status := if report.ok then Returned else Failed);
      task := task.(returnedAt := Some(now));
      tasks := tasks.Put(taskId, task);
      return Some(full);
    }
  }
}
