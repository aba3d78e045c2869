/** The scheduler: one pending task and every due periodic job per tick.  Tasks and
    jobs may submit tasks and schedule jobs while they run. */
module Scheduler {
  import opened Common
  import opened BinaryHeap
  import opened Table
  import opened Work
  import EventBus

  datatype Task = Task(priority: int, seqNo: nat, work: nat)

  predicate TaskLess(a: Task, b: Task) {
    if a.priority != b.priority then a.priority < b.priority else a.seqNo < b.seqNo
  }

  /** A job entry `[next_run, interval_ms, job]`; `id` is the identity of the list. */
  datatype Entry = Entry(id: nat, nextRun: real, interval: int, job: nat)

  function EntryId(e: Entry): nat {
    e.id
  }

  /** Lists compare field by field.  The last comparison, by identity, stands for the
      comparison of two callables. */
  predicate EntryLess(a: Entry, b: Entry) {
    if a.nextRun != b.nextRun then a.nextRun < b.nextRun
    else if a.interval != b.interval then a.interval < b.interval
    else a.id < b.id
  }

  /** A least task has the lowest priority number and, of those, was submitted first. */
  lemma LeastIsMostUrgent(x: Task, q: multiset<Task>)
    requires Least(x, q, TaskLess)
    ensures forall y :: y in q ==> x.priority < y.priority || (x.priority == y.priority && x.seqNo <= y.seqNo)
  {
  }

  lemma TaskLessOrders()
    ensures Orders(TaskLess)
  {
  }

  lemma EntryLessOrders()
    ensures Orders(EntryLess)
  {
  }

  type Jobs = map<nat, Entry>

  function Seconds(intervalMs: int): real {
    intervalMs as real / 1000.0
  }

  lemma SecondsAreThousandths(intervalMs: int)
    ensures 1000.0 * Seconds(intervalMs) == intervalMs as real
  {
  }

  function Rescheduled(e: Entry, now: real): Entry {
    e.(nextRun := now + Seconds(e.interval))
  }

  predicate Due(e: Entry, now: real) {
    e.nextRun <= now
  }

  ghost function DueIds(jobs: Jobs, now: real): set<nat> {
    set id | id in jobs && Due(jobs[id], now)
  }

  /** Well-formed job tables: filed by id, ids already handed out, intervals positive. */
  ghost predicate WellFormed(jobs: Jobs, lastId: nat) {
    Keyed(jobs, EntryId) && forall id :: id in jobs ==> id <= lastId && jobs[id].interval >= 1
  }

  /** What a task or a job does when it runs: the jobs it schedules, the tasks it submits,
      the events it publishes, each in order, and whether it raises. */
  datatype Effect = Effect(schedules: seq<Request>, tasks: seq<TaskRequest>,
                           published: seq<EventBus.Event>, raised: bool)

  /** The effect of a job may depend on how many jobs ran before it in the tick. */
  type Behaviour = (nat, Entry) -> Effect

  /** The clock never goes back: what a job reads while running is at least `now`. */
  ghost predicate Monotone(behave: Behaviour, now: real) {
    forall n: nat, e: Entry, k :: 0 <= k < |behave(n, e).schedules| ==> behave(n, e).schedules[k].at >= now
  }

  lemma MonotoneMeans(behave: Behaviour, now: real)
    ensures Monotone(behave, now) <==>
              forall n: nat, e: Entry, r: Request :: r in behave(n, e).schedules ==> r.at >= now
  {
    if forall n: nat, e: Entry, r: Request :: r in behave(n, e).schedules ==> r.at >= now {
      forall n: nat, e: Entry, k | 0 <= k < |behave(n, e).schedules| ensures behave(n, e).schedules[k].at >= now {
        assert behave(n, e).schedules[k] in behave(n, e).schedules;
      }
    }
  }

  /** What one tick at `now` does to the job table: exactly the due entries ran and are
      due again an interval later, the others stay, and whatever was added is not due. */
  ghost predicate TickStep(before: Jobs, now: real, ran: set<nat>, after: Jobs) {
    && ran == DueIds(before, now)
    && (forall id :: id in before ==>
                       id in after && after[id] == if id in ran then Rescheduled(before[id], now) else before[id])
    && (forall id :: id in after ==> after[id].nextRun > now)
  }

  // ---- the loop over due jobs ----

  /** The entries of `order` were due in the starting table; they are in strict order. */
  ghost predicate RanInOrder(start: Jobs, now: real, order: seq<Entry>) {
    && (forall k :: 0 <= k < |order| ==> order[k].id in start && order[k] == start[order[k].id] && Due(order[k], now))
    && (forall i, k :: 0 <= i < k < |order| ==> EntryLess(order[i], order[k]))
  }

  /** The table once exactly the entries of `order` have run. */
  ghost predicate TableAfter(start: Jobs, now: real, order: seq<Entry>, current: Jobs, firstId: nat) {
    && (forall id :: id in start ==>
                       id in current && current[id] ==
                         if start[id] in order then Rescheduled(start[id], now) else start[id])
    && (forall id :: id in current && id !in start ==> id > firstId && current[id].nextRun > now)
  }

  /** Half-way through the loop: besides, whatever is still due is greater than what ran. */
  ghost predicate Midway(start: Jobs, now: real, order: seq<Entry>, current: Jobs, lastId: nat, firstId: nat) {
    && firstId <= lastId && WellFormed(start, firstId) && WellFormed(current, lastId)
    && RanInOrder(start, now, order)
    && TableAfter(start, now, order, current, firstId)
    && (forall k, id :: 0 <= k < |order| && id in DueIds(current, now) ==> EntryLess(order[k], current[id]))
  }

  lemma NoneRan(jobs: Jobs, now: real, lastId: nat)
    requires WellFormed(jobs, lastId)
    ensures Midway(jobs, now, [], jobs, lastId, lastId)
  {
  }

  /** A due entry of the current table is an unrun entry of the starting one. */
  lemma StillDue(start: Jobs, now: real, order: seq<Entry>, current: Jobs, lastId: nat, firstId: nat, e: Entry)
    requires Midway(start, now, order, current, lastId, firstId)
    requires e.id in current && current[e.id] == e && Due(e, now)
    ensures e.id in start && start[e.id] == e && e !in order
  {
    assert forall id :: id in start ==> Seconds(start[id].interval) > 0.0;
  }

  /** The table after one turn: the entry put back, everything else kept, and new
      entries beyond `now`. */
  ghost predicate Turned(current: Jobs, now: real, e: Entry, next: Jobs, lastId: nat) {
    && e.id in next && next[e.id] == Rescheduled(e, now)
    && (forall id :: id in current && id != e.id ==> id in next && next[id] == current[id])
    && (forall id :: id in next && id !in current ==> id > lastId && next[id].nextRun > now)
  }

  lemma TurnedDue(current: Jobs, now: real, e: Entry, next: Jobs, lastId: nat)
    requires Turned(current, now, e, next, lastId)
    requires e.id in current && current[e.id] == e && e.interval >= 1
    ensures DueIds(next, now) == DueIds(current, now) - {e.id}
  {
    assert Seconds(e.interval) > 0.0;
  }

  /** Running the least due entry and putting it back keeps the loop going. */
  lemma RunLeast(start: Jobs, now: real, order: seq<Entry>, current: Jobs, lastId: nat, firstId: nat,
                 e: Entry, next: Jobs, lastId': nat)
    requires Midway(start, now, order, current, lastId, firstId)
    requires e.id in current && current[e.id] == e && Due(e, now)
    requires forall id :: id in current ==> !EntryLess(current[id], e)
    requires Turned(current, now, e, next, lastId)
    requires lastId' >= lastId && WellFormed(next, lastId')
    ensures Midway(start, now, order + [e], next, lastId', firstId)
    ensures DueIds(next, now) == DueIds(current, now) - {e.id}
  {
    StillDue(start, now, order, current, lastId, firstId, e);
    TurnedDue(current, now, e, next, lastId);
    assert e.id in DueIds(current, now);
    assert RanInOrder(start, now, order + [e]);
    TurnedTable(start, now, order, current, lastId, firstId, e, next);
    forall k, id | 0 <= k < |order + [e]| && id in DueIds(next, now) ensures EntryLess((order + [e])[k], next[id]) {
      assert id in DueIds(current, now) && next[id] == current[id];
      assert current[id].id == id;
    }
  }

  lemma TurnedTable(start: Jobs, now: real, order: seq<Entry>, current: Jobs, lastId: nat, firstId: nat,
                    e: Entry, next: Jobs)
    requires firstId <= lastId && Keyed(start, EntryId)
    requires TableAfter(start, now, order, current, firstId)
    requires e.id in start && start[e.id] == e && e !in order
    requires Turned(current, now, e, next, lastId)
    ensures TableAfter(start, now, order + [e], next, firstId)
  {
    assert forall id :: id in start ==> (start[id] in order + [e] <==> start[id] in order || id == e.id);
  }

  ghost function Ids(order: seq<Entry>): set<nat> {
    set k | 0 <= k < |order| :: order[k].id
  }

  lemma LoopDone(start: Jobs, now: real, order: seq<Entry>, current: Jobs, lastId: nat, firstId: nat)
    requires Midway(start, now, order, current, lastId, firstId)
    requires DueIds(current, now) == {}
    ensures TickStep(start, now, Ids(order), current)
  {
    var ran := Ids(order);
    AllDueRan(start, now, order, current, lastId, firstId);
    forall id | id in start ensures id in ran <==> start[id] in order {
      if start[id] in order {
        var k :| 0 <= k < |order| && order[k] == start[id];
        assert order[k].id in ran;
      }
    }
    assert forall id :: id in current && !(current[id].nextRun > now) ==> id in DueIds(current, now);
  }

  lemma AllDueRan(start: Jobs, now: real, order: seq<Entry>, current: Jobs, lastId: nat, firstId: nat)
    requires Midway(start, now, order, current, lastId, firstId)
    requires DueIds(current, now) == {}
    ensures forall id :: id in start ==> (start[id] in order <==> Due(start[id], now))
  {
    forall id | id in start && Due(start[id], now) ensures start[id] in order {
      assert current[id] == start[id] ==> id in DueIds(current, now);
    }
  }

  // ---- what running work adds ----

  function Accepted(requests: seq<Request>): nat {
    if requests == [] then 0
    else Accepted(requests[..|requests| - 1]) + (if requests[|requests| - 1].interval >= 1 then 1 else 0)
  }

  /** The entries that a list of schedule_job calls makes, one for each call with an
      interval of at least one millisecond, numbered from `lastId` on. */
  function Scheduled(requests: seq<Request>, lastId: nat): Jobs {
    if requests == [] then map[]
    else
      var init, r := requests[..|requests| - 1], requests[|requests| - 1];
      var id := lastId + Accepted(requests);
      if r.interval >= 1
      then Scheduled(init, lastId)[id := Entry(id, r.at + Seconds(r.interval), r.interval, r.job)]
      else Scheduled(init, lastId)
  }

  /** A table with the entries that some calls add. */
  function With(jobs: Jobs, requests: seq<Request>, lastId: nat): Jobs {
    jobs + Scheduled(requests, lastId)
  }

  lemma WithNext(jobs: Jobs, requests: seq<Request>, k: nat, lastId: nat)
    requires k < |requests|
    ensures var r, id := requests[k], lastId + Accepted(requests[..k]) + 1;
            if r.interval >= 1 then
              && lastId + Accepted(requests[..k + 1]) == id
              && With(jobs, requests[..k + 1], lastId)
                 == With(jobs, requests[..k], lastId)[id := Entry(id, r.at + Seconds(r.interval), r.interval, r.job)]
            else
              && Accepted(requests[..k + 1]) == Accepted(requests[..k])
              && With(jobs, requests[..k + 1], lastId) == With(jobs, requests[..k], lastId)
  {
    assert requests[..k + 1][..k] == requests[..k];
  }

  /** New entries get the ids after `lastId`, all of them. */
  lemma {:induction false} ScheduledIds(requests: seq<Request>, lastId: nat)
    ensures WellFormed(Scheduled(requests, lastId), lastId + Accepted(requests))
    ensures forall id :: id in Scheduled(requests, lastId) <==> lastId < id <= lastId + Accepted(requests)
  {
    if requests != [] {
      ScheduledIds(requests[..|requests| - 1], lastId);
    }
  }

  /** New entries lie beyond the clock. */
  lemma {:induction false} ScheduledIsNew(requests: seq<Request>, lastId: nat, now: real)
    requires forall k :: 0 <= k < |requests| ==> requests[k].at >= now
    ensures WellFormed(Scheduled(requests, lastId), lastId + Accepted(requests))
    ensures forall id :: id in Scheduled(requests, lastId) <==> lastId < id <= lastId + Accepted(requests)
    ensures forall id :: id in Scheduled(requests, lastId) ==> Scheduled(requests, lastId)[id].nextRun > now
  {
    ScheduledIds(requests, lastId);
    if requests != [] {
      var init, r := requests[..|requests| - 1], requests[|requests| - 1];
      assert forall k :: 0 <= k < |init| ==> init[k] == requests[k];
      ScheduledIsNew(init, lastId, now);
      assert r.at >= now;
    }
  }

  lemma {:induction false} AcceptedConcat(a: seq<Request>, b: seq<Request>)
    ensures Accepted(a + b) == Accepted(a) + Accepted(b)
  {
    if b == [] {
      assert a + b == a;
    } else {
      assert (a + b)[..|a + b| - 1] == a + b[..|b| - 1];
      AcceptedConcat(a, b[..|b| - 1]);
    }
  }

  lemma {:induction false} ScheduledConcat(a: seq<Request>, b: seq<Request>, lastId: nat)
    ensures Scheduled(a + b, lastId) == Scheduled(a, lastId) + Scheduled(b, lastId + Accepted(a))
  {
    if b == [] {
      assert a + b == a;
    } else {
      assert (a + b)[..|a + b| - 1] == a + b[..|b| - 1];
      AcceptedConcat(a, b);
      ScheduledConcat(a, b[..|b| - 1], lastId);
    }
  }

  lemma WithBoth(jobs: Jobs, lastId: nat, a: seq<Request>, jobs1: Jobs, lastId1: nat, b: seq<Request>, jobs2: Jobs)
    requires jobs1 == With(jobs, a, lastId) && lastId1 == lastId + Accepted(a)
    requires jobs2 == With(jobs1, b, lastId1)
    ensures jobs2 == With(jobs, a + b, lastId)
    ensures lastId1 + Accepted(b) == lastId + Accepted(a + b)
  {
    AcceptedConcat(a, b);
    ScheduledConcat(a, b, lastId);
  }

  /** Each accepted call makes one entry, due its interval after the call. */
  lemma {:induction false} ScheduledFromCalls(requests: seq<Request>, lastId: nat, k: nat)
    requires k < |requests| && requests[k].interval >= 1
    ensures var r, id := requests[k], lastId + Accepted(requests[..k + 1]);
            && id in Scheduled(requests, lastId)
            && var e := Scheduled(requests, lastId)[id];
            && e.id == id && e.interval == r.interval && e.job == r.job
            && 1000.0 * (e.nextRun - r.at) == r.interval as real
    ensures Accepted(requests[..k + 1]) == Accepted(requests[..k]) + 1
  {
    var n := |requests| - 1;
    assert requests[..k + 1][..k] == requests[..k];
    SecondsAreThousandths(requests[k].interval);
    if k == n {
      assert requests[..k + 1] == requests;
    } else {
      var init := requests[..n];
      assert init[..k + 1] == requests[..k + 1] && init[..k] == requests[..k];
      ScheduledFromCalls(init, lastId, k);
      ScheduledIds(init, lastId);
    }
  }

  /** The tasks that a list of submit_task calls makes, numbered from `last` on. */
  function Submitted(tasks: seq<TaskRequest>, last: nat): seq<Task> {
    seq(|tasks|, i requires 0 <= i < |tasks| => Task(tasks[i].priority, last + i + 1, tasks[i].work))
  }

  /** The queue gained exactly these tasks. */
  ghost predicate Queued(was: multiset<Task>, last: nat, tasks: seq<TaskRequest>, queue: multiset<Task>, last': nat) {
    last' == last + |tasks| && queue == was + multiset(Submitted(tasks, last))
  }

  lemma QueuedNext(q0: multiset<Task>, n0: nat, a: seq<TaskRequest>, q1: multiset<Task>, n1: nat,
                   b: seq<TaskRequest>, q2: multiset<Task>, n2: nat)
    requires Queued(q0, n0, a, q1, n1) && Queued(q1, n1, b, q2, n2)
    ensures Queued(q0, n0, a + b, q2, n2)
  {
    assert Submitted(a + b, n0) == Submitted(a, n0) + Submitted(b, n1);
  }

  lemma QueuedMeans(was: multiset<Task>, last: nat, tasks: seq<TaskRequest>, queue: multiset<Task>, last': nat)
    requires Queued(was, last, tasks, queue, last')
    ensures |Submitted(tasks, last)| == |tasks| && queue == was + multiset(Submitted(tasks, last))
    ensures forall i :: 0 <= i < |tasks| ==>
                          var t := Submitted(tasks, last)[i];
                          && t.priority == tasks[i].priority && t.work == tasks[i].work && t.seqNo == last + i + 1
    ensures last' == last + |tasks|
  {
  }

  /** Every schedule_job call and every submit_task call of the jobs that ran. */
  function RequestsOf(behave: Behaviour, order: seq<Entry>): seq<Request> {
    if order == [] then []
    else
      var n := |order| - 1;
      RequestsOf(behave, order[..n]) + behave(n, order[n]).schedules
  }

  function TasksOf(behave: Behaviour, order: seq<Entry>): seq<TaskRequest> {
    if order == [] then []
    else
      var n := |order| - 1;
      TasksOf(behave, order[..n]) + behave(n, order[n]).tasks
  }

  /** What the jobs that ran have added to the table. */
  function Made(behave: Behaviour, order: seq<Entry>, firstId: nat): Jobs {
    Scheduled(RequestsOf(behave, order), firstId)
  }

  /** The table gained exactly these entries. */
  ghost predicate Gained(start: Jobs, added: Jobs, current: Jobs) {
    && current.Keys == start.Keys + added.Keys
    && forall id :: id in added ==> current[id] == added[id]
  }

  lemma GainedNext(start: Jobs, requests: seq<Request>, firstId: nat, current: Jobs, lastId: nat,
                   e: Entry, more: seq<Request>, now: real, next: Jobs)
    requires Gained(start, Scheduled(requests, firstId), current) && lastId == firstId + Accepted(requests)
    requires e.id in start && e.id <= firstId
    requires forall k :: 0 <= k < |requests| ==> requests[k].at >= now
    requires forall k :: 0 <= k < |more| ==> more[k].at >= now
    requires next == (current - {e.id} + Scheduled(more, lastId))[e.id := Rescheduled(e, now)]
    ensures Gained(start, Scheduled(requests + more, firstId), next)
    ensures lastId + Accepted(more) == firstId + Accepted(requests + more)
  {
    AcceptedConcat(requests, more);
    ScheduledConcat(requests, more, firstId);
    ScheduledIsNew(requests, firstId, now);
    ScheduledIsNew(more, lastId, now);
    GrownTable(start, Scheduled(requests, firstId), current, Scheduled(more, lastId), e.id, Rescheduled(e, now), next);
  }

  lemma GrownTable(start: Jobs, added: Jobs, current: Jobs, more: Jobs, id: nat, e: Entry, next: Jobs)
    requires Gained(start, added, current)
    requires id in start && id !in added && id !in more && added.Keys !! more.Keys
    requires next == (current - {id} + more)[id := e]
    ensures Gained(start, added + more, next)
  {
  }

  /** The loop so far: the entries of `order` ran, and the table gained what they made. */
  ghost predicate SoFar(start: Jobs, now: real, behave: Behaviour, order: seq<Entry>, current: Jobs,
                        lastId: nat, firstId: nat)
  {
    && Midway(start, now, order, current, lastId, firstId)
    && Gained(start, Made(behave, order, firstId), current)
    && lastId == firstId + Accepted(RequestsOf(behave, order))
  }

  /** The loop in full: exactly the due entries of the table ran, each once and in heap
      order, and the table holds what it held and what they made. */
  ghost predicate DueRan(before: Jobs, now: real, behave: Behaviour, order: seq<Entry>, after: Jobs,
                         lastId: nat, firstId: nat)
  {
    && (forall k :: 0 <= k < |order| ==> order[k].id in before && order[k] == before[order[k].id])
    && (forall i, k :: 0 <= i < k < |order| ==> EntryLess(order[i], order[k]))
    && TickStep(before, now, Ids(order), after)
    && Gained(before, Made(behave, order, firstId), after)
    && lastId == firstId + Accepted(RequestsOf(behave, order))
  }

  /** The loop went through this table on the way from the start to the current one: what
      is due in it has not run yet, and what is not due is still there. */
  ghost predicate PassedBy(start: Jobs, now: real, table: Jobs, current: Jobs) {
    forall id :: id in table ==>
                   if Due(table[id], now) then id in start && start[id] == table[id]
                   else id in current && current[id] == table[id]
  }

  ghost predicate AllPassed(start: Jobs, now: real, tables: seq<Jobs>, current: Jobs) {
    forall k :: 0 <= k < |tables| ==> PassedBy(start, now, tables[k], current)
  }

  /** Whatever is not due stays. */
  ghost predicate Waits(current: Jobs, now: real, next: Jobs) {
    forall id :: id in current && !Due(current[id], now) ==> id in next && next[id] == current[id]
  }

  lemma TablePassed(start: Jobs, now: real, behave: Behaviour, order: seq<Entry>, current: Jobs, lastId: nat,
                    firstId: nat, tables: seq<Jobs>, next: Jobs)
    requires SoFar(start, now, behave, order, current, lastId, firstId) && Waits(current, now, next)
    requires AllPassed(start, now, tables, current)
    ensures AllPassed(start, now, tables + [current], next)
  {
    forall id | id in current && Due(current[id], now) ensures id in start && start[id] == current[id] {
      StillDue(start, now, order, current, lastId, firstId, current[id]);
    }
  }

  lemma LoopStarts(jobs: Jobs, now: real, behave: Behaviour, lastId: nat)
    requires WellFormed(jobs, lastId)
    ensures SoFar(jobs, now, behave, [], jobs, lastId, lastId)
  {
    NoneRan(jobs, now, lastId);
  }

  /** In plain terms: who ran and in which order, when they are due again, who stayed as
      they were, and what is new. */
  lemma DueRanMeans(before: Jobs, now: real, behave: Behaviour, order: seq<Entry>, after: Jobs, lastId: nat,
                    firstId: nat)
    requires DueRan(before, now, behave, order, after, lastId, firstId)
    ensures forall id :: id in before ==>
                           ((exists k :: 0 <= k < |order| && order[k].id == id) <==> before[id].nextRun <= now)
    ensures forall i, k :: 0 <= i < k < |order| ==>
                             && order[i].id != order[k].id
                             && (order[i].nextRun < order[k].nextRun
                                 || (order[i].nextRun == order[k].nextRun && order[i].interval <= order[k].interval))
    ensures forall k :: 0 <= k < |order| ==>
                          && order[k].id in after
                          && 1000.0 * (after[order[k].id].nextRun - now) == order[k].interval as real
                          && after[order[k].id].interval == order[k].interval && after[order[k].id].job == order[k].job
    ensures forall id :: id in before && before[id].nextRun > now ==> id in after && after[id] == before[id]
    ensures forall id :: id in after ==> after[id].nextRun > now
    ensures forall id :: id in Scheduled(RequestsOf(behave, order), firstId) ==>
                           id in after && after[id] == Scheduled(RequestsOf(behave, order), firstId)[id]
    ensures forall id :: id in after ==> id in before || id in Scheduled(RequestsOf(behave, order), firstId)
    ensures lastId == firstId + Accepted(RequestsOf(behave, order))
  {
    forall id | id in before
      ensures (exists k :: 0 <= k < |order| && order[k].id == id) <==> before[id].nextRun <= now
    {
      assert id in Ids(order) <==> id in DueIds(before, now);
    }
    DueAgain(before, now, behave, order, after, lastId, firstId);
    assert forall k :: 0 <= k < |order| ==> order[k].id in Ids(order);
  }

  /** Whoever ran is due again its interval after the tick. */
  lemma DueAgain(before: Jobs, now: real, behave: Behaviour, order: seq<Entry>, after: Jobs, lastId: nat, firstId: nat)
    requires DueRan(before, now, behave, order, after, lastId, firstId)
    ensures forall k :: 0 <= k < |order| ==>
                          && order[k].id in after
                          && 1000.0 * (after[order[k].id].nextRun - now) == order[k].interval as real
  {
    forall k | 0 <= k < |order|
      ensures order[k].id in after && 1000.0 * (after[order[k].id].nextRun - now) == order[k].interval as real
    {
      assert order[k].id in Ids(order);
      SecondsAreThousandths(order[k].interval);
    }
  }

  lemma LoopEnds(start: Jobs, now: real, behave: Behaviour, order: seq<Entry>, current: Jobs, lastId: nat, firstId: nat)
    requires SoFar(start, now, behave, order, current, lastId, firstId)
    requires DueIds(current, now) == {}
    ensures DueRan(start, now, behave, order, current, lastId, firstId)
  {
    LoopDone(start, now, order, current, lastId, firstId);
  }

  lemma {:induction false} RequestsInTime(behave: Behaviour, order: seq<Entry>, now: real)
    requires Monotone(behave, now)
    ensures forall k :: 0 <= k < |RequestsOf(behave, order)| ==> RequestsOf(behave, order)[k].at >= now
  {
    if order != [] {
      RequestsInTime(behave, order[..|order| - 1], now);
    }
  }

  lemma MadeNext(behave: Behaviour, order: seq<Entry>, e: Entry)
    ensures RequestsOf(behave, []) == [] && TasksOf(behave, []) == []
    ensures RequestsOf(behave, order + [e]) == RequestsOf(behave, order) + behave(|order|, e).schedules
    ensures TasksOf(behave, order + [e]) == TasksOf(behave, order) + behave(|order|, e).tasks
  {
    assert (order + [e])[..|order|] == order;
  }

  /** The calls the task made, if one ran, and what it took off the queue. */
  function TaskRequests(taskEffect: Task -> Effect, task: Option<Task>): seq<Request> {
    if task.Some? then taskEffect(task.value).schedules else []
  }

  function TaskTasks(taskEffect: Task -> Effect, task: Option<Task>): seq<TaskRequest> {
    if task.Some? then taskEffect(task.value).tasks else []
  }

  function Popped(task: Option<Task>): multiset<Task> {
    if task.Some? then multiset{task.value} else multiset{}
  }

  lemma TaskMade(taskEffect: Task -> Effect, t: Task)
    ensures TaskRequests(taskEffect, Some(t)) == taskEffect(t).schedules && TaskRequests(taskEffect, None) == []
    ensures TaskTasks(taskEffect, Some(t)) == taskEffect(t).tasks && TaskTasks(taskEffect, None) == []
    ensures Popped(Some(t)) == multiset{t} && Popped(None) == multiset{}
  {
  }

  /** The events published by the jobs that ran, and by the task before them. */
  function JobsPublish(behave: Behaviour, order: seq<Entry>): seq<EventBus.Event> {
    if order == [] then []
    else
      var n := |order| - 1;
      JobsPublish(behave, order[..n]) + behave(n, order[n]).published
  }

  function AllPublish(taskEffect: Task -> Effect, task: Option<Task>, behave: Behaviour,
                      order: seq<Entry>): seq<EventBus.Event>
  {
    (if task.Some? then taskEffect(task.value).published else []) + JobsPublish(behave, order)
  }

  /** Each event is published as often as the jobs that ran published it, all together. */
  lemma {:induction false} JobsPublishCounts(behave: Behaviour, order: seq<Entry>, e: EventBus.Event)
    ensures multiset(JobsPublish(behave, order))[e]
         == Sum(seq(|order|, k requires 0 <= k < |order| => multiset(behave(k, order[k]).published)[e]))
  {
    if order != [] {
      var n := |order| - 1;
      var init, last := order[..n], multiset(behave(n, order[n]).published)[e];
      var counts := seq(n, k requires 0 <= k < n => multiset(behave(k, init[k]).published)[e]);
      JobsPublishCounts(behave, init, e);
      SumNext(counts, last);
      assert seq(|order|, k requires 0 <= k < |order| => multiset(behave(k, order[k]).published)[e]) == counts + [last];
    }
  }

  lemma AllPublishCounts(taskEffect: Task -> Effect, task: Option<Task>, behave: Behaviour, order: seq<Entry>)
    ensures forall e: EventBus.Event ::
              multiset(AllPublish(taskEffect, task, behave, order))[e]
              == (if task.Some? then multiset(taskEffect(task.value).published)[e] else 0)
                 + Sum(seq(|order|, k requires 0 <= k < |order| => multiset(behave(k, order[k]).published)[e]))
  {
    forall e: EventBus.Event
      ensures multiset(AllPublish(taskEffect, task, behave, order))[e]
           == (if task.Some? then multiset(taskEffect(task.value).published)[e] else 0)
              + Sum(seq(|order|, k requires 0 <= k < |order| => multiset(behave(k, order[k]).published)[e]))
    {
      JobsPublishCounts(behave, order, e);
    }
  }

  lemma JobsPublishNext(behave: Behaviour, order: seq<Entry>, e: Entry)
    ensures JobsPublish(behave, []) == []
    ensures JobsPublish(behave, order + [e]) == JobsPublish(behave, order) + behave(|order|, e).published
  {
    assert (order + [e])[..|order|] == order;
  }

  /** How many of the jobs that ran did not raise. */
  function Succeeded(behave: Behaviour, order: seq<Entry>): nat {
    if order == [] then 0
    else
      var n := |order| - 1;
      Succeeded(behave, order[..n]) + (if behave(n, order[n]).raised then 0 else 1)
  }

  lemma SucceededNext(behave: Behaviour, order: seq<Entry>, e: Entry)
    ensures Succeeded(behave, []) == 0
    ensures Succeeded(behave, order + [e]) == Succeeded(behave, order) + (if behave(|order|, e).raised then 0 else 1)
  {
    assert (order + [e])[..|order|] == order;
  }

  class Scheduler {
    var taskQueue: seq<Task>
    var jobQueue: seq<Entry>
    var lastTask: nat
    var lastId: nat
    ghost var jobs: Jobs

    ghost predicate Valid()
      reads this
    {
      && IsHeap(taskQueue, TaskLess)
      && IsHeap(jobQueue, EntryLess)
      && Holds(jobQueue, jobs, EntryId)
      && WellFormed(jobs, lastId)
    }

    constructor ()
      ensures Valid() && taskQueue == [] && jobs == map[] && lastTask == 0
    {
      taskQueue, jobQueue, lastTask, lastId := [], [], 0, 0;
      jobs := map[];
    }

    method SubmitTask(work: nat, priority: int)
      requires Valid()
      modifies this`taskQueue, this`lastTask
      ensures Valid() && lastTask == old(lastTask) + 1
      ensures multiset(taskQueue) == multiset(old(taskQueue)) + multiset{Task(priority, lastTask, work)}
    {
      TaskLessOrders();
      lastTask := lastTask + 1;
      taskQueue := Push(taskQueue, Task(priority, lastTask, work), TaskLess);
    }

    /** Refuses an interval below one millisecond. */
    method ScheduleJob(job: nat, interval: int, now: real) returns (ok: bool)
      requires Valid()
      modifies this`jobQueue, this`lastId, this`jobs
      ensures Valid()
      ensures ok <==> interval >= 1
      ensures !ok ==> jobs == old(jobs) && lastId == old(lastId)
      ensures ok ==> lastId == old(lastId) + 1
      ensures ok ==> jobs == old(jobs)[lastId := Entry(lastId, now + Seconds(interval), interval, job)]
      ensures ok ==> 1000.0 * (jobs[lastId].nextRun - now) == interval as real
    {
      if interval < 1 {
        return false;
      }
      EntryLessOrders();
      lastId := lastId + 1;
      var e := Entry(lastId, now + Seconds(interval), interval, job);
      var jobQueue' := Push(jobQueue, e, EntryLess);
      PutIn(jobQueue, jobQueue', jobs, EntryId, e);
      jobQueue := jobQueue';
      jobs := jobs[e.id := e];
      ok := true;
    }

    /** The calls a running task or job makes before it returns or raises. */
    method Perform(effect: Effect)
      requires Valid()
      modifies this
      ensures Valid()
      ensures jobs == With(old(jobs), effect.schedules, old(lastId))
      ensures lastId == old(lastId) + Accepted(effect.schedules)
      ensures Queued(multiset(old(taskQueue)), old(lastTask), effect.tasks, multiset(taskQueue), lastTask)
    {
      ScheduleAll(effect.schedules);
      SubmitAll(effect.tasks);
    }

    method SubmitAll(tasks: seq<TaskRequest>)
      requires Valid()
      modifies this`taskQueue, this`lastTask
      ensures Valid()
      ensures Queued(multiset(old(taskQueue)), old(lastTask), tasks, multiset(taskQueue), lastTask)
    {
      ghost var all := Submitted(tasks, lastTask);
      for k := 0 to |tasks|
        invariant Valid() && lastTask == old(lastTask) + k
        invariant multiset(taskQueue) == multiset(old(taskQueue)) + multiset(all[..k])
      {
        assert all[..k + 1] == all[..k] + [Task(tasks[k].priority, lastTask + 1, tasks[k].work)];
        SubmitTask(tasks[k].work, tasks[k].priority);
      }
      assert all[..|tasks|] == all;
    }

    method ScheduleAll(requests: seq<Request>)
      requires Valid()
      modifies this`jobQueue, this`lastId, this`jobs
      ensures Valid()
      ensures jobs == With(old(jobs), requests, old(lastId))
      ensures lastId == old(lastId) + Accepted(requests)
    {
      for k := 0 to |requests|
        invariant Valid()
        invariant jobs == With(old(jobs), requests[..k], old(lastId))
        invariant lastId == old(lastId) + Accepted(requests[..k])
      {
        WithNext(old(jobs), requests, k, old(lastId));
        var ok := ScheduleJob(requests[k].job, requests[k].interval, requests[k].at);
      }
      assert requests[..|requests|] == requests;
    }

    /** Runs the most urgent task, if there is one. */
    method RunTask(taskEffect: Task -> Effect) returns (ran: nat, task: Option<Task>)
      requires Valid()
      modifies this
      ensures Valid()
      ensures task.None? <==> old(taskQueue) == []
      ensures task.Some? ==> task.value in old(taskQueue) && Least(task.value, multiset(old(taskQueue)), TaskLess)
      ensures task.Some? ==>
                forall t :: t in old(taskQueue) ==>
                              || task.value.priority < t.priority
                              || (task.value.priority == t.priority && task.value.seqNo <= t.seqNo)
      ensures ran == if task.Some? && !taskEffect(task.value).raised then 1 else 0
      ensures jobs == With(old(jobs), TaskRequests(taskEffect, task), old(lastId)) && Keeps(old(jobs), jobs)
      ensures lastId == old(lastId) + Accepted(TaskRequests(taskEffect, task))
      ensures Queued(multiset(old(taskQueue)) - Popped(task), old(lastTask), TaskTasks(taskEffect, task),
                     multiset(taskQueue), lastTask)
    {
      ran, task := 0, None;
      if taskQueue != [] {
        TaskLessOrders();
        var head, rest := PopMin(taskQueue, TaskLess);
        taskQueue := rest;
        var effect := taskEffect(head);
        ScheduledIds(effect.schedules, lastId);
        Perform(effect);
        ran := if effect.raised then 0 else 1;
        LeastIsMostUrgent(head, multiset(old(taskQueue)));
        task := Some(head);
      }
    }

    /** Pops the head entry, runs its job, and puts it back one interval after `now`. */
    method RunHead(now: real, behave: Behaviour, n: nat) returns (e: Entry)
      requires Valid() && jobQueue != [] && Monotone(behave, now)
      modifies this
      ensures Valid()
      ensures e == old(jobQueue)[0] && e.id in old(jobs) && old(jobs)[e.id] == e
      ensures forall id :: id in old(jobs) ==> !EntryLess(old(jobs)[id], e)
      ensures jobs == (old(jobs) - {e.id} + Scheduled(behave(n, e).schedules, old(lastId)))[e.id := Rescheduled(e, now)]
      ensures lastId == old(lastId) + Accepted(behave(n, e).schedules)
      ensures Queued(multiset(old(taskQueue)), old(lastTask), behave(n, e).tasks, multiset(taskQueue), lastTask)
    {
      EntryLessOrders();
      var rest;
      e, rest := PopMin(jobQueue, EntryLess);
      HeadIsLeast(jobQueue, jobs, EntryId, e, EntryLess);
      TakenOut(jobQueue, rest, jobs, EntryId, e);
      jobQueue, jobs := rest, jobs - {e.id};
      ghost var firstId := lastId;
      Perform(behave(n, e));
      ScheduledIsNew(behave(n, e).schedules, firstId, now);
      PutBack(e, now);
    }

    method PutBack(e: Entry, now: real)
      requires Valid() && e.id !in jobs && e.id <= lastId && e.interval >= 1
      modifies this`jobQueue, this`jobs
      ensures Valid() && jobs == old(jobs)[e.id := Rescheduled(e, now)]
      ensures 1000.0 * (jobs[e.id].nextRun - now) == e.interval as real
    {
      EntryLessOrders();
      var again := e.(nextRun := now + Seconds(e.interval));
      var jobQueue' := Push(jobQueue, again, EntryLess);
      PutIn(jobQueue, jobQueue', jobs, EntryId, again);
      jobQueue, jobs := jobQueue', jobs[e.id := again];
    }

    /** Nothing is due once the head is not. */
    lemma HeadNotDue(now: real)
      requires Valid() && (jobQueue == [] || jobQueue[0].nextRun > now)
      ensures DueIds(jobs, now) == {}
    {
      EntryLessOrders();
      FiledIsListed(jobQueue, jobs, EntryId);
      if jobQueue != [] {
        RootIsLeast(jobQueue, EntryLess);
        assert forall id :: id in jobs ==> jobs[id] in multiset(jobQueue);
      }
    }

    /** One tick at clock reading `now`.  `before` is the job table, and `firstId` the last
        id given out, when the task is done; exactly its due entries run, once each and in
        heap order, even when jobs raise or schedule more; afterwards nothing is due.  No task and no entry is lost:
        the tables hold just what was there, what the task and the jobs added, and not
        the task that ran. */
    method Tick(taskEffect: Task -> Effect, now: real, behave: Behaviour)
      returns (ran: nat, task: Option<Task>, ghost before: Jobs, ghost firstId: nat,
               order: seq<Entry>, ghost tables: seq<Jobs>)
      requires Valid() && Monotone(behave, now)
      modifies this
      ensures Valid()
      ensures task.None? <==> old(taskQueue) == []
      ensures task.Some? ==> task.value in old(taskQueue) && Least(task.value, multiset(old(taskQueue)), TaskLess)
      ensures task.Some? ==>
                forall t :: t in old(taskQueue) ==>
                              || task.value.priority < t.priority
                              || (task.value.priority == t.priority && task.value.seqNo <= t.seqNo)
      ensures before == With(old(jobs), TaskRequests(taskEffect, task), old(lastId)) && Keeps(old(jobs), before)
      ensures firstId == old(lastId) + Accepted(TaskRequests(taskEffect, task))
      ensures WellFormed(before, firstId) && DueRan(before, now, behave, order, jobs, lastId, firstId)
      ensures AllPassed(before, now, tables, jobs)
      ensures forall k :: 0 <= k < |order| ==>
                            && order[k].id in jobs
                            && 1000.0 * (jobs[order[k].id].nextRun - now) == order[k].interval as real
      ensures Queued(multiset(old(taskQueue)) - Popped(task), old(lastTask),
                     TaskTasks(taskEffect, task) + TasksOf(behave, order), multiset(taskQueue), lastTask)
      ensures ran == Succeeded(behave, order)
                     + (if task.Some? && !taskEffect(task.value).raised then 1 else 0)
    {
      ran, task := RunTask(taskEffect);
      before, firstId := jobs, lastId;
      var jobsRan;
      ghost var tasks, last := multiset(taskQueue), lastTask;
      jobsRan, order, tables := RunDue(now, behave);
      QueuedNext(multiset(old(taskQueue)) - Popped(task), old(lastTask), TaskTasks(taskEffect, task), tasks, last,
                 TasksOf(behave, order), multiset(taskQueue), lastTask);
      ran := ran + jobsRan;
    }

    /** The due jobs, one after the other. */
    method RunDue(now: real, behave: Behaviour) returns (ran: nat, order: seq<Entry>, ghost tables: seq<Jobs>)
      requires Valid() && Monotone(behave, now)
      modifies this
      ensures Valid()
      ensures DueRan(old(jobs), now, behave, order, jobs, lastId, old(lastId))
      ensures |tables| == |order| && AllPassed(old(jobs), now, tables, jobs)
      ensures forall k :: 0 <= k < |order| ==>
                            && order[k].id in jobs
                            && 1000.0 * (jobs[order[k].id].nextRun - now) == order[k].interval as real
      ensures Queued(multiset(old(taskQueue)), old(lastTask), TasksOf(behave, order), multiset(taskQueue), lastTask)
      ensures ran == Succeeded(behave, order)
    {
      ran, order, tables := DueLoop(now, behave);
      LoopEnds(old(jobs), now, behave, order, jobs, lastId, old(lastId));
      DueAgain(old(jobs), now, behave, order, jobs, lastId, old(lastId));
    }

    /** The loop over due jobs. */
    method DueLoop(now: real, behave: Behaviour) returns (ran: nat, order: seq<Entry>, ghost tables: seq<Jobs>)
      requires Valid() && Monotone(behave, now)
      modifies this
      ensures Valid()
      ensures SoFar(old(jobs), now, behave, order, jobs, lastId, old(lastId)) && DueIds(jobs, now) == {}
      ensures |tables| == |order| && AllPassed(old(jobs), now, tables, jobs)
      ensures Queued(multiset(old(taskQueue)), old(lastTask), TasksOf(behave, order), multiset(taskQueue), lastTask)
      ensures ran == Succeeded(behave, order)
    {
      order, ran, tables := [], 0, [];
      LoopStarts(jobs, now, behave, lastId);
      var n := 0;
      while jobQueue != [] && jobQueue[0].nextRun <= now
        invariant Valid() && n == |order|
        invariant SoFar(old(jobs), now, behave, order, jobs, lastId, old(lastId))
        invariant Queued(multiset(old(taskQueue)), old(lastTask), TasksOf(behave, order), multiset(taskQueue), lastTask)
        invariant ran == Succeeded(behave, order)
        invariant |tables| == n && AllPassed(old(jobs), now, tables, jobs)
        decreases |DueIds(jobs, now)|
      {
        ghost var tasks, last, current, currentId := multiset(taskQueue), lastTask, jobs, lastId;
        var e := RunNext(now, behave, n, old(jobs), order, old(lastId));
        SucceededNext(behave, order, e);
        TurnQueues(behave, order, e, multiset(old(taskQueue)), old(lastTask),
                   tasks, last, multiset(taskQueue), lastTask);
        ran := if behave(n, e).raised then ran else ran + 1;
        TablePassed(old(jobs), now, behave, order, current, currentId, old(lastId), tables, jobs);
        n, order, tables := n + 1, order + [e], tables + [current];
      }
      HeadNotDue(now);
    }

    /** One turn of the loop. */
    method RunNext(now: real, behave: Behaviour, n: nat, ghost start: Jobs, ghost order: seq<Entry>, ghost firstId: nat)
      returns (e: Entry)
      requires Valid() && Monotone(behave, now)
      requires jobQueue != [] && jobQueue[0].nextRun <= now && n == |order|
      requires SoFar(start, now, behave, order, jobs, lastId, firstId)
      modifies this
      ensures Valid()
      ensures SoFar(start, now, behave, order + [e], jobs, lastId, firstId)
      ensures Queued(multiset(old(taskQueue)), old(lastTask), behave(n, e).tasks, multiset(taskQueue), lastTask)
      ensures |DueIds(jobs, now)| < |DueIds(old(jobs), now)| && Waits(old(jobs), now, jobs)
    {
      ghost var current, currentId := jobs, lastId;
      e := RunHead(now, behave, n);
      TurnKept(behave, now, start, order, firstId, current, currentId, e, jobs, lastId);
    }
  }

  /** What one turn of the loop adds. */
  lemma TurnGains(behave: Behaviour, now: real, start: Jobs, order: seq<Entry>, firstId: nat,
                  current: Jobs, currentId: nat, e: Entry, next: Jobs, nextId: nat)
    requires Monotone(behave, now)
    requires Midway(start, now, order, current, currentId, firstId)
    requires Gained(start, Made(behave, order, firstId), current)
    requires currentId == firstId + Accepted(RequestsOf(behave, order))
    requires e.id in current && current[e.id] == e && Due(e, now)
    requires next
             == (current - {e.id} + Scheduled(behave(|order|, e).schedules, currentId))[e.id := Rescheduled(e, now)]
    requires nextId == currentId + Accepted(behave(|order|, e).schedules)
    ensures Gained(start, Made(behave, order + [e], firstId), next)
    ensures nextId == firstId + Accepted(RequestsOf(behave, order + [e]))
  {
    var requests := behave(|order|, e).schedules;
    StillDue(start, now, order, current, currentId, firstId, e);
    MadeNext(behave, order, e);
    RequestsInTime(behave, order, now);
    GainedNext(start, RequestsOf(behave, order), firstId, current, currentId, e, requests, now, next);
  }

  lemma TurnQueues(behave: Behaviour, order: seq<Entry>, e: Entry, q0: multiset<Task>, n0: nat,
                   q1: multiset<Task>, n1: nat, q2: multiset<Task>, n2: nat)
    requires Queued(q0, n0, TasksOf(behave, order), q1, n1)
    requires Queued(q1, n1, behave(|order|, e).tasks, q2, n2)
    ensures Queued(q0, n0, TasksOf(behave, order + [e]), q2, n2)
  {
    MadeNext(behave, order, e);
    QueuedNext(q0, n0, TasksOf(behave, order), q1, n1, behave(|order|, e).tasks, q2, n2);
  }

  /** One turn of the loop keeps it going. */
  lemma TurnKept(behave: Behaviour, now: real, start: Jobs, order: seq<Entry>, firstId: nat,
                 current: Jobs, currentId: nat, e: Entry, next: Jobs, nextId: nat)
    requires Monotone(behave, now)
    requires SoFar(start, now, behave, order, current, currentId, firstId)
    requires e.id in current && current[e.id] == e && Due(e, now)
    requires forall id :: id in current ==> !EntryLess(current[id], e)
    requires next
             == (current - {e.id} + Scheduled(behave(|order|, e).schedules, currentId))[e.id := Rescheduled(e, now)]
    requires nextId == currentId + Accepted(behave(|order|, e).schedules) && WellFormed(next, nextId)
    ensures SoFar(start, now, behave, order + [e], next, nextId, firstId)
    ensures |DueIds(next, now)| < |DueIds(current, now)| && Waits(current, now, next)
  {
    TurnGains(behave, now, start, order, firstId, current, currentId, e, next, nextId);
    TurnRuns(behave(|order|, e).schedules, now, start, order, firstId, current, currentId, e, next, nextId);
  }

  lemma TurnsTable(requests: seq<Request>, now: real, current: Jobs, currentId: nat, e: Entry, next: Jobs)
    requires forall k :: 0 <= k < |requests| ==> requests[k].at >= now
    requires WellFormed(current, currentId) && e.id in current
    requires next == (current - {e.id} + Scheduled(requests, currentId))[e.id := Rescheduled(e, now)]
    ensures Turned(current, now, e, next, currentId)
  {
    ScheduledIsNew(requests, currentId, now);
  }

  /** What one turn of the loop runs. */
  lemma TurnRuns(requests: seq<Request>, now: real, start: Jobs, order: seq<Entry>, firstId: nat,
                 current: Jobs, currentId: nat, e: Entry, next: Jobs, nextId: nat)
    requires forall k :: 0 <= k < |requests| ==> requests[k].at >= now
    requires Midway(start, now, order, current, currentId, firstId)
    requires e.id in current && current[e.id] == e && Due(e, now)
    requires forall id :: id in current ==> !EntryLess(current[id], e)
    requires next == (current - {e.id} + Scheduled(requests, currentId))[e.id := Rescheduled(e, now)]
    requires nextId == currentId + Accepted(requests) && WellFormed(next, nextId)
    ensures Midway(start, now, order + [e], next, nextId, firstId)
    ensures |DueIds(next, now)| < |DueIds(current, now)| && Waits(current, now, next)
  {
    TurnsTable(requests, now, current, currentId, e, next);
    RunLeast(start, now, order, current, currentId, firstId, e, next, nextId);
    assert e.id in DueIds(current, now);
  }

  // ---- over many ticks ----

  /** A tick of a run: the job table before and after it, its time, and who ran. */
  datatype TickRecord = TickRecord(before: Jobs, now: real, ran: set<nat>, after: Jobs)

  ghost predicate Keeps(jobs: Jobs, jobs': Jobs) {
    forall id :: id in jobs ==> id in jobs' && jobs'[id] == jobs[id]
  }

  /** Ticks in sequence; between them the table may only gain entries. */
  ghost predicate TickRun(jobs: Jobs, ticks: seq<TickRecord>)
    decreases |ticks|
  {
    ticks == [] ||
    (Keeps(jobs, ticks[0].before)
     && TickStep(ticks[0].before, ticks[0].now, ticks[0].ran, ticks[0].after)
     && TickRun(ticks[0].after, ticks[1..]))
  }

  /** When the entry ran, in tick time. */
  function RunTimes(ticks: seq<TickRecord>, id: nat): seq<real> {
    if ticks == [] then []
    else (if id in ticks[0].ran then [ticks[0].now] else []) + RunTimes(ticks[1..], id)
  }

  function Times(n: nat, gap: real): real {
    if n == 0 then 0.0 else Times(n - 1, gap) + gap
  }

  lemma TimesIsProduct(n: nat, gap: real)
    ensures Times(n, gap) == n as real * gap
  {
    if n > 0 {
      assert (n - 1) as real * gap + gap == n as real * gap;
    }
  }

  /** The n-th execution from now on comes no earlier than n intervals after the time
      the entry is next due, and any two in a row are at least an interval apart. */
  lemma {:induction false} ExecutionsAreSpaced(jobs: Jobs, ticks: seq<TickRecord>, id: nat)
    requires TickRun(jobs, ticks) && id in jobs
    ensures forall n :: 0 <= n < |RunTimes(ticks, id)| ==>
                          RunTimes(ticks, id)[n] >= jobs[id].nextRun + Times(n, Seconds(jobs[id].interval))
    ensures forall n :: 0 < n < |RunTimes(ticks, id)| ==>
                          RunTimes(ticks, id)[n] >= RunTimes(ticks, id)[n - 1] + Seconds(jobs[id].interval)
    ensures forall n :: 0 < n < |RunTimes(ticks, id)| ==>
                          1000.0 * (RunTimes(ticks, id)[n] - RunTimes(ticks, id)[n - 1]) >= jobs[id].interval as real
    decreases |ticks|
  {
    if ticks != [] {
      var t, rest := ticks[0], RunTimes(ticks[1..], id);
      ExecutionsAreSpaced(t.after, ticks[1..], id);
      assert jobs[id] == t.before[id];
      var gap := Seconds(jobs[id].interval);
      if id in t.ran {
        var all := RunTimes(ticks, id);
        assert all == [t.now] + rest && t.after[id] == Rescheduled(jobs[id], t.now);
        forall n | 0 < n < |all|
          ensures all[n] >= jobs[id].nextRun + Times(n, gap) && all[n] >= all[n - 1] + gap
          ensures 1000.0 * (all[n] - all[n - 1]) >= jobs[id].interval as real
        {
          SecondsAreThousandths(jobs[id].interval);
          assert rest[n - 1] >= t.now + gap + Times(n - 1, gap);
        }
      } else {
        assert RunTimes(ticks, id) == rest && t.after[id] == jobs[id];
      }
    }
  }

  lemma LastExecution(jobs: Jobs, ticks: seq<TickRecord>, id: nat, n: nat)
    requires TickRun(jobs, ticks) && id in jobs && n == |RunTimes(ticks, id)| > 0
    ensures RunTimes(ticks, id)[n - 1]
            >= jobs[id].nextRun - Seconds(jobs[id].interval) + Times(n, Seconds(jobs[id].interval))
  {
    ExecutionsAreSpaced(jobs, ticks, id);
  }

  /** Rate bound: executions times interval never exceed the time since scheduling. */
  lemma ExecutionRate(jobs: Jobs, ticks: seq<TickRecord>, id: nat, scheduledAt: real, n: nat)
    requires TickRun(jobs, ticks) && id in jobs && n == |RunTimes(ticks, id)| > 0
    requires 1000.0 * (jobs[id].nextRun - scheduledAt) == jobs[id].interval as real
    ensures (n * jobs[id].interval) as real <= 1000.0 * (RunTimes(ticks, id)[n - 1] - scheduledAt)
  {
    var gap := Seconds(jobs[id].interval);
    SecondsAreThousandths(jobs[id].interval);
    LastExecution(jobs, ticks, id, n);
    TimesIsProduct(n, gap);
    assert n as real * (1000.0 * gap) == 1000.0 * (n as real * gap);
  }

  /** The executions of an entry are the ticks it ran in, in order. */
  lemma {:induction false} RunTimesNext(ticks: seq<TickRecord>, t: TickRecord, id: nat)
    ensures RunTimes([], id) == []
    ensures RunTimes(ticks + [t], id) == RunTimes(ticks, id) + (if id in t.ran then [t.now] else [])
  {
    if ticks != [] {
      assert (ticks + [t])[1..] == ticks[1..] + [t];
      RunTimesNext(ticks[1..], t, id);
    }
  }

  // ---- ties ----

  /** Comparing the two lists falls through to the callables. */
  predicate Ties(a: Entry, b: Entry) {
    a.nextRun == b.nextRun && a.interval == b.interval
  }

  ghost predicate TieFree(jobs: Jobs) {
    forall a, b :: a in jobs && b in jobs && a != b ==> !Ties(jobs[a], jobs[b])
  }

  /** The comparison of the first two fields only. */
  predicate FieldsLess(a: Entry, b: Entry) {
    if a.nextRun != b.nextRun then a.nextRun < b.nextRun else a.interval < b.interval
  }

  /** In a heap without ties the first two fields decide every comparison, so identities
      are never looked at. */
  lemma FieldsDecide(q: seq<Entry>, jobs: Jobs)
    requires Holds(q, jobs, EntryId) && Keyed(jobs, EntryId) && TieFree(jobs)
    ensures forall x, y :: x in q && y in q && x != y ==>
                             && (EntryLess(x, y) <==> FieldsLess(x, y))
                             && (FieldsLess(x, y) <==> !FieldsLess(y, x))
    ensures IsHeap(q, EntryLess) <==> IsHeap(q, FieldsLess)
  {
    FiledIsListed(q, jobs, EntryId);
    assert forall x :: x in q ==> !EntryLess(x, x) && !FieldsLess(x, x);
    forall x, y | x in q && y in q ensures EntryLess(x, y) <==> FieldsLess(x, y) {
      assert x != y ==> x.id != y.id && !Ties(jobs[x.id], jobs[y.id]);
    }
  }

  /** The entry as the loop leaves it. */
  function Left(e: Entry, now: real): Entry {
    if Due(e, now) then Rescheduled(e, now) else e
  }

  /** When a tick at `now` meets no tie: the due entries have different intervals, none
      of them lands on an entry that waits, and what the jobs add ties with nothing. */
  ghost predicate NoTies(start: Jobs, now: real, added: Jobs) {
    && (forall a, b :: a in start && b in start && a != b && Due(start[a], now) && Due(start[b], now) ==>
                         start[a].interval != start[b].interval)
    && (forall a, b :: a in start && b in start && Due(start[a], now) && !Due(start[b], now)
                       && start[a].interval == start[b].interval ==>
                         start[b].nextRun != now + Seconds(start[a].interval))
    && (forall a, b :: a in added && b in start ==> !Ties(added[a], Left(start[b], now)))
    && TieFree(added)
  }

  /** From a table without ties, no table that the loop over due jobs goes through has a
      tie if and only if these conditions hold.  Within a turn the table is part of the
      one after it or of the one before, so then no comparison reaches the callables. */
  lemma LoopTies(start: Jobs, now: real, behave: Behaviour, order: seq<Entry>, tables: seq<Jobs>,
                 after: Jobs, lastId: nat, firstId: nat)
    requires TieFree(start) && WellFormed(start, firstId) && Monotone(behave, now)
    requires DueRan(start, now, behave, order, after, lastId, firstId)
    requires AllPassed(start, now, tables, after)
    ensures TieFree(after) && (forall k :: 0 <= k < |tables| ==> TieFree(tables[k]))
       <==> NoTies(start, now, Made(behave, order, firstId))
  {
    RequestsInTime(behave, order, now);
    ScheduledIsNew(RequestsOf(behave, order), firstId, now);
    FinalTies(start, now, Made(behave, order, firstId), after);
    if TieFree(after) {
      forall k | 0 <= k < |tables| ensures TieFree(tables[k]) {
        PassedTies(start, now, tables[k], after);
      }
    }
  }

  lemma FinalTies(start: Jobs, now: real, added: Jobs, after: Jobs)
    requires TieFree(start) && start.Keys !! added.Keys && Gained(start, added, after)
    requires forall id :: id in start ==> after[id] == Left(start[id], now)
    ensures TieFree(after) <==> NoTies(start, now, added)
  {
  }

  /** A tie that the loop goes through is still there when it ends. */
  lemma PassedTies(start: Jobs, now: real, table: Jobs, after: Jobs)
    requires TieFree(start) && TieFree(after) && PassedBy(start, now, table, after)
    ensures TieFree(table)
  {
  }

  /** Pairwise different intervals. */
  ghost predicate IntervalsDiffer(jobs: Jobs) {
    forall a, b :: a in jobs && b in jobs && a != b ==> jobs[a].interval != jobs[b].interval
  }

  /** With pairwise different intervals in the table and in what the jobs add, no table
      the loop goes through has a tie. */
  lemma DifferentIntervals(start: Jobs, now: real, behave: Behaviour, order: seq<Entry>, tables: seq<Jobs>,
                           after: Jobs, lastId: nat, firstId: nat)
    requires WellFormed(start, firstId) && Monotone(behave, now)
    requires DueRan(start, now, behave, order, after, lastId, firstId)
    requires AllPassed(start, now, tables, after)
    requires IntervalsDiffer(start + Made(behave, order, firstId))
    ensures TieFree(after) && forall k :: 0 <= k < |tables| ==> TieFree(tables[k])
  {
    RequestsInTime(behave, order, now);
    ScheduledIsNew(RequestsOf(behave, order), firstId, now);
    IntervalsAvoidTies(start, now, Made(behave, order, firstId));
    LoopTies(start, now, behave, order, tables, after, lastId, firstId);
  }

  lemma IntervalsAvoidTies(start: Jobs, now: real, added: Jobs)
    requires start.Keys !! added.Keys && IntervalsDiffer(start + added)
    ensures TieFree(start) && NoTies(start, now, added)
  {
    assert forall id :: id in start ==> id in start + added && (start + added)[id] == start[id];
    assert forall id :: id in added ==> id in start + added && (start + added)[id] == added[id];
  }

  /** Two jobs with the same interval that fall due together: their entries differ before
      the tick and tie after it, and pushing the second compares it with the first. */
  lemma TwoJobsTie()
    ensures var start := map[1 := Entry(1, 0.0, 10, 0), 2 := Entry(2, 1.0, 10, 1)];
            && TieFree(start) && DueIds(start, 1.0) == {1, 2}
            && forall after :: TickStep(start, 1.0, {1, 2}, after) ==> !TieFree(after)
  {
    var start := map[1 := Entry(1, 0.0, 10, 0), 2 := Entry(2, 1.0, 10, 1)];
    assert DueIds(start, 1.0) == {1, 2};
    forall after | TickStep(start, 1.0, {1, 2}, after) ensures !TieFree(after) {
      assert Ties(after[1], after[2]);
    }
  }
}
