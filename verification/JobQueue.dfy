/** The job queue itself: a heap of jobs, a table of running ones and a bounded
    history, refining the state machine of JobLifecycle step by step. */
module JobQueue {
  import opened Common
  import opened BinaryHeap
  import opened Table
  import opened JobLifecycle
  import opened JobTheorems

  const DEFAULT_MAX_HISTORY: nat := 200

  function JobId(j: Job): nat {
    j.id
  }

  lemma JobLessOrders()
    ensures Orders(JobLess)
  {
  }

  /** `_trim_history` after one more entry was appended. */
  lemma TrimIsKept(ended: seq<Job>, max: nat, j: Job)
    ensures Kept(Kept(ended, max) + [j], max) == Kept(ended + [j], max)
  {
  }

  /** What the concrete fields say about the state of the machine. */
  ghost predicate Shows(queue: seq<Job>, active: map<nat, Job>, history: seq<Job>, max: nat, s: State) {
    && Inv(s)
    && IsHeap(queue, JobLess) && Holds(queue, s.pending, JobId)
    && active == s.active
    && history == Kept(s.ended, max)
  }

  lemma ShowsSubmit(queue: seq<Job>, queue': seq<Job>, active: map<nat, Job>, history: seq<Job>, max: nat,
                    s: State, e: Event)
    requires Shows(queue, active, history, max, s)
    requires e.Submit? && Enabled(s, e) && IsHeap(queue', JobLess)
    requires multiset(queue') == multiset(queue)
                                 + multiset{Job(s.lastId + 1, e.priority, e.maxRetries, 0, e.now + e.delay, Queued)}
    ensures Shows(queue', active, history, max, Apply(s, e))
  {
    StepKeepsInv(s, e);
    PutIn(queue, queue', s.pending, JobId, Job(s.lastId + 1, e.priority, e.maxRetries, 0, e.now + e.delay, Queued));
  }

  lemma ShowsCancel(queue: seq<Job>, queue': seq<Job>, active: map<nat, Job>, history: seq<Job>, max: nat,
                    s: State, job: Job)
    requires Shows(queue, active, history, max, s)
    requires IsHeap(queue', JobLess) && multiset(queue) == multiset(queue') + multiset{job}
    ensures job.id in s.pending && job.id !in Apply(s, Cancel(job.id)).pending
            && InEnded(Apply(s, Cancel(job.id)), job.id)
    ensures Shows(queue', active, Kept(history + [job.(state := Cancelled)], max), max, Apply(s, Cancel(job.id)))
  {
    TakenOut(queue, queue', s.pending, JobId, job);
    StepKeepsInv(s, Cancel(job.id));
    assert Apply(s, Cancel(job.id)).ended[|s.ended|].id == job.id;
    TrimIsKept(s.ended, max, job.(state := Cancelled));
  }

  lemma ShowsBegin(queue: seq<Job>, queue': seq<Job>, active: map<nat, Job>, history: seq<Job>, max: nat,
                   s: State, now: real, job: Job)
    requires Shows(queue, active, history, max, s) && s.running && now >= s.clock
    requires IsHeap(queue', JobLess) && multiset(queue) == multiset(queue') + multiset{job}
    requires Least(job, multiset(queue), JobLess) && job.nextRunAt <= now
    ensures Enabled(s, Begin(now, job.id))
    ensures Shows(queue', active[job.id := Started(job)], history, max, Apply(s, Begin(now, job.id)))
  {
    TakenOut(queue, queue', s.pending, JobId, job);
    HeadIsLeast(queue, s.pending, JobId, job, JobLess);
    StepKeepsInv(s, Begin(now, job.id));
  }

  lemma ShowsIdle(queue: seq<Job>, active: map<nat, Job>, history: seq<Job>, max: nat, s: State, now: real)
    requires Shows(queue, active, history, max, s) && now >= s.clock
    requires !s.running || queue == [] || queue[0].nextRunAt > now
    ensures Enabled(s, Idle(now))
    ensures Shows(queue, active, history, max, Apply(s, Idle(now)))
  {
    if s.running {
      JobLessOrders();
      if queue != [] {
        RootIsLeast(queue, JobLess);
      }
      FiledIsListed(queue, s.pending, JobId);
      assert forall k :: k in s.pending ==> s.pending[k] in multiset(queue);
    }
    StepKeepsInv(s, Idle(now));
  }

  lemma ShowsRetry(queue: seq<Job>, queue': seq<Job>, active: map<nat, Job>, history: seq<Job>, max: nat,
                   s: State, now: real, id: nat)
    requires Shows(queue, active, history, max, s) && id in active && now >= s.clock
    requires active[id].attempts < active[id].maxRetries
    requires IsHeap(queue', JobLess) && multiset(queue') == multiset(queue) + multiset{Retried(active[id], now)}
    ensures Shows(queue', active - {id}, history, max, Apply(s, Finish(now, id, false)))
  {
    StepKeepsInv(s, Finish(now, id, false));
    PutIn(queue, queue', s.pending, JobId, Retried(active[id], now));
  }

  lemma ShowsEnd(queue: seq<Job>, active: map<nat, Job>, history: seq<Job>, max: nat, s: State, now: real,
                 id: nat, ok: bool)
    requires Shows(queue, active, history, max, s) && id in active && now >= s.clock
    requires ok || active[id].attempts >= active[id].maxRetries
    ensures Shows(queue, active - {id}, Kept(history + [active[id].(state := if ok then Done else Failed)], max), max,
                  Apply(s, Finish(now, id, ok)))
  {
    StepKeepsInv(s, Finish(now, id, ok));
    TrimIsKept(s.ended, max, active[id].(state := if ok then Done else Failed));
  }

  /** The least job is the earliest, then that of lowest priority number, then the first
      submitted. */
  lemma LeastIsFirst(pending: map<nat, Job>, id: nat)
    requires IsLeast(pending, id)
    ensures var first := pending[id];
            forall k :: k in pending ==>
                          var other := pending[k];
                          || first.nextRunAt < other.nextRunAt
                          || (first.nextRunAt == other.nextRunAt && first.priority < other.priority)
                          || (first.nextRunAt == other.nextRunAt && first.priority == other.priority
                              && first.id <= other.id)
  {
  }

  // ---- what a job may call while it runs ----

  predicate JobCall(e: Event) {
    e.Start? || e.Stop? || e.Submit? || e.Cancel?
  }

  predicate JobCalls(calls: seq<Event>) {
    forall k :: 0 <= k < |calls| ==> JobCall(calls[k])
  }

  /** The clock readings of the calls never go back. */
  predicate InTime(calls: seq<Event>, clock: real) {
    calls == [] || (if calls[0].Submit? then calls[0].now >= clock && InTime(calls[1..], calls[0].now)
                    else InTime(calls[1..], clock))
  }

  function LastReading(calls: seq<Event>, clock: real): real {
    if calls == [] then clock
    else LastReading(calls[1..], if calls[0].Submit? then calls[0].now else clock)
  }

  lemma {:induction false} InTimeNext(calls: seq<Event>, clock: real, c: Event)
    ensures InTime([], clock) && LastReading([], clock) == clock
    ensures InTime(calls + [c], clock) <==> InTime(calls, clock) && (c.Submit? ==> c.now >= LastReading(calls, clock))
    ensures LastReading(calls + [c], clock) == if c.Submit? then c.now else LastReading(calls, clock)
  {
    if calls == [] {
      assert [c][1..] == [] && [] + [c] == [c];
    } else {
      assert (calls + [c])[1..] == calls[1..] + [c];
      InTimeNext(calls[1..], if calls[0].Submit? then calls[0].now else clock, c);
    }
  }

  lemma {:induction false} CallsKeepActive(s: State, calls: seq<Event>, s': State)
    requires JobCalls(calls) && Run(s, calls, s')
    ensures s'.active == s.active && s'.clock == LastReading(calls, s.clock)
    decreases |calls|
  {
    if calls != [] {
      assert JobCall(calls[0]);
      CallsKeepActive(Apply(s, calls[0]), calls[1..], s');
    }
  }

  lemma {:induction false} RunThen(s: State, es: seq<Event>, m: State, e: Event)
    requires Run(s, es, m) && Enabled(m, e)
    ensures Run(s, es + [e], Apply(m, e))
    decreases |es|
  {
    if es != [] {
      assert (es + [e])[1..] == es[1..] + [e];
      RunThen(Apply(s, es[0]), es[1..], m, e);
    }
  }

  lemma WholeDrain(m0: State, m1: State, m2: State, m3: State, begin: Event, calls: seq<Event>, finish: Event)
    requires Enabled(m0, begin) && m1 == Apply(m0, begin) && Run(m1, calls, m2)
    requires Enabled(m2, finish) && m3 == Apply(m2, finish)
    ensures Run(m0, [begin] + calls + [finish], m3)
  {
    RunThen(m1, calls, m2, finish);
    var all := [begin] + calls + [finish];
    assert all[0] == begin && all[1..] == calls + [finish];
  }

  class JobQueue {
    var queue: seq<Job>
    var active: map<nat, Job>
    var history: seq<Job>
    const maxHistory: nat
    var running: bool
    var lastId: nat
    ghost var model: State

    ghost predicate Valid()
      reads this
    {
      Shows(queue, active, history, maxHistory, model) && running == model.running && lastId == model.lastId
    }

    constructor (ghost clock: real, maxHistory: nat := DEFAULT_MAX_HISTORY)
      ensures Valid()
      ensures model == Init(clock) && this.maxHistory == maxHistory
    {
      queue, active, history, running, lastId := [], map[], [], false, 0;
      model := Init(clock);
      this.maxHistory := maxHistory;
    }

    method StartQueue()
      requires Valid()
      modifies this
      ensures Valid() && model == Apply(old(model), Start)
      ensures running && model == old(model).(running := true)
    {
      StepKeepsInv(model, Start);
      running := true;
      model := Apply(model, Start);
    }

    method StopQueue()
      requires Valid()
      modifies this
      ensures Valid() && model == Apply(old(model), Stop)
      ensures !running && model == old(model).(running := false)
    {
      StepKeepsInv(model, Stop);
      running := false;
      model := Apply(model, Stop);
    }

    method SubmitJob(priority: int, maxRetries: int, now: real, delay: real) returns (id: nat)
      requires Valid() && now >= model.clock
      modifies this
      ensures Valid() && model == Apply(old(model), Submit(now, delay, priority, maxRetries))
      ensures id == model.lastId == old(model).lastId + 1
      ensures model.pending == old(model).pending[id := Job(id, priority, maxRetries, 0, now + delay, Queued)]
      ensures model.active == old(model).active && model.ended == old(model).ended && running == old(running)
    {
      JobLessOrders();
      lastId := lastId + 1;
      id := lastId;
      var job := Job(id, priority, maxRetries, 0, now + delay, Queued);
      var queue' := Push(queue, job, JobLess);
      ghost var e := Submit(now, delay, priority, maxRetries);
      ShowsSubmit(queue, queue', active, history, maxHistory, model, e);
      queue := queue';
      model := Apply(model, e);
    }

    /** Deletes the job from the middle of the heap and restores heap order. */
    method CancelJob(id: nat) returns (found: bool)
      requires Valid()
      modifies this
      ensures Valid() && model == Apply(old(model), Cancel(id))
      ensures found <==> id in old(model).pending
      ensures id !in model.pending && (found ==> InEnded(model, id))
      ensures !found ==> model == old(model)
      ensures found ==>
                && model.pending == old(model).pending - {id} && model.active == old(model).active
                && model.ended == old(model).ended + [old(model).pending[id].(state := Cancelled)]
    {
      var i := FindIn(queue, id);
      found := i < |queue|;
      if !found {
        FiledIsListed(queue, model.pending, JobId);
        return;
      }
      DropAt(i);
    }

    method DropAt(i: nat)
      requires Valid() && i < |queue|
      modifies this
      ensures Valid() && old(queue)[i].id in old(model).pending
      ensures model == Apply(old(model), Cancel(old(queue)[i].id))
      ensures old(queue)[i].id !in model.pending && InEnded(model, old(queue)[i].id)
    {
      var job := queue[i];
      JobLessOrders();
      var queue' := Heapify(Without(queue, i), JobLess);
      ShowsCancel(queue, queue', active, history, maxHistory, model, job);
      queue := queue';
      history := TrimHistory(history + [job.(state := Cancelled)]);
      model := Apply(model, Cancel(job.id));
    }

    /** What the fields hold at any time: a heap of exactly the pending jobs, the running
        jobs, and the newest of the ended ones. */
    lemma FieldsHold()
      requires Valid()
      ensures IsHeap(queue, JobLess)
      ensures forall j: Job :: multiset(queue)[j] == if j.id in model.pending && model.pending[j.id] == j then 1 else 0
      ensures active == model.active && running == model.running
      ensures maxHistory > 0 ==> |history| <= maxHistory
      ensures exists older :: older + history == model.ended
    {
      KeptIsNewest(model.ended, maxHistory);
      assert forall j: Job :: JobId(j) == j.id;
    }

    /** `_trim_history` on the given list. */
    method TrimHistory(entries: seq<Job>) returns (trimmed: seq<Job>)
      ensures trimmed == Kept(entries, maxHistory)
    {
      trimmed := entries;
      if |entries| > maxHistory {
        trimmed := if maxHistory == 0 then entries else entries[|entries| - maxHistory..];
      }
    }

    /** First half of `_drain_one`: pop the head if the queue runs and the head is due.
        Either the least pending job starts, or none is due or the queue is stopped. */
    method BeginDrain(now: real) returns (started: Option<Job>)
      requires Valid() && now >= model.clock
      modifies this
      ensures Valid()
      ensures started.None? ==> Enabled(old(model), Idle(now)) && model == Apply(old(model), Idle(now))
      ensures started.Some? ==>
                && Enabled(old(model), Begin(now, started.value.id))
                && model == Apply(old(model), Begin(now, started.value.id))
                && started.value.id in active && started.value == active[started.value.id]
      ensures started.None? ==>
                && model == old(model).(clock := now)
                && (!old(running) || forall k :: k in old(model).pending ==> old(model).pending[k].nextRunAt > now)
      ensures started.Some? ==>
                && old(running) && started.value.id in old(model).pending
                && var first := old(model).pending[started.value.id];
                && first.nextRunAt <= now
                && started.value == first.(state := Running, attempts := first.attempts + 1)
                && forall k :: k in old(model).pending ==>
                                 var other := old(model).pending[k];
                                 || first.nextRunAt < other.nextRunAt
                                 || (first.nextRunAt == other.nextRunAt && first.priority < other.priority)
                                 || (first.nextRunAt == other.nextRunAt && first.priority == other.priority
                                     && first.id <= other.id)
    {
      if !running || queue == [] || queue[0].nextRunAt > now {
        ShowsIdle(queue, active, history, maxHistory, model, now);
        model := Apply(model, Idle(now));
        return None;
      }
      var job := StartHead(now);
      LeastIsFirst(old(model).pending, job.id);
      started := Some(job);
    }

    /** The head of the heap leaves the queue and runs. */
    method StartHead(now: real) returns (job: Job)
      requires Valid() && now >= model.clock && running && queue != [] && queue[0].nextRunAt <= now
      modifies this
      ensures Valid()
      ensures job.id in active && job == active[job.id]
      ensures Enabled(old(model), Begin(now, job.id))
      ensures model == Apply(old(model), Begin(now, job.id))
    {
      JobLessOrders();
      ghost var was := model;
      var head, queue' := PopMin(queue, JobLess);
      ShowsBegin(queue, queue', active, history, maxHistory, model, now, head);
      job := Started(head);
      queue, active := queue', active[job.id := job];
      model := Apply(was, Begin(now, head.id));
    }

    /** Second half of `_drain_one`: the job returned (`ok`) or raised. */
    method FinishDrain(id: nat, now: real, ok: bool)
      requires Valid() && id in active && now >= model.clock
      modifies this
      ensures Valid() && model == Apply(old(model), Finish(now, id, ok))
      ensures var job := old(model).active[id];
              && model.active == old(model).active - {id}
              && if ok || job.attempts >= job.maxRetries then
                   && model.pending == old(model).pending
                   && model.ended == old(model).ended + [job.(state := if ok then Done else Failed)]
                 else
                   && model.ended == old(model).ended
                   && model.pending == old(model).pending[id := job.(nextRunAt := now + Pow(2, job.attempts) as real,
                                                                     state := Retrying)]
    {
      if !ok && active[id].attempts < active[id].maxRetries {
        Retry(id, now);
      } else {
        End(id, now, ok);
      }
    }

    /** The rest of a failing drain below the limit. */
    method Retry(id: nat, now: real)
      requires Valid() && id in active && now >= model.clock
      requires active[id].attempts < active[id].maxRetries
      modifies this
      ensures Valid() && model == Apply(old(model), Finish(now, id, false))
    {
      var job := active[id];
      var backoff := Pow(2, job.attempts);
      job := job.(nextRunAt := now + backoff as real, state := Retrying);
      JobLessOrders();
      var queue' := Push(queue, job, JobLess);
      ShowsRetry(queue, queue', active, history, maxHistory, model, now, id);
      queue := queue';
      active := active - {id};
      model := Apply(model, Finish(now, id, false));
    }

    method End(id: nat, now: real, ok: bool)
      requires Valid() && id in active && now >= model.clock
      requires ok || active[id].attempts >= active[id].maxRetries
      modifies this
      ensures Valid() && model == Apply(old(model), Finish(now, id, ok))
    {
      ShowsEnd(queue, active, history, maxHistory, model, now, id, ok);
      history := TrimHistory(history + [active[id].(state := if ok then Done else Failed)]);
      active := active - {id};
      model := Apply(model, Finish(now, id, ok));
    }

    /** A whole `_drain_one`, of a job that makes some calls on the queue before it
        returns or raises. */
    method DrainOne(now: real, calls: seq<Event>, later: real, ok: bool) returns (ran: Option<nat>)
      requires Valid() && now >= model.clock
      requires JobCalls(calls) && InTime(calls, now) && LastReading(calls, now) <= later
      modifies this
      ensures Valid()
      ensures ran.Some? <==>
                old(model).running && exists k :: k in old(model).pending && old(model).pending[k].nextRunAt <= now
      ensures ran.None? ==> model == Apply(old(model), Idle(now))
      ensures ran.Some? ==>
                Run(old(model), [Begin(now, ran.value)] + calls + [Finish(later, ran.value, ok)], model)
    {
      var started := BeginDrain(now);
      if started.None? {
        return None;
      }
      var id := started.value.id;
      ghost var m0, m1 := old(model), model;
      MakeCalls(calls);
      ghost var m2 := model;
      CallsKeepActive(m1, calls, m2);
      FinishDrain(id, later, ok);
      WholeDrain(m0, m1, m2, model, Begin(now, id), calls, Finish(later, id, ok));
      ran := Some(id);
    }

    /** Calls in order. */
    method MakeCalls(calls: seq<Event>)
      requires Valid() && JobCalls(calls) && InTime(calls, model.clock)
      modifies this
      ensures Valid() && Run(old(model), calls, model)
      decreases |calls|
    {
      if calls != [] {
        MakeCall(calls[0]);
        MakeCalls(calls[1..]);
      }
    }

    method MakeCall(call: Event)
      requires Valid() && JobCall(call) && Enabled(model, call)
      modifies this
      ensures Valid() && model == Apply(old(model), call)
    {
      match call {
        case Start => StartQueue();
        case Stop => StopQueue();
        case Submit(now, delay, priority, maxRetries) =>
          var id := SubmitJob(priority, maxRetries, now, delay);
        case Cancel(id) =>
          var found := CancelJob(id);
        case _ =>
      }
    }

    /** `status`: looks among running and past jobs only, so a queued job is unknown. */
    method Status(id: nat) returns (job: Option<Job>)
      requires Valid()
      ensures job.Some? <==> id in active || HasId(history, id)
      ensures job.Some? ==> job.value.id == id && (job.value in history || (id in active && job.value == active[id]))
      ensures id in model.pending ==> job.None?
    {
      if id in model.pending {
        QueuedIsUnknown(model, maxHistory, id);
      }
      if id in active {
        return Some(active[id]);
      }
      var i := FindIn(history, id);
      job := if i < |history| then Some(history[i]) else None;
      assert i < |history| ==> HasId(history, id);
    }
  }

  /** Index of the first job with the id, or the length if there is none. */
  method FindIn(js: seq<Job>, id: nat) returns (i: nat)
    ensures i <= |js| && (i < |js| ==> js[i].id == id)
    ensures forall k :: 0 <= k < i ==> js[k].id != id
  {
    i := 0;
    while i < |js| && js[i].id != id
      invariant i <= |js|
      invariant forall k :: 0 <= k < i ==> js[k].id != id
    {
      i := i + 1;
    }
  }

  lemma QueuedIsUnknown(s: State, max: nat, id: nat)
    requires Inv(s) && id in s.pending
    ensures id !in s.active && !HasId(Kept(s.ended, max), id)
  {
    HistoryOrTrimmed(s, max, id);
  }
}
