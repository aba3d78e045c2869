/** What holds of the job queue over whole runs, whatever the interleaving of
    submits, cancels, drains and job outcomes. */
module JobTheorems {
  import opened Common
  import opened JobLifecycle

  // ---- conservation ----

  function Submits(es: seq<Event>): nat {
    if es == [] then 0 else (if es[0].Submit? then 1 else 0) + Submits(es[1..])
  }

  /** `_trim_history` keeps the last `max` entries; a maximum of zero trims nothing,
      since a slice from -0 is the whole list. */
  function Kept<T>(ended: seq<T>, max: nat): (history: seq<T>) {
    if |ended| > max && max > 0 then ended[|ended| - max..] else ended
  }

  /** What is kept is the newest entries, at most `max` of them unless that is zero, and
      nothing is dropped before there are more. */
  lemma KeptIsNewest<T>(ended: seq<T>, max: nat)
    ensures max > 0 ==> |Kept(ended, max)| == if |ended| > max then max else |ended|
    ensures max == 0 ==> Kept(ended, max) == ended
    ensures exists older :: older + Kept(ended, max) == ended
  {
    assert ended[..|ended| - |Kept(ended, max)|] + Kept(ended, max) == ended;
  }

  ghost function Trimmed(s: State, max: nat): seq<Job> {
    s.ended[..|s.ended| - |Kept(s.ended, max)|]
  }

  /** In how many of pending, active, history and trimmed-away the id is found. */
  ghost function Places(s: State, max: nat, id: nat): nat {
    (if id in s.pending then 1 else 0) + (if id in s.active then 1 else 0)
    + (if HasId(Kept(s.ended, max), id) then 1 else 0)
    + (if HasId(Trimmed(s, max), id) then 1 else 0)
  }

  /** Every submitted job is in exactly one place, and nothing else is anywhere. */
  lemma JobConservation(clock: real, es: seq<Event>, s: State, max: nat, id: nat)
    requires Run(Init(clock), es, s)
    ensures s.lastId == Submits(es)
    ensures Places(s, max, id) == (if 1 <= id <= Submits(es) then 1 else 0)
    ensures id in s.pending ==> PendingOk(s.pending[id], id)
    ensures id in s.active ==> ActiveOk(s.active[id], id)
    ensures forall j :: j in Kept(s.ended, max) ==> EndedOk(j)
  {
    RunKeepsInv(Init(clock), es, s);
    LastIdCountsSubmits(Init(clock), es, s);
    HistoryOrTrimmed(s, max, id);
    assert s.ended == Trimmed(s, max) + Kept(s.ended, max);
  }

  /** The states that go with the places. */
  lemma JobStates(clock: real, es: seq<Event>, s: State, id: nat)
    requires Run(Init(clock), es, s)
    ensures id in s.pending ==> s.pending[id].state == if s.pending[id].attempts == 0 then Queued else Retrying
    ensures id in s.active ==> s.active[id].state == Running
    ensures forall j :: j in s.ended ==>
                          && j.state in {Done, Failed, Cancelled}
                          && (j.state == Cancelled ==> j.attempts < Max(1, j.maxRetries))
  {
    RunKeepsInv(Init(clock), es, s);
    forall j | j in s.ended ensures EndedOk(j) {
      var i :| 0 <= i < |s.ended| && s.ended[i] == j;
    }
  }

  /** An ended job is either still in history or trimmed away, not both. */
  lemma {:induction false} HistoryOrTrimmed(s: State, max: nat, id: nat)
    requires Placed(s)
    ensures InEnded(s, id) <==> HasId(Kept(s.ended, max), id) || HasId(Trimmed(s, max), id)
    ensures !(HasId(Kept(s.ended, max), id) && HasId(Trimmed(s, max), id))
  {
    var history, gone := Kept(s.ended, max), Trimmed(s, max);
    assert s.ended == gone + history;
    HasIdConcat(gone, history, id);
    forall i, k | 0 <= i < |gone| && 0 <= k < |history| ensures gone[i].id != history[k].id {
      assert s.ended[i] == gone[i] && s.ended[|gone| + k] == history[k];
    }
  }

  lemma {:induction false} LastIdCountsSubmits(s: State, es: seq<Event>, s': State)
    requires Run(s, es, s')
    ensures s'.lastId == s.lastId + Submits(es)
    decreases |es|
  {
    if es != [] {
      LastIdCountsSubmits(Apply(s, es[0]), es[1..], s');
    }
  }

  /** The list of ended jobs only grows, so history is the most recent of them in
      the order they ended. */
  lemma {:induction false} EndedIsAppendOnly(s: State, es: seq<Event>, s': State)
    requires Run(s, es, s')
    ensures s.ended <= s'.ended
    decreases |es|
  {
    if es != [] {
      EndedIsAppendOnly(Apply(s, es[0]), es[1..], s');
    }
  }

  /** A job that came to an end, cancelled ones included, never runs again. */
  lemma {:induction false} EndedNeverRuns(s: State, es: seq<Event>, s': State, id: nat)
    requires Inv(s) && Run(s, es, s') && InEnded(s, id)
    ensures InEnded(s', id)
    ensures forall i :: 0 <= i < |es| ==> es[i].Begin? ==> es[i].id != id
    decreases |es|
  {
    if es != [] {
      var e, m := es[0], Apply(s, es[0]);
      StepKeepsInv(s, e);
      assert InEnded(m, id) by {
        EndedStays(s, e, id);
      }
      EndedNeverRuns(m, es[1..], s', id);
      forall i | 0 <= i < |es| && es[i].Begin? ensures es[i].id != id {
        if i > 0 {
          assert es[1..][i - 1] == es[i];
        }
      }
    }
  }

  lemma EndedStays(s: State, e: Event, id: nat)
    requires Enabled(s, e) && InEnded(s, id)
    ensures InEnded(Apply(s, e), id)
  {
    var i :| 0 <= i < |s.ended| && s.ended[i].id == id;
    assert Apply(s, e).ended[i] == s.ended[i];
  }

  /** Whatever happens after a successful cancel, the job is never started. */
  lemma CancelledNeverRuns(s: State, id: nat, es: seq<Event>, s': State)
    requires Inv(s) && id in s.pending && Run(Apply(s, Cancel(id)), es, s')
    ensures forall i :: 0 <= i < |es| ==> es[i].Begin? ==> es[i].id != id
  {
    var m := Apply(s, Cancel(id));
    StepKeepsInv(s, Cancel(id));
    assert m.ended[|s.ended|].id == id by {
      assert PendingOk(s.pending[id], id);
    }
    EndedNeverRuns(m, es, s', id);
  }

  // ---- attempts ----

  /** A step ends at most one job, a waiting or a running one, and ended jobs stay. */
  lemma EndedByStep(s: State, e: Event)
    requires Inv(s) && Enabled(s, e)
    ensures var s' := Apply(s, e);
            s'.ended == s.ended || exists j: Job ::
              && s'.ended == s.ended + [j]
              && (e.Cancel? || e.Finish?) && j.id == e.id
              && if e.Cancel? then e.id in s.pending && j == s.pending[e.id].(state := Cancelled)
                 else e.id in s.active && (j == s.active[e.id].(state := Done) || j == s.active[e.id].(state := Failed))
  {
    var s' := Apply(s, e);
    if s'.ended != s.ended {
      assert s'.ended == s.ended + [s'.ended[|s.ended|]];
    }
  }

  function Begins(es: seq<Event>, id: nat): nat {
    if es == [] then 0
    else (if es[0].Begin? && es[0].id == id then 1 else 0) + Begins(es[1..], id)
  }

  /** Wherever the job is, its counter stands at n; no counter before it exists. */
  ghost predicate AttemptsAre(s: State, id: nat, n: nat) {
    && (id in s.pending ==> s.pending[id].attempts == n)
    && (id in s.active ==> s.active[id].attempts == n)
    && (forall j :: j in s.ended && j.id == id ==> j.attempts == n)
    && (id > s.lastId ==> n == 0)
  }

  lemma {:induction false} AttemptsCountStarts(s: State, es: seq<Event>, s': State, id: nat, n: nat)
    requires Inv(s) && Run(s, es, s') && AttemptsAre(s, id, n)
    ensures AttemptsAre(s', id, n + Begins(es, id))
    decreases |es|
  {
    if es != [] {
      var e, m := es[0], Apply(s, es[0]);
      StepKeepsInv(s, e);
      var n' := if e.Begin? && e.id == id then n + 1 else n;
      assert AttemptsAre(m, id, n') by {
        AttemptsStep(s, e, id, n);
      }
      AttemptsCountStarts(m, es[1..], s', id, n');
    }
  }

  lemma AttemptsStep(s: State, e: Event, id: nat, n: nat)
    requires Inv(s) && Enabled(s, e) && AttemptsAre(s, id, n)
    ensures AttemptsAre(Apply(s, e), id, if e.Begin? && e.id == id then n + 1 else n)
  {
    EndedByStep(s, e);
    if e.Begin? && e.id == id {
      assert forall j :: j in s.ended ==> InEnded(s, j.id);
    }
  }

  /** A job never gets more than max(1, max_retries) attempts, and one that ended
      as failed got exactly that many. */
  lemma AttemptsAreBounded(clock: real, es: seq<Event>, s: State, id: nat)
    requires Run(Init(clock), es, s)
    ensures id in s.pending ==> Begins(es, id) < Limit(s.pending[id])
    ensures id in s.active ==> 1 <= Begins(es, id) <= Limit(s.active[id])
    ensures forall j :: j in s.ended && j.id == id ==>
                          && Begins(es, id) == j.attempts <= Limit(j)
                          && (j.state == Failed ==> Begins(es, id) == Limit(j))
                          && (j.state == Done ==> Begins(es, id) >= 1)
  {
    RunKeepsInv(Init(clock), es, s);
    AttemptsCountStarts(Init(clock), es, s, id, 0);
  }

  /** Attempts the job can still get. */
  function Left(s: State, id: nat): int {
    if id in s.pending then Limit(s.pending[id]) - s.pending[id].attempts
    else if id in s.active then Limit(s.active[id]) - s.active[id].attempts
    else 0
  }

  function Remaining(s: State, n: nat): int {
    if n == 0 then 0 else Left(s, n) + Remaining(s, n - 1)
  }

  lemma {:induction false} RemainingDrops(s: State, s': State, n: nat, id: nat)
    requires forall k: nat :: k != id ==> Left(s', k) == Left(s, k)
    ensures Remaining(s', n) == Remaining(s, n) + (if 1 <= id <= n then Left(s', id) - Left(s, id) else 0)
  {
    if n > 0 {
      RemainingDrops(s, s', n - 1, id);
    }
  }

  lemma {:induction false} RemainingNonNegative(s: State, n: nat)
    requires Inv(s)
    ensures Remaining(s, n) >= 0
  {
    if n > 0 {
      RemainingNonNegative(s, n - 1);
    }
  }

  /** Each start uses up one remaining attempt, and nothing but a submit adds one. */
  lemma StepUsesAttempt(s: State, e: Event)
    requires Inv(s) && Enabled(s, e) && !e.Submit?
    ensures Remaining(Apply(s, e), s.lastId) <= Remaining(s, s.lastId) - (if e.Begin? then 1 else 0)
  {
    var s' := Apply(s, e);
    var id := if e.Begin? || e.Finish? || e.Cancel? then e.id else 0;
    assert forall k: nat :: k != id ==> Left(s', k) == Left(s, k);
    RemainingDrops(s, s', s.lastId, id);
  }

  function AllBegins(es: seq<Event>): nat {
    if es == [] then 0 else (if es[0].Begin? then 1 else 0) + AllBegins(es[1..])
  }

  lemma {:induction false} RunUsesAttempts(s: State, es: seq<Event>, s': State)
    requires Inv(s) && Run(s, es, s') && Submits(es) == 0
    ensures AllBegins(es) + Remaining(s', s.lastId) <= Remaining(s, s.lastId)
    decreases |es|
  {
    if es != [] {
      var m := Apply(s, es[0]);
      StepUsesAttempt(s, es[0]);
      StepKeepsInv(s, es[0]);
      assert m.lastId == s.lastId;
      RunUsesAttempts(m, es[1..], s');
    }
  }

  /** With no new submits, the number of executions is bounded by the attempts the
      jobs in the queue have left. */
  lemma ExecutionsAreBounded(s: State, es: seq<Event>, s': State)
    requires Inv(s) && Run(s, es, s') && Submits(es) == 0
    ensures AllBegins(es) <= Remaining(s, s.lastId)
  {
    RunUsesAttempts(s, es, s');
    RunKeepsInv(s, es, s');
    RemainingNonNegative(s', s.lastId);
  }

  // ---- what a submit fixes ----

  /** Wherever the job is, it has this priority and this limit on attempts. */
  ghost predicate FieldsAre(s: State, id: nat, priority: int, maxRetries: int) {
    && (id in s.pending ==> s.pending[id].priority == priority && s.pending[id].maxRetries == maxRetries)
    && (id in s.active ==> s.active[id].priority == priority && s.active[id].maxRetries == maxRetries)
    && (forall j :: j in s.ended && j.id == id ==> j.priority == priority && j.maxRetries == maxRetries)
  }

  lemma FieldsStep(s: State, e: Event, id: nat, priority: int, maxRetries: int)
    requires Inv(s) && Enabled(s, e) && id <= s.lastId && FieldsAre(s, id, priority, maxRetries)
    ensures FieldsAre(Apply(s, e), id, priority, maxRetries)
  {
    EndedByStep(s, e);
  }

  lemma {:induction false} FieldsStay(s: State, es: seq<Event>, s': State, id: nat, priority: int, maxRetries: int)
    requires Inv(s) && Run(s, es, s') && id <= s.lastId && FieldsAre(s, id, priority, maxRetries)
    ensures FieldsAre(s', id, priority, maxRetries)
    decreases |es|
  {
    if es != [] {
      StepKeepsInv(s, es[0]);
      FieldsStep(s, es[0], id, priority, maxRetries);
      FieldsStay(Apply(s, es[0]), es[1..], s', id, priority, maxRetries);
    }
  }

  lemma FieldsAtSubmit(s: State, e: Event)
    requires Inv(s) && Enabled(s, e) && e.Submit?
    ensures FieldsAre(Apply(s, e), s.lastId + 1, e.priority, e.maxRetries)
  {
    assert forall j :: j in s.ended ==> InEnded(s, j.id);
  }

  lemma SubmitsShift(es: seq<Event>, i: nat)
    requires 0 < i <= |es|
    ensures Submits(es[..i]) == (if es[0].Submit? then 1 else 0) + Submits(es[1..][..i - 1])
  {
    assert es[..i][0] == es[0] && es[..i][1..] == es[1..][..i - 1];
  }

  lemma LastIdStep(s: State, e: Event)
    requires Enabled(s, e)
    ensures Apply(s, e).lastId == s.lastId + (if e.Submit? then 1 else 0)
  {
  }

  lemma {:induction false} FieldsFromSubmit(s: State, es: seq<Event>, s': State, i: nat)
    requires Inv(s) && Run(s, es, s') && i < |es| && es[i].Submit?
    ensures FieldsAre(s', s.lastId + Submits(es[..i]) + 1, es[i].priority, es[i].maxRetries)
    decreases |es|
  {
    var m := Apply(s, es[0]);
    StepKeepsInv(s, es[0]);
    if i == 0 {
      assert es[..0] == [];
      FieldsAtSubmit(s, es[0]);
      FieldsStay(m, es[1..], s', s.lastId + 1, es[0].priority, es[0].maxRetries);
    } else {
      SubmitsShift(es, i);
      LastIdStep(s, es[0]);
      FieldsFromSubmit(m, es[1..], s', i - 1);
    }
  }

  /** A job keeps the priority and the limit it was submitted with, wherever it is, and
      its starts are bounded by that limit. */
  lemma SubmitFixesLimit(clock: real, es: seq<Event>, s: State, i: nat)
    requires Run(Init(clock), es, s) && i < |es| && es[i].Submit?
    ensures var id, limit, n := Submits(es[..i]) + 1, Max(1, es[i].maxRetries), Begins(es, Submits(es[..i]) + 1);
            && (id in s.pending ==> s.pending[id].priority == es[i].priority && n < limit
                                    && s.pending[id].maxRetries == es[i].maxRetries)
            && (id in s.active ==> s.active[id].priority == es[i].priority && 1 <= n <= limit
                                   && s.active[id].maxRetries == es[i].maxRetries)
            && (forall j :: j in s.ended && j.id == id ==>
                  && j.priority == es[i].priority && j.maxRetries == es[i].maxRetries && n <= limit
                  && (j.state == Failed ==> n == limit) && (j.state == Done ==> n >= 1))
  {
    var id := Submits(es[..i]) + 1;
    FieldsFromSubmit(Init(clock), es, s, i);
    AttemptsAreBounded(clock, es, s, id);
  }

  /** A failing attempt, the n-th, of a job submitted by event i: below the submitted
      limit the job waits exactly 2^n seconds from then, otherwise it ends as failed. */
  lemma FailedAttempt(clock: real, es: seq<Event>, s: State, i: nat, now: real)
    requires Run(Init(clock), es, s) && i < |es| && es[i].Submit?
    requires Enabled(s, Finish(now, Submits(es[..i]) + 1, false))
    ensures var id, n := Submits(es[..i]) + 1, Begins(es, Submits(es[..i]) + 1);
            var s' := Apply(s, Finish(now, id, false));
            if n < es[i].maxRetries then
              && id in s'.pending && s'.pending[id].nextRunAt == now + Pow(2, n) as real
              && s'.pending[id].state == Retrying && s'.ended == s.ended
            else
              && s'.pending == s.pending && |s'.ended| == |s.ended| + 1
              && s'.ended[|s.ended|].id == id && s'.ended[|s.ended|].state == Failed
  {
    var id := Submits(es[..i]) + 1;
    assert ActiveOk(s.active[id], id) by {
      RunKeepsInv(Init(clock), es, s);
    }
    assert s.active[id].maxRetries == es[i].maxRetries by {
      FieldsFromSubmit(Init(clock), es, s, i);
    }
    assert s.active[id].attempts == Begins(es, id) by {
      AttemptsCountStarts(Init(clock), es, s, id, 0);
    }
    FailedAttemptIs(s, id, now);
  }

  lemma FailedAttemptIs(s: State, id: nat, now: real)
    requires Enabled(s, Finish(now, id, false)) && ActiveOk(s.active[id], id)
    ensures var s', n := Apply(s, Finish(now, id, false)), s.active[id].attempts;
            if n < s.active[id].maxRetries then
              && id in s'.pending && s'.pending[id].nextRunAt == now + Pow(2, n) as real
              && s'.pending[id].state == Retrying && s'.ended == s.ended
            else
              && s'.pending == s.pending && |s'.ended| == |s.ended| + 1
              && s'.ended[|s.ended|].id == id && s'.ended[|s.ended|].state == Failed
  {
  }

  /** A waiting job is started at most as often as it has attempts left, whatever is
      submitted meanwhile. */
  lemma JobExecutionsBounded(s: State, es: seq<Event>, s': State, id: nat)
    requires Inv(s) && Run(s, es, s') && id in s.pending
    ensures Begins(es, id) <= Max(1, s.pending[id].maxRetries) - s.pending[id].attempts
  {
    var j := s.pending[id];
    assert forall k :: k in s.ended ==> InEnded(s, k.id);
    AttemptsCountStarts(s, es, s', id, j.attempts);
    FieldsStay(s, es, s', id, j.priority, j.maxRetries);
    RunKeepsInv(s, es, s');
    assert s'.lastId >= id by {
      LastIdCountsSubmits(s, es, s');
    }
    if InEnded(s', id) {
      var k :| 0 <= k < |s'.ended| && s'.ended[k].id == id;
      assert EndedOk(s'.ended[k]) && s'.ended[k] in s'.ended;
    }
  }

  // ---- counting ----

  lemma {:induction false} BeginsNext(es: seq<Event>, e: Event, id: nat)
    ensures Begins([], id) == 0
    ensures Begins(es + [e], id) == Begins(es, id) + (if e.Begin? && e.id == id then 1 else 0)
  {
    if es != [] {
      assert (es + [e])[1..] == es[1..] + [e];
      BeginsNext(es[1..], e, id);
    }
  }

  lemma {:induction false} AllBeginsNext(es: seq<Event>, e: Event)
    ensures AllBegins([]) == 0
    ensures AllBegins(es + [e]) == AllBegins(es) + (if e.Begin? then 1 else 0)
  {
    if es != [] {
      assert (es + [e])[1..] == es[1..] + [e];
      AllBeginsNext(es[1..], e);
    }
  }

  lemma {:induction false} SubmitsNext(es: seq<Event>, e: Event)
    ensures Submits([]) == 0
    ensures Submits(es + [e]) == Submits(es) + (if e.Submit? then 1 else 0)
  {
    if es != [] {
      assert (es + [e])[1..] == es[1..] + [e];
      SubmitsNext(es[1..], e);
    }
  }

  // ---- back-off ----

  /** Seconds of back-off before attempt n: 2 + 4 + ... + 2^(n-1). */
  function Waited(n: nat): int {
    if n <= 1 then 0 else Waited(n - 1) + Pow(2, n - 1)
  }

  lemma {:induction false} WaitedClosedForm(n: nat)
    requires n >= 1
    ensures Waited(n) == Pow(2, n) - 2
  {
    if n > 1 {
      WaitedClosedForm(n - 1);
    }
  }

  ghost predicate Timely(s: State) {
    && (forall id :: id in s.pending ==>
          id in s.first && s.pending[id].nextRunAt >= s.first[id] + Waited(s.pending[id].attempts + 1) as real)
    && (forall id :: id in s.active ==>
          id in s.first && s.clock >= s.first[id] + Waited(s.active[id].attempts) as real)
  }

  lemma StepKeepsTimely(s: State, e: Event)
    requires Inv(s) && Timely(s) && Enabled(s, e)
    ensures Timely(Apply(s, e))
  {
    if e.Finish? {
      FinishKeepsTimely(s, e);
    }
  }

  lemma FinishKeepsTimely(s: State, e: Event)
    requires Inv(s) && Timely(s) && Enabled(s, e) && e.Finish?
    ensures Timely(Apply(s, e))
  {
    var j := s.active[e.id];
    assert ActiveOk(j, e.id);
    assert Waited(j.attempts + 1) == Waited(j.attempts) + Pow(2, j.attempts);
  }

  lemma {:induction false} RunKeepsTimely(s: State, es: seq<Event>, s': State)
    requires Inv(s) && Timely(s) && Run(s, es, s')
    ensures Timely(s')
    decreases |es|
  {
    if es != [] {
      StepKeepsInv(s, es[0]);
      StepKeepsTimely(s, es[0]);
      RunKeepsTimely(Apply(s, es[0]), es[1..], s');
    }
  }

  /** The i-th event, if a submit, hands out the next id and fixes its first time. */
  lemma {:induction false} FirstTimeIsSubmitTime(s: State, es: seq<Event>, s': State, i: nat)
    requires Run(s, es, s') && i < |es| && es[i].Submit?
    ensures var id := s.lastId + Submits(es[..i]) + 1;
            id in s'.first && s'.first[id] == es[i].now + es[i].delay
    decreases |es|
  {
    var m := Apply(s, es[0]);
    if i == 0 {
      assert es[..0] == [];
      FirstTimesStay(m, es[1..], s', s.lastId + 1);
    } else {
      assert es[..i][0] == es[0] && es[..i][1..] == es[1..][..i - 1];
      FirstTimeIsSubmitTime(m, es[1..], s', i - 1);
    }
  }

  lemma {:induction false} FirstTimesStay(s: State, es: seq<Event>, s': State, id: nat)
    requires Run(s, es, s') && id in s.first && id <= s.lastId
    ensures id in s'.first && s'.first[id] == s.first[id]
    decreases |es|
  {
    if es != [] {
      FirstTimesStay(Apply(s, es[0]), es[1..], s', id);
    }
  }

  /** The n-th attempt of a job submitted by event i starts no earlier than its
      submit time, plus its delay, plus 2^n - 2 seconds. */
  lemma AttemptsBackOff(clock: real, es: seq<Event>, s: State, i: nat, now: real, n: nat)
    requires Run(Init(clock), es, s) && i < |es| && es[i].Submit?
    requires Enabled(s, Begin(now, Submits(es[..i]) + 1)) && n == Begins(es, Submits(es[..i]) + 1) + 1
    ensures now >= es[i].now + es[i].delay + (Pow(2, n) - 2) as real
  {
    var id := Submits(es[..i]) + 1;
    var s0 := Init(clock);
    FirstTimeIsSubmitTime(s0, es, s, i);
    assert now >= s.first[id] + Waited(n) as real by {
      BeginIsTimely(clock, es, s, id, now);
    }
    WaitedClosedForm(n);
  }

  lemma BeginIsTimely(clock: real, es: seq<Event>, s: State, id: nat, now: real)
    requires Run(Init(clock), es, s) && Enabled(s, Begin(now, id))
    ensures id in s.first && now >= s.first[id] + Waited(Begins(es, id) + 1) as real
  {
    AttemptsCountStarts(Init(clock), es, s, id, 0);
    RunKeepsTimely(Init(clock), es, s);
  }

  // ---- no overtaking ----

  /** The pending jobs ordered before job `id`. */
  ghost function Ahead(s: State, id: nat): set<nat>
    requires id in s.pending
  {
    set k | k in s.pending && JobLess(s.pending[k], s.pending[id])
  }

  /** Drains that happened while the queue was running. */
  ghost function LiveDrains(s: State, es: seq<Event>): nat
    decreases |es|
  {
    if es == [] || !Enabled(s, es[0]) then 0
    else (if s.running && (es[0].Begin? || es[0].Idle?) then 1 else 0) + LiveDrains(Apply(s, es[0]), es[1..])
  }

  /** One more drain counts exactly if the queue is running then. */
  lemma {:induction false} LiveDrainsNext(s: State, es: seq<Event>, m: State, e: Event)
    requires Run(s, es, m) && Enabled(m, e)
    ensures LiveDrains(s, []) == 0
    ensures LiveDrains(s, es + [e]) == LiveDrains(s, es) + (if m.running && (e.Begin? || e.Idle?) then 1 else 0)
    decreases |es|
  {
    if es != [] {
      assert (es + [e])[1..] == es[1..] + [e];
      LiveDrainsNext(Apply(s, es[0]), es[1..], m, e);
    }
  }

  /** An event other than starting or cancelling a due job leaves it queued and lets
      nothing in ahead of it; a drain of a running queue takes one job from ahead. */
  lemma NobodyGetsAhead(s: State, e: Event, id: nat)
    requires Inv(s) && Enabled(s, e)
    requires id in s.pending && s.pending[id].nextRunAt < s.clock
    requires !(e.Begin? && e.id == id) && e != Cancel(id) && (e.Submit? ==> e.delay >= 0.0)
    ensures var s' := Apply(s, e);
            && id in s'.pending && s'.pending[id] == s.pending[id]
            && s'.pending[id].nextRunAt < s'.clock
            && Ahead(s', id) <= Ahead(s, id)
            && (s.running && (e.Begin? || e.Idle?) ==> |Ahead(s', id)| < |Ahead(s, id)|)
  {
    var s' := Apply(s, e);
    PowMonotone(2, 0, if e.Finish? then s.active[e.id].attempts else 0);
    if e.Begin? {
      assert e.id in Ahead(s, id) by {
        assert !JobLess(s.pending[id], s.pending[e.id]);
        assert PendingOk(s.pending[id], id) && PendingOk(s.pending[e.id], e.id);
      }
      assert Ahead(s', id) <= Ahead(s, id) - {e.id};
      Smaller(Ahead(s', id), Ahead(s, id) - {e.id});
    }
  }

  lemma Smaller<T>(a: set<T>, b: set<T>)
    requires a <= b
    ensures |a| <= |b|
  {
    assert b == a + (b - a);
  }

  /** A due job starts within (number of jobs then ahead of it) + 1 drains of the
      running queue, whatever else happens, unless it is cancelled. */
  lemma {:induction false} NoOvertaking(s: State, es: seq<Event>, s': State, id: nat)
    requires Inv(s) && Run(s, es, s')
    requires id in s.pending && s.pending[id].nextRunAt < s.clock
    requires (forall e :: e in es && e.Submit? ==> e.delay >= 0.0) && Cancel(id) !in es
    requires LiveDrains(s, es) >= |Ahead(s, id)| + 1
    ensures exists i :: 0 <= i < |es| && es[i].Begin? && es[i].id == id
    decreases |es|
  {
    var e := es[0];
    if e.Begin? && e.id == id {
      assert es[0].Begin?;
    } else {
      var m := Apply(s, e);
      NobodyGetsAhead(s, e, id);
      StepKeepsInv(s, e);
      Smaller(Ahead(m, id), Ahead(s, id));
      NoOvertaking(m, es[1..], s', id);
      var i :| 0 <= i < |es[1..]| && es[1..][i].Begin? && es[1..][i].id == id;
      assert es[i + 1] == es[1..][i];
    }
  }
}
