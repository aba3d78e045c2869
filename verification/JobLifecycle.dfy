/** The job queue as a state machine over every job it was ever given.  A drain
    is two steps, the pop that starts a job and the step that ends it, so that
    submits, cancels and other drains may fall in between. */
module JobLifecycle {
  import opened Common

  datatype JobState = Queued | Running | Retrying | Done | Failed | Cancelled

  datatype Job = Job(id: nat, priority: int, maxRetries: int,
                     attempts: nat, nextRunAt: real, state: JobState)

  /** `Job.__lt__`: by time, then priority, then submission order. */
  predicate JobLess(a: Job, b: Job) {
    if a.nextRunAt != b.nextRunAt then a.nextRunAt < b.nextRunAt
    else if a.priority != b.priority then a.priority < b.priority
    else a.id < b.id
  }

  /** How many attempts a job can get in all. */
  function Limit(j: Job): int {
    Max(1, j.maxRetries)
  }

  /** `pending`, `active`: the jobs waiting and running, by id.  `ended`: every
      job that came to an end, in that order.  `first`: when each job was first
      allowed to run.  `clock`: the last reading of the monotone clock. */
  datatype State = State(pending: map<nat, Job>, active: map<nat, Job>, ended: seq<Job>,
                         running: bool, lastId: nat, clock: real, first: map<nat, real>)

  datatype Event =
    | Start
    | Stop
    | Submit(now: real, delay: real, priority: int, maxRetries: int)
    | Cancel(id: nat)
    | Idle(now: real)
    | Begin(now: real, id: nat)
    | Finish(now: real, id: nat, ok: bool)

  function Init(clock: real): State {
    State(map[], map[], [], false, 0, clock, map[])
  }

  ghost predicate IsLeast(pending: map<nat, Job>, id: nat) {
    id in pending && forall k :: k in pending ==> !JobLess(pending[k], pending[id])
  }

  /** Which events can happen in a state.  Clock readings never go back. */
  ghost predicate Enabled(s: State, e: Event) {
    match e
    case Start => true
    case Stop => true
    case Submit(now, _, _, _) => now >= s.clock
    case Cancel(_) => true
    case Idle(now) =>
      && now >= s.clock
      && (!s.running || forall k :: k in s.pending ==> s.pending[k].nextRunAt > now)
    case Begin(now, id) =>
      now >= s.clock && s.running && IsLeast(s.pending, id) && s.pending[id].nextRunAt <= now
    case Finish(now, id, _) => now >= s.clock && id in s.active
  }

  function Started(j: Job): Job {
    j.(state := Running, attempts := j.attempts + 1)
  }

  function Retried(j: Job, now: real): Job {
    j.(nextRunAt := now + Pow(2, j.attempts) as real, state := Retrying)
  }

  ghost function Apply(s: State, e: Event): State
    requires Enabled(s, e)
  {
    match e
    case Start => s.(running := true)
    case Stop => s.(running := false)
    case Submit(now, delay, priority, maxRetries) =>
      var id := s.lastId + 1;
      s.(pending := s.pending[id := Job(id, priority, maxRetries, 0, now + delay, Queued)],
      lastId := id, clock := now, first := s.first[id := now + delay])
    case Cancel(id) =>
      if id !in s.pending then s
      else s.(pending := s.pending - {id}, ended := s.ended + [s.pending[id].(state := Cancelled)])
    case Idle(now) => s.(clock := now)
    case Begin(now, id) =>
      s.(pending := s.pending - {id}, active := s.active[id := Started(s.pending[id])], clock := now)
    case Finish(now, id, ok) =>
      var j := s.active[id];
      var s' := s.(active := s.active - {id}, clock := now);
      if ok then s'.(ended := s.ended + [j.(state := Done)])
      else if j.attempts < j.maxRetries then s'.(pending := s.pending[id := Retried(j, now)])
      else s'.(ended := s.ended + [j.(state := Failed)])
  }

  ghost predicate Run(s: State, es: seq<Event>, s': State)
    decreases |es|
  {
    if es == [] then s == s'
    else Enabled(s, es[0]) && Run(Apply(s, es[0]), es[1..], s')
  }

  // ---- where every job is ----

  ghost predicate HasId(js: seq<Job>, id: nat) {
    exists i :: 0 <= i < |js| && js[i].id == id
  }

  ghost predicate InEnded(s: State, id: nat) {
    HasId(s.ended, id)
  }

  predicate PendingOk(j: Job, id: nat) {
    && j.id == id
    && j.attempts < Limit(j)
    && j.state == (if j.attempts == 0 then Queued else Retrying)
  }

  predicate ActiveOk(j: Job, id: nat) {
    j.id == id && 1 <= j.attempts <= Limit(j) && j.state == Running
  }

  predicate EndedOk(j: Job) {
    || (j.state == Done && 1 <= j.attempts <= Limit(j))
    || (j.state == Failed && j.attempts == Limit(j))
    || (j.state == Cancelled && j.attempts < Limit(j))
  }

  /** Every id handed out so far is in exactly one place. */
  ghost predicate Placed(s: State) {
    && (forall id: nat :: 1 <= id <= s.lastId <==> id in s.pending || id in s.active || InEnded(s, id))
    && (forall id :: id in s.pending ==> id !in s.active && !InEnded(s, id))
    && (forall id :: id in s.active ==> !InEnded(s, id))
    && (forall i, k :: 0 <= i < k < |s.ended| ==> s.ended[i].id != s.ended[k].id)
  }

  ghost predicate Matching(s: State) {
    && (forall id :: id in s.pending ==> PendingOk(s.pending[id], id))
    && (forall id :: id in s.active ==> ActiveOk(s.active[id], id))
    && (forall i :: 0 <= i < |s.ended| ==> EndedOk(s.ended[i]))
  }

  ghost predicate Inv(s: State) {
    Placed(s) && Matching(s)
  }

  lemma HasIdConcat(a: seq<Job>, b: seq<Job>, id: nat)
    ensures HasId(a + b, id) <==> HasId(a, id) || HasId(b, id)
  {
    if HasId(a, id) {
      var i :| 0 <= i < |a| && a[i].id == id;
      assert (a + b)[i].id == id;
    }
    if HasId(b, id) {
      var i :| 0 <= i < |b| && b[i].id == id;
      assert (a + b)[|a| + i].id == id;
    }
  }

  /** What ending one more job does to the set of ended ids. */
  lemma EndedGrows(s: State, s': State, j: Job)
    requires s'.ended == s.ended + [j]
    ensures forall id :: InEnded(s', id) <==> InEnded(s, id) || j.id == id
  {
    forall id ensures InEnded(s', id) <==> InEnded(s, id) || j.id == id {
      HasIdConcat(s.ended, [j], id);
      assert HasId([j], id) <==> [j][0].id == id;
    }
  }

  lemma SameEnded(s: State, s': State)
    requires s.ended == s'.ended
    ensures forall id :: InEnded(s', id) <==> InEnded(s, id)
  {
    forall id ensures InEnded(s', id) <==> InEnded(s, id) {}
  }

  /** A job that ends leaves one place and enters the ended ones. */
  lemma EndingKeepsPlaced(s: State, s': State, j: Job)
    requires Placed(s)
    requires j.id in s.pending || j.id in s.active
    requires s'.pending == s.pending - {j.id} && s'.active == s.active - {j.id}
    requires s'.ended == s.ended + [j] && s'.lastId == s.lastId
    ensures Placed(s')
  {
    EndedGrows(s, s', j);
  }

  /** Every step keeps every job in exactly one place. */
  lemma StepKeepsPlaced(s: State, e: Event)
    requires Inv(s) && Enabled(s, e)
    ensures Placed(Apply(s, e))
  {
    var s' := Apply(s, e);
    if s'.ended == s.ended {
      SameEnded(s, s');
    } else {
      var j := s'.ended[|s.ended|];
      assert s'.pending == s.pending - {j.id} && s'.active == s.active - {j.id};
      EndingKeepsPlaced(s, s', j);
    }
  }

  lemma StepKeepsMatching(s: State, e: Event)
    requires Inv(s) && Enabled(s, e)
    ensures Matching(Apply(s, e))
  {
  }

  lemma StepKeepsInv(s: State, e: Event)
    requires Inv(s) && Enabled(s, e)
    ensures Inv(Apply(s, e))
  {
    StepKeepsPlaced(s, e);
    StepKeepsMatching(s, e);
  }

  lemma {:induction false} RunKeepsInv(s: State, es: seq<Event>, s': State)
    requires Inv(s) && Run(s, es, s')
    ensures Inv(s')
    decreases |es|
  {
    if es != [] {
      StepKeepsInv(s, es[0]);
      RunKeepsInv(Apply(s, es[0]), es[1..], s');
    }
  }
}
