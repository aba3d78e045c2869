/** The event bus: a heap of pending events, drained in priority order while the
    subscribers may publish more. */
module EventBus {
  import opened Common
  import opened BinaryHeap
  import opened Work

  type Callback = nat

  datatype Event = Event(kind: string, priority: int, seqNo: nat)

  /** `Event.__lt__`: lower priority number first, then creation order. */
  predicate EventLess(a: Event, b: Event) {
    if a.priority != b.priority then a.priority < b.priority else a.seqNo < b.seqNo
  }

  /** A least event has the lowest priority number and, of those, was created first. */
  lemma LeastIsMostUrgent(x: Event, q: multiset<Event>)
    requires Least(x, q, EventLess)
    ensures forall y :: y in q ==> x.priority < y.priority || (x.priority == y.priority && x.seqNo <= y.seqNo)
  {
  }

  lemma EventLessOrders()
    ensures Orders(EventLess)
  {
  }

  /** What a callback does when called, before it returns or raises: the events it
      publishes, and the jobs it schedules and tasks it submits, each in order. */
  datatype Reaction = Reaction(published: seq<Event>, schedules: seq<Request>, tasks: seq<TaskRequest>, raised: bool)

  /** The reaction may depend on how many events were delivered before. */
  type Behaviour = (nat, Callback, Event) -> Reaction

  /** Everything published while one event is delivered to a list of callbacks. */
  function PublishedBy(behave: Behaviour, n: nat, cbs: seq<Callback>, e: Event): seq<Event> {
    if cbs == [] then []
    else PublishedBy(behave, n, cbs[..|cbs| - 1], e) + behave(n, cbs[|cbs| - 1], e).published
  }

  lemma PublishedNext(behave: Behaviour, n: nat, cbs: seq<Callback>, cb: Callback, e: Event)
    ensures PublishedBy(behave, n, [], e) == []
    ensures PublishedBy(behave, n, cbs + [cb], e) == PublishedBy(behave, n, cbs, e) + behave(n, cb, e).published
  {
    assert (cbs + [cb])[..|cbs|] == cbs;
  }

  function SchedulesBy(behave: Behaviour, n: nat, cbs: seq<Callback>, e: Event): seq<Request> {
    if cbs == [] then []
    else SchedulesBy(behave, n, cbs[..|cbs| - 1], e) + behave(n, cbs[|cbs| - 1], e).schedules
  }

  function TasksBy(behave: Behaviour, n: nat, cbs: seq<Callback>, e: Event): seq<TaskRequest> {
    if cbs == [] then []
    else TasksBy(behave, n, cbs[..|cbs| - 1], e) + behave(n, cbs[|cbs| - 1], e).tasks
  }

  /** One more callback asks for its own calls after those of the others. */
  lemma AskedNext(behave: Behaviour, n: nat, cbs: seq<Callback>, cb: Callback, e: Event)
    ensures SchedulesBy(behave, n, [], e) == [] && TasksBy(behave, n, [], e) == []
    ensures SchedulesBy(behave, n, cbs + [cb], e) == SchedulesBy(behave, n, cbs, e) + behave(n, cb, e).schedules
    ensures TasksBy(behave, n, cbs + [cb], e) == TasksBy(behave, n, cbs, e) + behave(n, cb, e).tasks
  {
    assert (cbs + [cb])[..|cbs|] == cbs;
  }

  type Subscriptions = map<string, seq<Callback>>

  function SubscribersOf(subs: Subscriptions, kind: string): seq<Callback> {
    if kind in subs then subs[kind] else []
  }

  // ---- drains as traces ----

  /** One delivery: the event, the callbacks called, and what they published, scheduled
      and submitted. */
  datatype Delivery = Delivery(event: Event, called: seq<Callback>, published: seq<Event>,
                               schedules: seq<Request>, tasks: seq<TaskRequest>)

  /** From `pending`, the deliveries of `log` leave `rest`: each takes a least pending
      event, and what its subscribers publish becomes pending. */
  ghost predicate LegalDrain(pending: multiset<Event>, log: seq<Delivery>, rest: multiset<Event>)
    decreases |log|
  {
    if log == [] then rest == pending
    else
      && log[0].event in pending
      && Least(log[0].event, pending, EventLess)
      && LegalDrain(pending - multiset{log[0].event} + multiset(log[0].published), log[1..], rest)
  }

  function Events(log: seq<Delivery>): seq<Event> {
    if log == [] then [] else [log[0].event] + Events(log[1..])
  }

  function AllPublished(log: seq<Delivery>): seq<Event> {
    if log == [] then [] else log[0].published + AllPublished(log[1..])
  }

  /** Everything the subscribers of a drain scheduled and submitted. */
  function AllSchedules(log: seq<Delivery>): seq<Request> {
    if log == [] then [] else log[0].schedules + AllSchedules(log[1..])
  }

  function AllTasks(log: seq<Delivery>): seq<TaskRequest> {
    if log == [] then [] else log[0].tasks + AllTasks(log[1..])
  }

  /** One more delivery adds what its subscribers asked for. */
  lemma {:induction false} AllAskedNext(log: seq<Delivery>, d: Delivery)
    ensures AllSchedules([]) == [] && AllTasks([]) == []
    ensures AllSchedules(log + [d]) == AllSchedules(log) + d.schedules
    ensures AllTasks(log + [d]) == AllTasks(log) + d.tasks
  {
    if log == [] {
      assert [d][1..] == [];
    } else {
      assert (log + [d])[1..] == log[1..] + [d];
      AllAskedNext(log[1..], d);
    }
  }

  lemma {:induction false} LegalDrainExtends(
    pending: multiset<Event>, log: seq<Delivery>, rest: multiset<Event>, d: Delivery)
    requires LegalDrain(pending, log, rest)
    requires d.event in rest && Least(d.event, rest, EventLess)
    ensures LegalDrain(pending, log + [d], rest - multiset{d.event} + multiset(d.published))
    decreases |log|
  {
    var log' := log + [d];
    if log == [] {
      assert log'[1..] == [];
    } else {
      LegalDrainExtends(pending - multiset{log[0].event} + multiset(log[0].published), log[1..], rest, d);
      assert log'[1..] == log[1..] + [d];
    }
  }

  /** Conservation: what was pending or published is delivered or still pending,
      each event exactly as often as it was published. */
  lemma {:induction false} DrainConserves(pending: multiset<Event>, log: seq<Delivery>, rest: multiset<Event>)
    requires LegalDrain(pending, log, rest)
    ensures multiset(Events(log)) + rest == pending + multiset(AllPublished(log))
    decreases |log|
  {
    if log != [] {
      var d := log[0];
      DrainConserves(pending - multiset{d.event} + multiset(d.published), log[1..], rest);
      Balance(pending, d.event, multiset(d.published), multiset(Events(log[1..])),
        rest, multiset(AllPublished(log[1..])));
    }
  }

  lemma Balance<T(!new)>(pending: multiset<T>, e: T, now: multiset<T>, delivered: multiset<T>,
                         rest: multiset<T>, later: multiset<T>)
    requires e in pending && delivered + rest == pending - multiset{e} + now + later
    ensures multiset{e} + delivered + rest == pending + (now + later)
  {
    var left, right := multiset{e} + delivered + rest, pending + (now + later);
    forall x: T ensures left[x] == right[x] {
      assert (delivered + rest)[x] == (pending - multiset{e} + now + later)[x];
    }
  }

  /** A delivered event was pending at the start or published by an earlier delivery. */
  lemma {:induction false} DeliveredWasPending(pending: multiset<Event>, log: seq<Delivery>,
                                               rest: multiset<Event>, j: nat)
    requires LegalDrain(pending, log, rest) && j < |log|
    ensures log[j].event in pending || exists k :: 0 <= k < j && log[j].event in log[k].published
    decreases |log|
  {
    if j > 0 {
      DeliveredWasPending(pending - multiset{log[0].event} + multiset(log[0].published), log[1..], rest, j - 1);
      if k :| 0 <= k < j - 1 && log[1..][j - 1].event in log[1..][k].published {
        assert log[j].event in log[k + 1].published;
      } else if log[j].event !in pending {
        assert log[j].event in log[0].published;
      }
    }
  }

  /** An event delivered after a greater one was published after that one was popped. */
  lemma {:induction false} InversionMeansPublishedLater(
    pending: multiset<Event>, log: seq<Delivery>, rest: multiset<Event>, i: nat, j: nat)
    requires LegalDrain(pending, log, rest) && i < j < |log|
    ensures EventLess(log[j].event, log[i].event) ==> exists k :: i <= k < j && log[j].event in log[k].published
    decreases i
  {
    if i == 0 {
      DeliveredWasPending(pending, log, rest, j);
    } else {
      InversionMeansPublishedLater(
        pending - multiset{log[0].event} + multiset(log[0].published), log[1..], rest, i - 1, j - 1);
      if k :| i - 1 <= k < j - 1 && log[1..][j - 1].event in log[1..][k].published {
        assert log[j].event in log[k + 1].published;
      }
    }
  }

  /** If no subscriber publishes, a complete drain delivers the pending events in
      sorted order, each once. */
  lemma {:induction false} QuietDrainSorts(pending: multiset<Event>, log: seq<Delivery>)
    requires LegalDrain(pending, log, multiset{})
    requires forall k :: 0 <= k < |log| ==> log[k].published == []
    ensures forall i, j :: 0 <= i < j < |log| ==> !EventLess(log[j].event, log[i].event)
    ensures forall i, j :: 0 <= i < j < |log| ==>
                             || log[i].event.priority < log[j].event.priority
                             || (log[i].event.priority == log[j].event.priority
                                 && log[i].event.seqNo <= log[j].event.seqNo)
    ensures multiset(Events(log)) == pending
  {
    forall i, j | 0 <= i < j < |log| ensures !EventLess(log[j].event, log[i].event) {
      InversionMeansPublishedLater(pending, log, multiset{}, i, j);
    }
    NothingPublished(log);
    DrainConserves(pending, log, multiset{});
    assert multiset(Events(log)) + multiset{} == multiset(Events(log));
    assert pending + multiset(AllPublished(log)) == pending;
  }

  /** A complete drain dispatches nothing exactly when nothing was pending. */
  lemma EmptyDrainIff(pending: multiset<Event>, log: seq<Delivery>)
    requires LegalDrain(pending, log, multiset{})
    ensures log == [] <==> pending == multiset{}
  {
  }

  lemma {:induction false} NothingPublished(log: seq<Delivery>)
    requires forall k :: 0 <= k < |log| ==> log[k].published == []
    ensures AllPublished(log) == []
  {
    if log != [] {
      NothingPublished(log[1..]);
    }
  }

  // ---- well-founded publishing ----

  /** The weight of an event may depend on how many events were delivered before. */
  type Weight = (nat, Event) -> nat

  function Total(weight: Weight, n: nat, es: seq<Event>): nat {
    if es == [] then 0 else weight(n, es[0]) + Total(weight, n, es[1..])
  }

  lemma {:induction false} TotalConcat(weight: Weight, n: nat, a: seq<Event>, b: seq<Event>)
    ensures Total(weight, n, a + b) == Total(weight, n, a) + Total(weight, n, b)
  {
    if a == [] {
      assert a + b == b;
    } else {
      assert (a + b)[1..] == a[1..] + b;
      TotalConcat(weight, n, a[1..], b);
    }
  }

  lemma {:induction false} TotalWithout(weight: Weight, n: nat, es: seq<Event>, i: nat)
    requires i < |es|
    ensures Total(weight, n, es) == weight(n, es[i]) + Total(weight, n, Without(es, i))
  {
    if i == 0 {
      assert Without(es, 0) == es[1..];
    } else {
      TotalWithout(weight, n, es[1..], i - 1);
      WithoutTail(es, i);
      assert Without(es, i)[0] == es[0];
    }
  }

  lemma WithoutTail<T>(s: seq<T>, i: nat)
    requires 0 < i < |s|
    ensures |Without(s, i)| == |s| - 1 && Without(s, i)[0] == s[0]
    ensures Without(s, i)[1..] == Without(s[1..], i - 1)
  {
    assert s[..i][1..] == s[1..][..i - 1];
    assert s[i + 1..] == s[1..][i..];
  }

  /** The total depends on the bag of events only. */
  lemma {:induction false} TotalOfBag(weight: Weight, n: nat, a: seq<Event>, b: seq<Event>)
    requires multiset(a) == multiset(b)
    ensures Total(weight, n, a) == Total(weight, n, b)
    decreases |a|
  {
    if a == [] {
      assert multiset(b) == multiset{};
    } else {
      assert a == [a[0]] + a[1..];
      assert a[0] in multiset(b);
      var i :| 0 <= i < |b| && b[i] == a[0];
      assert multiset(a[1..]) == multiset(a) - multiset{a[0]};
      assert multiset(Without(b, i)) == multiset(b) - multiset{b[i]};
      TotalOfBag(weight, n, a[1..], Without(b, i));
      TotalWithout(weight, n, b, i);
    }
  }

  /** What is published in reaction to delivery n, of event e, weighs less, all together,
      than the event did. */
  ghost predicate Lightens(subs: Subscriptions, behave: Behaviour, weight: Weight, n: nat, e: Event) {
    Total(weight, n + 1, PublishedBy(behave, n, SubscribersOf(subs, e.kind), e)) < weight(n, e)
  }

  /** Publishing is well-founded: no event gains weight as deliveries go on, and every
      delivery lightens the bus. */
  ghost predicate WellFounded(subs: Subscriptions, behave: Behaviour, weight: Weight) {
    && (forall m: nat, n: nat, e: Event :: m <= n ==> weight(n, e) <= weight(m, e))
    && (forall n: nat, e: Event :: Lightens(subs, behave, weight, n, e))
  }

  /** Publishing that stops after some number of deliveries is well-founded, whatever is
      published until then. */
  lemma LimitedPublishing(subs: Subscriptions, behave: Behaviour, last: nat, most: nat)
    requires forall n: nat, e: Event ::
               |PublishedBy(behave, n, SubscribersOf(subs, e.kind), e)| <= if n < last then most else 0
    ensures WellFounded(subs, behave, Countdown(last, most))
  {
    var weight := Countdown(last, most);
    forall m: nat, n: nat, e: Event | m <= n ensures weight(n, e) <= weight(m, e) {
      PowMonotone(most + 1, To(last, n), To(last, m));
    }
    forall n: nat, e: Event ensures Lightens(subs, behave, weight, n, e) {
      var published := PublishedBy(behave, n, SubscribersOf(subs, e.kind), e);
      var w := Pow(most + 1, To(last, n + 1));
      PowMonotone(most + 1, 0, To(last, n + 1));
      TotalOfEqual(weight, n + 1, published, w);
      if n < last {
        TimesGrows(|published|, most, w);
      }
    }
  }

  function To(last: nat, n: nat): nat {
    if n < last then last - n else 0
  }

  lemma TimesGrows(a: nat, b: nat, w: nat)
    requires a <= b && w >= 1
    ensures a * w < (b + 1) * w
  {
  }

  function Countdown(last: nat, most: nat): Weight {
    (n, e) => Pow(most + 1, To(last, n))
  }

  lemma {:induction false} TotalOfEqual(weight: Weight, n: nat, es: seq<Event>, w: nat)
    requires forall e: Event :: weight(n, e) == w
    ensures Total(weight, n, es) == |es| * w
  {
    if es != [] {
      TotalOfEqual(weight, n, es[1..], w);
    }
  }

  lemma {:induction false} TotalFades(weight: Weight, n: nat, es: seq<Event>)
    requires forall e: Event {:trigger weight(n, e)} :: weight(n + 1, e) <= weight(n, e)
    ensures Total(weight, n + 1, es) <= Total(weight, n, es)
  {
    if es != [] {
      TotalFades(weight, n, es[1..]);
    }
  }

  /** Delivery n, of event e: exactly the event's subscribers are called, in subscription
      order, and do what they do. */
  function DeliveryOf(subs: Subscriptions, behave: Behaviour, n: nat, e: Event): Delivery {
    var cbs := SubscribersOf(subs, e.kind);
    Delivery(e, cbs, PublishedBy(behave, n, cbs, e), SchedulesBy(behave, n, cbs, e), TasksBy(behave, n, cbs, e))
  }

  ghost predicate AsBehaved(log: seq<Delivery>, subs: Subscriptions, behave: Behaviour) {
    if log == [] then true
    else
      var n := |log| - 1;
      AsBehaved(log[..n], subs, behave) && log[n] == DeliveryOf(subs, behave, n, log[n].event)
  }

  lemma {:induction false} AsBehavedAt(log: seq<Delivery>, subs: Subscriptions, behave: Behaviour, k: nat)
    requires AsBehaved(log, subs, behave) && k < |log|
    ensures log[k] == DeliveryOf(subs, behave, k, log[k].event)
    ensures var d := log[k];
            && d.called == SubscribersOf(subs, d.event.kind)
            && d.published == PublishedBy(behave, k, d.called, d.event)
            && d.schedules == SchedulesBy(behave, k, d.called, d.event)
            && d.tasks == TasksBy(behave, k, d.called, d.event)
  {
    if k < |log| - 1 {
      AsBehavedAt(log[..|log| - 1], subs, behave, k);
    }
  }

  lemma AsBehavedExtends(log: seq<Delivery>, subs: Subscriptions, behave: Behaviour, d: Delivery)
    requires AsBehaved(log, subs, behave) && d == DeliveryOf(subs, behave, |log|, d.event)
    ensures AsBehaved(log + [d], subs, behave)
  {
    assert (log + [d])[..|log|] == log;
  }

  class EventBus {
    var subscribers: Subscriptions
    var queue: seq<Event>

    ghost predicate Valid()
      reads this
    {
      IsHeap(queue, EventLess)
    }

    constructor ()
      ensures Valid() && queue == [] && subscribers == map[]
      ensures forall kind :: SubscribersOf(subscribers, kind) == []
    {
      subscribers, queue := map[], [];
    }

    method Subscribe(kind: string, cb: Callback)
      requires Valid()
      modifies this`subscribers
      ensures SubscribersOf(subscribers, kind) == SubscribersOf(old(subscribers), kind) + [cb]
      ensures forall k :: k != kind ==> SubscribersOf(subscribers, k) == SubscribersOf(old(subscribers), k)
    {
      subscribers := subscribers[kind := SubscribersOf(subscribers, kind) + [cb]];
    }

    method Publish(e: Event)
      requires Valid()
      modifies this`queue
      ensures Valid() && multiset(queue) == multiset(old(queue)) + multiset{e}
    {
      EventLessOrders();
      queue := Push(queue, e, EventLess);
    }

    /** Calls every callback of the list in order; one that raises stops only itself. */
    method Deliver(behave: Behaviour, n: nat, cbs: seq<Callback>, e: Event) returns (called: seq<Callback>)
      requires Valid()
      modifies this`queue
      ensures Valid() && called == cbs
      ensures multiset(queue) == multiset(old(queue)) + multiset(PublishedBy(behave, n, cbs, e))
    {
      called := [];
      for i := 0 to |cbs|
        invariant Valid() && |called| == i && forall k :: 0 <= k < i ==> called[k] == cbs[k]
        invariant multiset(queue) == multiset(old(queue)) + multiset(PublishedBy(behave, n, called, e))
      {
        DeliverTo(behave, n, called, cbs[i], e, multiset(old(queue)));
        called := called + [cbs[i]];
      }
      assert called == cbs;
    }

    /** Calls one callback, after others have been called. */
    method DeliverTo(behave: Behaviour, n: nat, ghost called: seq<Callback>, cb: Callback, e: Event,
                     ghost pending: multiset<Event>)
      requires Valid()
      requires multiset(queue) == pending + multiset(PublishedBy(behave, n, called, e))
      modifies this`queue
      ensures Valid() && multiset(queue) == pending + multiset(PublishedBy(behave, n, called + [cb], e))
    {
      PublishedNext(behave, n, called, cb, e);
      PublishAll(behave(n, cb, e).published);
    }

    method PublishAll(events: seq<Event>)
      requires Valid()
      modifies this`queue
      ensures Valid() && multiset(queue) == multiset(old(queue)) + multiset(events)
    {
      for k := 0 to |events|
        invariant Valid()
        invariant multiset(queue) == multiset(old(queue)) + multiset(events[..k])
      {
        assert events[..k + 1] == events[..k] + [events[k]];
        Publish(events[k]);
      }
      assert events[..|events|] == events;
    }

    /** Delivers until nothing is pending.  The deliveries made are a legal drain of
        what was pending, each calls exactly its event's subscribers, and there are at
        most as many as the pending events weigh. */
    method Drain(behave: Behaviour, ghost weight: Weight) returns (count: nat, log: seq<Delivery>)
      requires Valid()
      requires WellFounded(subscribers, behave, weight)
      modifies this`queue
      ensures Valid() && queue == []
      ensures LegalDrain(multiset(old(queue)), log, multiset{})
      ensures count == |log| <= Total(weight, 0, old(queue))
      ensures AsBehaved(log, subscribers, behave)
    {
      count, log := 0, [];
      while queue != []
        invariant Valid() && count == |log|
        invariant LegalDrain(multiset(old(queue)), log, multiset(queue))
        invariant count + Total(weight, count, queue) <= Total(weight, 0, old(queue))
        invariant AsBehaved(log, subscribers, behave)
        decreases Total(weight, count, queue)
      {
        ghost var before := queue;
        var d := DeliverNext(behave, count);
        DeliveryLightens(subscribers, behave, weight, count, before, queue, d);
        LegalDrainExtends(multiset(old(queue)), log, multiset(before), d);
        AsBehavedExtends(log, subscribers, behave, d);
        count, log := count + 1, log + [d];
      }
    }

    /** Pops the head of the heap and calls its subscribers. */
    method DeliverNext(behave: Behaviour, n: nat) returns (d: Delivery)
      requires Valid() && queue != []
      modifies this`queue
      ensures Valid()
      ensures d.event in old(queue) && Least(d.event, multiset(old(queue)), EventLess)
      ensures d == DeliveryOf(subscribers, behave, n, d.event)
      ensures forall e :: e in old(queue) ==>
                            || d.event.priority < e.priority
                            || (d.event.priority == e.priority && d.event.seqNo <= e.seqNo)
      ensures multiset(queue) == multiset(old(queue)) - multiset{d.event} + multiset(d.published)
    {
      EventLessOrders();
      var event, rest := PopMin(queue, EventLess);
      LeastIsMostUrgent(event, multiset(queue));
      queue := rest;
      var cbs := SubscribersOf(subscribers, event.kind);
      var called := Deliver(behave, n, cbs, event);
      d := Delivery(event, called, PublishedBy(behave, n, called, event),
                    SchedulesBy(behave, n, called, event), TasksBy(behave, n, called, event));
    }
  }

  /** When publishing is well-founded, each delivery lowers the total weight of what is
      pending. */
  lemma DeliveryLightens(subs: Subscriptions, behave: Behaviour, weight: Weight, n: nat,
                         before: seq<Event>, after: seq<Event>, d: Delivery)
    requires WellFounded(subs, behave, weight)
    requires d.event in before && d == DeliveryOf(subs, behave, n, d.event)
    requires multiset(after) == multiset(before) - multiset{d.event} + multiset(d.published)
    ensures Total(weight, n + 1, after) < Total(weight, n, before)
  {
    var i :| 0 <= i < |before| && before[i] == d.event;
    var rest := Without(before, i);
    assert Total(weight, n + 1, after) == Total(weight, n + 1, d.published) + Total(weight, n + 1, rest) by {
      TotalOfBag(weight, n + 1, after, d.published + rest);
      TotalConcat(weight, n + 1, d.published, rest);
    }
    assert Lightens(subs, behave, weight, n, d.event);
    TotalWithout(weight, n, before, i);
    TotalFades(weight, n, rest);
  }
}
