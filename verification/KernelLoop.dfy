/** The adaptive tick interval and the kernel loop that drives it. */
module KernelLoop {
  import opened BinaryHeap
  import opened Common
  import opened Work
  import EventBus
  import Scheduler

  /** The interval after k idle ticks in a row, k counted from the last busy tick. */
  function Interval(base: int, max: nat, factor: nat, k: nat): int {
    if k <= 3 then base else Min(base * Pow(factor, k - 3), max)
  }

  /** Idle ticks at the end of a run of ticks; `true` is a busy tick. */
  function TrailingIdle(busy: seq<bool>): nat {
    if busy == [] || busy[|busy| - 1] then 0 else 1 + TrailingIdle(busy[..|busy| - 1])
  }

  lemma TrailingIdleNext(busy: seq<bool>, b: bool)
    ensures TrailingIdle(busy + [b]) == if b then 0 else TrailingIdle(busy) + 1
  {
    assert (busy + [b])[..|busy|] == busy;
  }

  /** Capping before or after one more multiplication makes no difference. */
  lemma {:induction false} CapCommutes(x: int, factor: nat, max: nat)
    ensures Min(Min(x, max) * factor, max) == Min(x * factor, max)
  {
    if x > max {
      if factor == 0 {
        assert Min(x, max) * factor == 0 == x * factor;
      } else {
        assert max * factor >= max && x * factor >= x;
      }
    }
  }

  /** One more idle tick past the grace period multiplies and caps. */
  lemma {:induction false} IntervalNext(base: int, max: nat, factor: nat, k: nat)
    ensures Interval(base, max, factor, k + 1)
         == if k + 1 > 3 then Min(Interval(base, max, factor, k) * factor, max) else Interval(base, max, factor, k)
  {
    if k + 1 > 3 {
      var x := base * Pow(factor, k - 3);
      assert base * Pow(factor, k - 2) == x * factor by {
        assert Pow(factor, k - 2) == factor * Pow(factor, k - 3);
        Reorder(base, factor, Pow(factor, k - 3));
      }
      CapCommutes(x, factor, max);
      if k == 3 {
        assert Pow(factor, 0) == 1 && x == base;
      }
    }
  }

  lemma Reorder(a: int, b: int, c: int)
    ensures a * (b * c) == (a * c) * b
  {
  }

  /** The interval stays between base and max, and never shrinks while idle. */
  lemma IntervalBounds(base: nat, max: nat, factor: nat, k: nat)
    requires base <= max && factor >= 1
    ensures base <= Interval(base, max, factor, k) <= max
    ensures Interval(base, max, factor, k) <= Interval(base, max, factor, k + 1)
  {
    if k > 3 {
      PowMonotone(factor, 0, k - 3);
      assert base * Pow(factor, k - 3) >= base;
    }
    IntervalNext(base, max, factor, k);
    var i := Interval(base, max, factor, k);
    assert i * factor >= i;
  }

  /** With the maximum set to the base the interval is constant. */
  lemma NotAdaptiveIsConstant(base: nat, factor: nat, k: nat)
    requires factor >= 1
    ensures Interval(base, base, factor, k) == base
  {
    IntervalBounds(base, base, factor, k);
  }

  /** With a doubling back-off the maximum is reached and kept from some idle tick on. */
  lemma IdleReachesMax(base: nat, max: nat, k: nat)
    requires base >= 1 && k >= 3 + max
    ensures Interval(base, max, 2, k) == if k == 3 then base else max
  {
    if k > 3 {
      PowGrows(k - 3);
      assert base * Pow(2, k - 3) >= Pow(2, k - 3);
    }
  }

  lemma PowGrows(n: nat)
    ensures Pow(2, n) > n
  {
  }

  class AdaptiveTick {
    const base: int
    const max: nat
    const factor: nat
    var current: int
    var idleTicks: nat

    constructor (base: int, max: nat, factor: nat := 2)
      ensures this.base == base && this.max == max && this.factor == factor
      ensures current == base && idleTicks == 0
    {
      this.base, this.max, this.factor := base, max, factor;
      current, idleTicks := base, 0;
    }

    method MarkBusy()
      modifies this
      ensures idleTicks == 0 && current == base
    {
      idleTicks := 0;
      current := base;
    }

    method MarkIdle()
      modifies this
      ensures idleTicks == old(idleTicks) + 1
      ensures current == if idleTicks > 3 then Min(old(current) * factor, max) else old(current)
    {
      idleTicks := idleTicks + 1;
      if idleTicks > 3 {
        current := Min(current * factor, max);
      }
    }
  }

  class KernelLoop {
    const adaptive: AdaptiveTick
    const bus: EventBus.EventBus
    const scheduler: Scheduler.Scheduler
    var tickCount: nat
    ghost var busy: seq<bool>

    /** The interval is a function of the idle ticks since the last busy one. */
    ghost predicate Valid()
      reads this, adaptive, bus, scheduler
    {
      && bus.Valid() && scheduler.Valid()
      && tickCount == |busy|
      && adaptive.idleTicks == TrailingIdle(busy)
      && adaptive.current == Interval(adaptive.base, adaptive.max, adaptive.factor, TrailingIdle(busy))
    }

    constructor (bus: EventBus.EventBus, scheduler: Scheduler.Scheduler,
                 tickMs: int, adapt: bool := true, maxMs: nat := 1000)
      requires bus.Valid() && scheduler.Valid()
      requires !adapt ==> tickMs >= 0
      ensures Valid() && busy == [] && fresh(adaptive)
      ensures this.bus == bus && this.scheduler == scheduler
      ensures adaptive.base == tickMs && adaptive.factor == 2
      ensures adaptive.max == if adapt then maxMs else tickMs
    {
      this.bus, this.scheduler := bus, scheduler;
      adaptive := new AdaptiveTick(tickMs, if adapt then maxMs else tickMs);
      tickCount, busy := 0, [];
    }

    /** One tick: drain the bus, advance the scheduler, adapt the interval.  What
        subscribers schedule and submit reaches the scheduler before it is advanced, and
        what the task and the jobs publish waits on the bus for the next tick; neither
        side looks at the other in between.  The tick is busy exactly when an event was
        pending, or the task or a due job ran without raising. */
    method Tick(subscribers: EventBus.Behaviour, ghost weight: EventBus.Weight,
                taskEffect: Scheduler.Task -> Scheduler.Effect, now: real, jobEffect: Scheduler.Behaviour)
      returns (log: seq<EventBus.Delivery>, task: Option<Scheduler.Task>, jobsRun: seq<Scheduler.Entry>,
               ghost before: Scheduler.Jobs, ghost firstId: nat)
      requires Valid()
      requires EventBus.WellFounded(bus.subscribers, subscribers, weight)
      requires Scheduler.Monotone(jobEffect, now)
      modifies this`tickCount, this`busy, adaptive, bus`queue, scheduler
      ensures Valid()
      ensures EventBus.LegalDrain(multiset(old(bus.queue)), log, multiset{})
      ensures EventBus.AsBehaved(log, bus.subscribers, subscribers)
      ensures forall e: EventBus.Event ::
                multiset(bus.queue)[e]
                == (if task.Some? then multiset(taskEffect(task.value).published)[e] else 0)
                   + Sum(seq(|jobsRun|, k requires 0 <= k < |jobsRun| =>
                               multiset(jobEffect(k, jobsRun[k]).published)[e]))
      ensures var tasks := multiset(old(scheduler.taskQueue))
                           + multiset(Scheduler.Submitted(EventBus.AllTasks(log), old(scheduler.lastTask)));
              && (task.None? <==> tasks == multiset{})
              && (task.Some? ==> task.value in tasks && Least(task.value, tasks, Scheduler.TaskLess))
      ensures var requests := EventBus.AllSchedules(log) + Scheduler.TaskRequests(taskEffect, task);
              && before == Scheduler.With(old(scheduler.jobs), requests, old(scheduler.lastId))
              && firstId == old(scheduler.lastId) + Scheduler.Accepted(requests)
      ensures Scheduler.DueRan(before, now, jobEffect, jobsRun, scheduler.jobs, scheduler.lastId, firstId)
      ensures busy == old(busy) + [old(bus.queue) != [] || (task.Some? && !taskEffect(task.value).raised)
                                   || Scheduler.Succeeded(jobEffect, jobsRun) > 0]
    {
      tickCount := tickCount + 1;
      var eventsDispatched;
      eventsDispatched, log := DispatchEvents(subscribers, weight);
      var tasksRan;
      tasksRan, task, jobsRun, before, firstId :=
        Advance(EventBus.AllSchedules(log), EventBus.AllTasks(log), taskEffect, now, jobEffect);
      PublishWork(taskEffect, task, jobEffect, jobsRun);
      Adapt(eventsDispatched > 0 || tasksRan > 0);
    }

    /** Drains the bus. */
    method DispatchEvents(subscribers: EventBus.Behaviour, ghost weight: EventBus.Weight)
      returns (count: nat, log: seq<EventBus.Delivery>)
      requires bus.Valid() && EventBus.WellFounded(bus.subscribers, subscribers, weight)
      modifies bus`queue
      ensures bus.Valid() && bus.queue == []
      ensures EventBus.LegalDrain(multiset(old(bus.queue)), log, multiset{})
      ensures EventBus.AsBehaved(log, bus.subscribers, subscribers)
      ensures count > 0 <==> old(bus.queue) != []
    {
      count, log := bus.Drain(subscribers, weight);
      EventBus.EmptyDrainIff(multiset(old(bus.queue)), log);
    }

    /** Hands on what the subscribers asked for, then advances the scheduler. */
    method Advance(schedules: seq<Request>, tasks: seq<TaskRequest>,
                   taskEffect: Scheduler.Task -> Scheduler.Effect, now: real, jobEffect: Scheduler.Behaviour)
      returns (ran: nat, task: Option<Scheduler.Task>, jobsRun: seq<Scheduler.Entry>,
               ghost before: Scheduler.Jobs, ghost firstId: nat)
      requires scheduler.Valid() && Scheduler.Monotone(jobEffect, now)
      modifies scheduler
      ensures scheduler.Valid()
      ensures var pending := multiset(old(scheduler.taskQueue))
                             + multiset(Scheduler.Submitted(tasks, old(scheduler.lastTask)));
              && (task.None? <==> pending == multiset{})
              && (task.Some? ==> task.value in pending && Least(task.value, pending, Scheduler.TaskLess))
      ensures before == Scheduler.With(old(scheduler.jobs), schedules + Scheduler.TaskRequests(taskEffect, task),
                                       old(scheduler.lastId))
      ensures firstId == old(scheduler.lastId)
                         + Scheduler.Accepted(schedules + Scheduler.TaskRequests(taskEffect, task))
      ensures Scheduler.DueRan(before, now, jobEffect, jobsRun, scheduler.jobs, scheduler.lastId, firstId)
      ensures ran == Scheduler.Succeeded(jobEffect, jobsRun)
                     + (if task.Some? && !taskEffect(task.value).raised then 1 else 0)
    {
      ghost var tables;
      scheduler.ScheduleAll(schedules);
      scheduler.SubmitAll(tasks);
      ghost var jobs, lastId := scheduler.jobs, scheduler.lastId;
      ran, task, before, firstId, jobsRun, tables := scheduler.Tick(taskEffect, now, jobEffect);
      Scheduler.WithBoth(old(scheduler.jobs), old(scheduler.lastId), schedules, jobs, lastId,
                         Scheduler.TaskRequests(taskEffect, task), before);
    }

    /** What the task and the jobs that ran publish reaches the bus. */
    method PublishWork(taskEffect: Scheduler.Task -> Scheduler.Effect, task: Option<Scheduler.Task>,
                       jobEffect: Scheduler.Behaviour, jobsRun: seq<Scheduler.Entry>)
      requires bus.Valid() && bus.queue == []
      modifies bus`queue
      ensures bus.Valid()
      ensures forall e: EventBus.Event ::
                multiset(bus.queue)[e]
                == (if task.Some? then multiset(taskEffect(task.value).published)[e] else 0)
                   + Sum(seq(|jobsRun|, k requires 0 <= k < |jobsRun| =>
                               multiset(jobEffect(k, jobsRun[k]).published)[e]))
    {
      bus.PublishAll(Scheduler.AllPublish(taskEffect, task, jobEffect, jobsRun));
      Scheduler.AllPublishCounts(taskEffect, task, jobEffect, jobsRun);
    }

    /** The end of a tick. */
    method Adapt(active: bool)
      requires bus.Valid() && scheduler.Valid() && tickCount == |busy| + 1
      requires adaptive.idleTicks == TrailingIdle(busy)
      requires adaptive.current == Interval(adaptive.base, adaptive.max, adaptive.factor, TrailingIdle(busy))
      modifies this`busy, adaptive
      ensures Valid() && busy == old(busy) + [active]
    {
      TrailingIdleNext(busy, active);
      IntervalNext(adaptive.base, adaptive.max, adaptive.factor, TrailingIdle(busy));
      busy := busy + [active];
      if active {
        adaptive.MarkBusy();
      } else {
        adaptive.MarkIdle();
      }
    }
  }
}
