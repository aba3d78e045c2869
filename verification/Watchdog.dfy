/** The kernel watchdog: restart supervision with a fixed back-off and a limit on
    failed restarts. */
module Watchdog {
  import opened Common

  /** `lastFailure` is a reading of the monotone clock, in milliseconds. */
  datatype Health = Health(failures: nat, lastFailure: Option<real>, restarts: nat, disabled: bool)

  const NEW_HEALTH := Health(0, None, 0, false)

  datatype Limits = Limits(maxFailures: int, backoffMs: real)

  predicate Restartable(h: Health, l: Limits, now: real) {
    !h.disabled && (h.lastFailure.None? || now - h.lastFailure.value >= l.backoffMs)
  }

  function AfterFailure(h: Health, l: Limits, now: real): Health {
    h.(failures := h.failures + 1, lastFailure := Some(now),
    disabled := h.disabled || h.failures + 1 >= l.maxFailures)
  }

  datatype Status = Registered | Starting | Running | Stopping | Stopped | Unknown

  /** What a restart attempt meets: the clock when it checks the back-off, the service's
      state then, whether `start` raises, and the clock when that is noticed. */
  datatype Attempt = Attempt(checkedAt: real, status: Status, raises: bool, noticedAt: real)

  /** `_attempt_restart` on one record. */
  function AfterAttempt(h: Health, l: Limits, a: Attempt): Health {
    if !Restartable(h, l, a.checkedAt) || a.status !in {Stopped, Registered} then h
    else if a.raises then AfterFailure(h, l, a.noticedAt)
    else h.(restarts := h.restarts + 1)
  }

  function After(l: Limits, run: seq<Attempt>): Health {
    if run == [] then NEW_HEALTH else AfterAttempt(After(l, run[..|run| - 1]), l, run[|run| - 1])
  }

  /** When each recorded failure was noticed. */
  function FailureTimes(l: Limits, run: seq<Attempt>): seq<real> {
    if run == [] then []
    else
      var h, a := After(l, run[..|run| - 1]), run[|run| - 1];
      FailureTimes(l, run[..|run| - 1])
      + (if Restartable(h, l, a.checkedAt) && a.status in {Stopped, Registered} && a.raises then [a.noticedAt] else [])
  }

  ghost predicate ForwardInTime(run: seq<Attempt>) {
    forall i :: 0 <= i < |run| ==> run[i].checkedAt <= run[i].noticedAt
  }

  /** Failures never exceed max(1, max_failures); a service is disabled exactly when
      they have reached it; and failures are at least the back-off apart. */
  lemma {:induction false} SupervisionBounds(l: Limits, run: seq<Attempt>)
    requires ForwardInTime(run)
    ensures var h := After(l, run); var times := FailureTimes(l, run);
            && h.failures == |times| <= Max(1, l.maxFailures)
            && (h.disabled <==> h.failures == Max(1, l.maxFailures))
            && h.lastFailure == (if times == [] then None else Some(times[|times| - 1]))
            && (forall i :: 0 < i < |times| ==> times[i] - times[i - 1] >= l.backoffMs)
    decreases |run|
  {
    if run != [] {
      var init := run[..|run| - 1];
      assert ForwardInTime(init) by {
        assert forall i :: 0 <= i < |init| ==> init[i] == run[i];
      }
      SupervisionBounds(l, init);
    }
  }

  /** Disabled is for ever: no later attempt changes anything. */
  lemma {:induction false} DisabledIsPermanent(l: Limits, run: seq<Attempt>, n: nat)
    requires n <= |run| && After(l, run[..n]).disabled
    ensures After(l, run) == After(l, run[..n])
    decreases |run|
  {
    if n == |run| {
      assert run[..n] == run;
    } else {
      assert run[..|run| - 1][..n] == run[..n];
      DisabledIsPermanent(l, run[..|run| - 1], n);
    }
  }

  /** Until then, a stopped service is restarted whenever the back-off has passed. */
  lemma RestartsWhenAllowed(l: Limits, run: seq<Attempt>, a: Attempt)
    requires ForwardInTime(run + [a]) && a.status == Stopped && !a.raises
    requires |FailureTimes(l, run)| < Max(1, l.maxFailures)
    requires var times := FailureTimes(l, run); times != [] ==> a.checkedAt >= times[|times| - 1] + l.backoffMs
    ensures After(l, run + [a]).restarts == After(l, run).restarts + 1
  {
    assert (run + [a])[..|run|] == run;
    assert ForwardInTime(run) by {
      assert forall i :: 0 <= i < |run| ==> (run + [a])[i] == run[i];
    }
    SupervisionBounds(l, run);
  }

  // ---- the objects ----

  class ServiceHealth {
    const limits: Limits
    var failures: nat
    var lastFailure: Option<real>
    var restarts: nat
    var disabled: bool

    ghost function View(): Health
      reads this
    {
      Health(failures, lastFailure, restarts, disabled)
    }

    constructor (maxFailures: int := 3, backoffMs: real := 5000.0)
      ensures View() == NEW_HEALTH && limits == Limits(maxFailures, backoffMs)
      ensures failures == 0 && lastFailure == None && restarts == 0 && !disabled
    {
      limits := Limits(maxFailures, backoffMs);
      failures, lastFailure, restarts, disabled := 0, None, 0, false;
    }

    method RecordFailure(now: real)
      modifies this
      ensures View() == AfterFailure(old(View()), limits, now)
      ensures failures == old(failures) + 1 && lastFailure == Some(now) && restarts == old(restarts)
      ensures disabled <==> old(disabled) || failures >= limits.maxFailures
    {
      failures := failures + 1;
      lastFailure := Some(now);
      if failures >= limits.maxFailures {
        disabled := true;
      }
    }

    method IsRestartable(now: real) returns (ok: bool)
      ensures ok <==> Restartable(View(), limits, now)
      ensures ok <==> !disabled && (lastFailure.None? || now - lastFailure.value >= limits.backoffMs)
    {
      if disabled {
        return false;
      }
      if lastFailure.None? {
        return true;
      }
      ok := now - lastFailure.value >= limits.backoffMs;
    }

    method AttemptRestart(a: Attempt)
      modifies this
      ensures View() == AfterAttempt(old(View()), limits, a)
      ensures var tried := && !old(disabled) && a.status in {Stopped, Registered}
                           && (old(lastFailure).None? || a.checkedAt - old(lastFailure).value >= limits.backoffMs);
              && restarts == old(restarts) + (if tried && !a.raises then 1 else 0)
              && failures == old(failures) + (if tried && a.raises then 1 else 0)
              && lastFailure == (if tried && a.raises then Some(a.noticedAt) else old(lastFailure))
    {
      var ok := IsRestartable(a.checkedAt);
      if ok && a.status in {Stopped, Registered} {
        if a.raises {
          RecordFailure(a.noticedAt);
        } else {
          restarts := restarts + 1;
        }
      }
    }
  }

  type Views = map<string, Health>

  lemma GoodOrBad(s: Status)
    ensures s in {Stopped, Stopping, Unknown} <==> s !in {Running, Registered, Starting}
  {
  }

  /** The services a cycle finds degraded: not in a good state and not given up. */
  predicate Degraded(views: Views, status: string -> Status, n: string) {
    n in views && status(n) !in {Running, Registered, Starting} && !views[n].disabled
  }

  function AfterAttempts(views: Views, l: Limits, names: seq<string>, world: string -> Attempt): Views {
    if names == [] then views
    else
      var n := names[|names| - 1];
      var views' := AfterAttempts(views, l, names[..|names| - 1], world);
      if n in views' then views'[n := AfterAttempt(views'[n], l, world(n))] else views'
  }

  /** A round of attempts touches each listed service once, and no other. */
  lemma {:induction false} AttemptsTouchEach(views: Views, l: Limits, names: seq<string>, world: string -> Attempt)
    requires Distinct(names)
    ensures var views' := AfterAttempts(views, l, names, world);
            && views'.Keys == views.Keys
            && forall n :: n in views ==>
                             views'[n] == if n in names then AfterAttempt(views[n], l, world(n)) else views[n]
    decreases |names|
  {
    if names != [] {
      var init, last := names[..|names| - 1], names[|names| - 1];
      assert names == init + [last] && last !in init && Distinct(init);
      AttemptsTouchEach(views, l, init, world);
    }
  }

  /** A monitored service that is stopped and not given up, is past its back-off, and whose
      start does not raise. */
  predicate RestartDue(views: Views, l: Limits, status: string -> Status, world: string -> Attempt, n: string) {
    && n in views && status(n) == Stopped && !views[n].disabled
    && (views[n].lastFailure.None? || world(n).checkedAt - views[n].lastFailure.value >= l.backoffMs)
    && world(n).status == Stopped && !world(n).raises
  }

  /** A round of attempts restarts every such service. */
  lemma StoppedRestarts(views: Views, l: Limits, degraded: seq<string>, status: string -> Status,
                        world: string -> Attempt)
    requires Distinct(degraded) && forall n :: n in degraded <==> Degraded(views, status, n)
    ensures forall n ::
              n in views && status(n) == Stopped && !views[n].disabled
              && (views[n].lastFailure.None? || world(n).checkedAt - views[n].lastFailure.value >= l.backoffMs)
              && world(n).status == Stopped && !world(n).raises ==>
                RestartDue(views, l, status, world, n)
    ensures var views' := AfterAttempts(views, l, degraded, world);
            forall n :: RestartDue(views, l, status, world, n) ==>
                          n in views' && views'[n].restarts == views[n].restarts + 1
  {
    AttemptsTouchEach(views, l, degraded, world);
  }

  class KernelWatchdog {
    const limits: Limits
    const autoRestart: bool
    var names: seq<string>
    var health: map<string, ServiceHealth>

    /** One record per monitored service, all with the watchdog's limits. */
    ghost predicate Valid()
      reads this
    {
      && Distinct(names)
      && (forall n :: n in names <==> n in health)
      && (forall m, n :: m in health && n in health && m != n ==> health[m] != health[n])
      && (forall n :: n in health ==> health[n].limits == limits)
    }

    ghost function AllViews(): Views
      reads this, health.Values
    {
      map n | n in health :: health[n].View()
    }

    constructor (maxFailures: int := 3, autoRestart: bool := true)
      ensures Valid() && health == map[] && limits == Limits(maxFailures, 5000.0) && this.autoRestart == autoRestart
    {
      limits := Limits(maxFailures, 5000.0);
      this.autoRestart := autoRestart;
      names, health := [], map[];
    }

    /** On SERVICE_REGISTERED: a service keeps its record when registered again. */
    method OnServiceRegistered(name: string)
      requires Valid()
      modifies this
      ensures Valid()
      ensures AllViews() == if name in old(health) then old(AllViews()) else old(AllViews())[name := NEW_HEALTH]
    {
      if name !in health {
        var h := new ServiceHealth(limits.maxFailures, limits.backoffMs);
        AddRecord(name, h);
      }
    }

    method AddRecord(name: string, h: ServiceHealth)
      requires Valid() && name !in health && h.View() == NEW_HEALTH && h.limits == limits
      requires forall n :: n in health ==> health[n] != h
      modifies this
      ensures Valid() && AllViews() == old(AllViews())[name := NEW_HEALTH]
    {
      names := names + [name];
      health := health[name := h];
    }

    /** One cycle: the degraded services, in the order monitored, and one restart attempt
        on each unless the watchdog only observes. */
    method CheckCycle(status: string -> Status, world: string -> Attempt) returns (degraded: seq<string>)
      requires Valid()
      modifies health.Values
      ensures Valid() && Distinct(degraded)
      ensures forall n :: n in degraded <==> Degraded(old(AllViews()), status, n)
      ensures forall n :: n in old(AllViews()) ==>
                            (n in degraded <==>
                             status(n) in {Stopped, Stopping, Unknown} && !old(AllViews())[n].disabled)
      ensures AllViews() ==
                if autoRestart then AfterAttempts(old(AllViews()), limits, degraded, world) else old(AllViews())
      ensures autoRestart ==> forall n :: RestartDue(old(AllViews()), limits, status, world, n) ==>
                                            && n in AllViews()
                                            && AllViews()[n].restarts == old(AllViews())[n].restarts + 1
    {
      degraded := FindDegraded(status);
      StoppedRestarts(AllViews(), limits, degraded, status, world);
      if autoRestart {
        RestartAll(degraded, world);
      }
    }

    method RestartAll(degraded: seq<string>, world: string -> Attempt)
      requires Valid() && forall n :: n in degraded ==> n in health
      modifies health.Values
      ensures Valid() && AllViews() == AfterAttempts(old(AllViews()), limits, degraded, world)
    {
      for i := 0 to |degraded|
        invariant Valid()
        invariant AllViews() == AfterAttempts(old(AllViews()), limits, degraded[..i], world)
      {
        assert degraded[..i + 1][..i] == degraded[..i];
        RestartOne(degraded[i], world(degraded[i]));
      }
      assert degraded[..|degraded|] == degraded;
    }

    method FindDegraded(status: string -> Status) returns (degraded: seq<string>)
      requires Valid()
      ensures Distinct(degraded)
      ensures forall n :: n in degraded <==> Degraded(AllViews(), status, n)
      ensures forall n :: n in AllViews() ==>
                            (n in degraded <==> status(n) in {Stopped, Stopping, Unknown} && !AllViews()[n].disabled)
    {
      degraded := [];
      for i := 0 to |names|
        invariant Distinct(degraded)
        invariant forall n :: n in degraded <==> n in names[..i] && Degraded(AllViews(), status, n)
      {
        var n := names[i];
        assert names[..i + 1] == names[..i] + [n] && n !in names[..i];
        if status(n) !in {Running, Registered, Starting} && !health[n].disabled {
          degraded := degraded + [n];
        }
      }
      assert names[..|names|] == names;
      forall n | n in AllViews()
        ensures n in degraded <==> status(n) in {Stopped, Stopping, Unknown} && !AllViews()[n].disabled
      {
        GoodOrBad(status(n));
      }
    }

    method RestartOne(name: string, a: Attempt)
      requires Valid() && name in health
      modifies health[name]
      ensures AllViews() == old(AllViews())[name := AfterAttempt(old(AllViews())[name], limits, a)]
    {
      health[name].AttemptRestart(a);
    }
  }
}
