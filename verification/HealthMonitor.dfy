/** The health monitor: a circuit breaker per service, and a check pass over the
    registry that queues a repair whenever a circuit opens. */
module HealthMonitor {
  import opened Common

  datatype Circuit = Closed | Open | HalfOpen

  datatype Health = Health(circuit: Circuit, failures: nat, totalChecks: nat, totalFailures: nat)

  const NEW_HEALTH := Health(Closed, 0, 0, 0)

  /** What happens to one service: a check finds it running, a check finds it not
      running, or a repair job restarts it. */
  datatype Event = Healthy | Failure | Repaired

  predicate Opens(h: Health, max: int, e: Event) {
    e == Failure && h.circuit == Closed && h.failures + 1 >= max
  }

  function Step(h: Health, max: int, e: Event): Health {
    match e
    case Healthy => h.(failures := 0, circuit := Closed, totalChecks := h.totalChecks + 1)
    case Failure =>
      h.(failures := h.failures + 1, totalFailures := h.totalFailures + 1, totalChecks := h.totalChecks + 1,
      circuit := if Opens(h, max, e) then Open else h.circuit)
    case Repaired => h.(circuit := HalfOpen)
  }

  function After(max: int, es: seq<Event>): Health {
    if es == [] then NEW_HEALTH else Step(After(max, es[..|es| - 1]), max, es[|es| - 1])
  }

  /** Failed checks since the last healthy one. */
  function FailureRun(es: seq<Event>): nat {
    if es == [] then 0
    else
      match es[|es| - 1]
      case Healthy => 0
      case Failure => FailureRun(es[..|es| - 1]) + 1
      case Repaired => FailureRun(es[..|es| - 1])
  }

  /** The counter is the current failure run; a closed circuit has fewer failures than
      the threshold, an open one at least as many. */
  lemma {:induction false} CircuitBounds(max: int, es: seq<Event>)
    ensures var h := After(max, es);
            && h.failures == FailureRun(es)
            && (h.circuit == Closed ==> h.failures < Max(1, max))
            && (h.circuit == Open ==> h.failures >= Max(1, max))
    decreases |es|
  {
    if es != [] {
      CircuitBounds(max, es[..|es| - 1]);
    }
  }

  /** What each event does to the failure run. */
  lemma FailureRunNext(es: seq<Event>)
    ensures FailureRun([]) == 0 && FailureRun(es + [Healthy]) == 0
    ensures FailureRun(es + [Failure]) == FailureRun(es) + 1 && FailureRun(es + [Repaired]) == FailureRun(es)
  {
    assert (es + [Healthy])[..|es|] == es && (es + [Failure])[..|es|] == es && (es + [Repaired])[..|es|] == es;
  }

  function Count(es: seq<Event>, e: Event): nat {
    if es == [] then 0 else Count(es[..|es| - 1], e) + (if es[|es| - 1] == e then 1 else 0)
  }

  /** The totals count the checks of the run; repairs are not checks. */
  lemma {:induction false} TotalsCountChecks(max: int, es: seq<Event>)
    ensures After(max, es).totalFailures == Count(es, Failure)
    ensures After(max, es).totalChecks == Count(es, Failure) + Count(es, Healthy)
    decreases |es|
  {
    if es != [] {
      TotalsCountChecks(max, es[..|es| - 1]);
    }
  }

  /** Event i opens the circuit: this is when a repair is queued. */
  predicate OpensAt(max: int, es: seq<Event>, i: nat)
    requires i < |es|
  {
    Opens(After(max, es[..i]), max, es[i])
  }

  /** Event i is the check at which a failure run reaches the threshold; every maximal
      failure run at least that long has exactly one. */
  predicate ReachesThreshold(max: int, es: seq<Event>, i: nat)
    requires i < |es|
  {
    es[i] == Failure && FailureRun(es[..i + 1]) == Max(1, max)
  }

  function RepairsQueued(max: int, es: seq<Event>): nat {
    if es == [] then 0
    else RepairsQueued(max, es[..|es| - 1]) + (if OpensAt(max, es, |es| - 1) then 1 else 0)
  }

  function LongRuns(max: int, es: seq<Event>): nat {
    if es == [] then 0
    else LongRuns(max, es[..|es| - 1]) + (if ReachesThreshold(max, es, |es| - 1) then 1 else 0)
  }

  /** A circuit opens only at the check where a failure run reaches the threshold, and
      there it opens unless it is not closed. */
  lemma OpensAtThreshold(max: int, es: seq<Event>, i: nat)
    requires i < |es|
    ensures OpensAt(max, es, i) <==> ReachesThreshold(max, es, i) && After(max, es[..i]).circuit == Closed
  {
    CircuitBounds(max, es[..i]);
    assert es[..i + 1][..i] == es[..i];
  }

  /** Repairs queued never exceed the long failure runs. */
  lemma {:induction false} RepairsBounded(max: int, es: seq<Event>)
    ensures RepairsQueued(max, es) <= LongRuns(max, es)
    decreases |es|
  {
    if es != [] {
      OpensAtThreshold(max, es, |es| - 1);
      RepairsBounded(max, es[..|es| - 1]);
    }
  }

  /** A repair never lands on a closed circuit. */
  ghost predicate NoLateRepair(max: int, es: seq<Event>) {
    forall i :: 0 <= i < |es| && es[i] == Repaired ==> After(max, es[..i]).circuit != Closed
  }

  lemma NoLateRepairPrefix(max: int, es: seq<Event>, n: nat)
    requires NoLateRepair(max, es) && n <= |es|
    ensures NoLateRepair(max, es[..n])
  {
    forall i | 0 <= i < n && es[..n][i] == Repaired ensures After(max, es[..n][..i]).circuit != Closed {
      assert es[..n][..i] == es[..i];
    }
  }

  /** Without late repairs, a circuit is closed just when the failure run is short. */
  lemma {:induction false} ClosedWhenShort(max: int, es: seq<Event>)
    requires NoLateRepair(max, es)
    ensures After(max, es).circuit == Closed <==> FailureRun(es) < Max(1, max)
    decreases |es|
  {
    CircuitBounds(max, es);
    if es != [] {
      var init := es[..|es| - 1];
      NoLateRepairPrefix(max, es, |es| - 1);
      ClosedWhenShort(max, init);
      CircuitBounds(max, init);
    }
  }

  /** Without late repairs, exactly one repair is queued per long failure run. */
  lemma {:induction false} OneRepairPerLongRun(max: int, es: seq<Event>)
    requires NoLateRepair(max, es)
    ensures RepairsQueued(max, es) == LongRuns(max, es)
    decreases |es|
  {
    if es != [] {
      var n := |es| - 1;
      NoLateRepairPrefix(max, es, n);
      OneRepairPerLongRun(max, es[..n]);
      ClosedWhenShort(max, es[..n]);
      OpensAtThreshold(max, es, n);
      assert es[..n + 1] == es && es[..n + 1][..n] == es[..n];
    }
  }

  /** A repair was made since the last healthy check, if any. */
  predicate RepairedSince(es: seq<Event>) {
    es != [] && (es[|es| - 1] == Repaired || (es[|es| - 1] == Failure && RepairedSince(es[..|es| - 1])))
  }

  lemma {:induction false} ClosedUnlessRepaired(max: int, es: seq<Event>)
    requires FailureRun(es) < Max(1, max)
    ensures After(max, es).circuit == Closed <==> !RepairedSince(es)
    decreases |es|
  {
    if es != [] && es[|es| - 1] == Failure {
      ClosedUnlessRepaired(max, es[..|es| - 1]);
      CircuitBounds(max, es[..|es| - 1]);
    }
  }

  /** A failure run that reaches the threshold opens the circuit, and so queues a repair,
      if and only if no repair was made since the last healthy check. */
  lemma OpensUnlessRepaired(max: int, es: seq<Event>, i: nat)
    requires i < |es| && ReachesThreshold(max, es, i)
    ensures OpensAt(max, es, i) <==> !RepairedSince(es[..i])
  {
    assert es[..i + 1][..i] == es[..i];
    ClosedUnlessRepaired(max, es[..i]);
    OpensAtThreshold(max, es, i);
  }

  /** Over a run, every long failure run gets its repair if and only if none reaches the
      threshold with a repair made since the last healthy check. */
  lemma {:induction false} EveryLongRunRepairedIff(max: int, es: seq<Event>)
    ensures RepairsQueued(max, es) == LongRuns(max, es)
       <==> forall i :: 0 <= i < |es| && ReachesThreshold(max, es, i) ==> !RepairedSince(es[..i])
    decreases |es|
  {
    if es != [] {
      var n := |es| - 1;
      EveryLongRunRepairedIff(max, es[..n]);
      RepairsBounded(max, es[..n]);
      OpensAtThreshold(max, es, n);
      forall i | 0 <= i < n
        ensures ReachesThreshold(max, es[..n], i) <==> ReachesThreshold(max, es, i)
        ensures es[..n][..i] == es[..i]
      {
        assert es[..n][..i] == es[..i] && es[..n][..i + 1] == es[..i + 1];
      }
      if ReachesThreshold(max, es, n) {
        OpensUnlessRepaired(max, es, n);
      }
    }
  }

  /** A repair queued by one failure run that lands only after a healthy check keeps the
      next failure run from queueing one. */
  lemma LateRepairSilencesARun()
    ensures var es := [Failure, Healthy, Repaired, Failure];
            && OpensAt(1, es, 0) && RepairsQueued(1, es) == 1
            && ReachesThreshold(1, es, 3) && LongRuns(1, es) == 2
  {
    var es := [Failure, Healthy, Repaired, Failure];
    var e0, e1, e2, e3: seq<Event> := [], [Failure], [Failure, Healthy], [Failure, Healthy, Repaired];
    assert es[..0] == e0 && es[..1] == e1 && es[..2] == e2 && es[..3] == e3 && es[..4] == es;
    assert e3[..2] == e2 && e3[..3] == e3 && e2[..1] == e1 && e2[..2] == e2 && e1[..0] == e0 && e1[..1] == e1;
    assert After(1, e1) == Health(Open, 1, 1, 1);
    assert After(1, e2) == Health(Closed, 0, 2, 1);
    assert After(1, e3) == Health(HalfOpen, 0, 2, 1);
    assert RepairsQueued(1, e1) == 1 && RepairsQueued(1, e2) == 1 && RepairsQueued(1, e3) == 1;
    assert LongRuns(1, e1) == 1 && LongRuns(1, e2) == 1 && LongRuns(1, e3) == 1;
  }

  /** Between two openings of a circuit there is a healthy check. */
  lemma OpeningsAreSeparated(max: int, es: seq<Event>, i: nat, k: nat)
    requires i < k < |es| && OpensAt(max, es, i) && OpensAt(max, es, k)
    ensures exists j :: i < j < k && es[j] == Healthy
  {
    assert es[..i + 1][..i] == es[..i];
    StaysOpen(max, es, i + 1, k);
  }

  /** A circuit that is not closed stays so until a healthy check. */
  lemma {:induction false} StaysOpen(max: int, es: seq<Event>, i: nat, k: nat)
    requires i <= k <= |es| && After(max, es[..i]).circuit != Closed
    ensures After(max, es[..k]).circuit != Closed || exists j :: i <= j < k && es[j] == Healthy
    decreases k
  {
    if k > i {
      assert es[..k][..k - 1] == es[..k - 1];
      StaysOpen(max, es, i, k - 1);
    }
  }

  // ---- the objects ----

  class ServiceHealth {
    var circuit: Circuit
    var failures: nat
    var totalChecks: nat
    var totalFailures: nat

    ghost function View(): Health
      reads this
    {
      Health(circuit, failures, totalChecks, totalFailures)
    }

    constructor ()
      ensures View() == NEW_HEALTH
    {
      circuit, failures, totalChecks, totalFailures := Closed, 0, 0, 0;
    }

    method RecordHealthy()
      modifies this
      ensures View() == Step(old(View()), 0, Healthy)
      ensures failures == 0 && circuit == Closed
      ensures totalChecks == old(totalChecks) + 1 && totalFailures == old(totalFailures)
    {
      failures := 0;
      circuit := Closed;
      totalChecks := totalChecks + 1;
    }

    method RecordFailure(max: int) returns (justOpened: bool)
      modifies this
      ensures View() == Step(old(View()), max, Failure)
      ensures justOpened <==> Opens(old(View()), max, Failure)
      ensures failures == old(failures) + 1
      ensures totalChecks == old(totalChecks) + 1 && totalFailures == old(totalFailures) + 1
      ensures justOpened <==> old(circuit) == Closed && failures >= max
      ensures circuit == if justOpened then Open else old(circuit)
    {
      failures := failures + 1;
      totalFailures := totalFailures + 1;
      totalChecks := totalChecks + 1;
      justOpened := circuit == Closed && failures >= max;
      if justOpened {
        circuit := Open;
      }
    }
  }

  datatype Report = Report(healthy: seq<string>, degraded: seq<string>, failed: seq<string>)

  type Views = map<string, Health>

  /** The record of a service; one not yet seen starts out new. */
  function ViewOf(views: Views, n: string): Health {
    if n in views then views[n] else NEW_HEALTH
  }

  function EventOf(running: bool): Event {
    if running then Healthy else Failure
  }

  /** The records and the report lists part-way through a check pass. */
  datatype Pass = Pass(views: Views, report: Report)

  function CheckName(p: Pass, n: string, running: bool, max: int): Pass {
    var h, r := ViewOf(p.views, n), p.report;
    Pass(p.views[n := Step(h, max, EventOf(running))],
         if running then r.(healthy := r.healthy + [n])
         else if Opens(h, max, Failure) then r.(failed := r.failed + [n])
         else r.(degraded := r.degraded + [n]))
  }

  function CheckNames(views: Views, names: seq<string>, running: string -> bool, max: int): Pass {
    if names == [] then Pass(views, Report([], [], []))
    else
      var n := names[|names| - 1];
      CheckName(CheckNames(views, names[..|names| - 1], running, max), n, running(n), max)
  }

  lemma CheckNamesNext(views: Views, names: seq<string>, running: string -> bool, max: int, i: nat)
    requires i < |names|
    ensures CheckNames(views, names[..i + 1], running, max)
         == CheckName(CheckNames(views, names[..i], running, max), names[i], running(names[i]), max)
  {
    assert names[..i + 1][..i] == names[..i];
  }

  /** A pass records each service once and leaves all others alone. */
  lemma {:induction false} PassRecordsEach(views: Views, names: seq<string>, running: string -> bool, max: int,
                                           n: string)
    requires Distinct(names)
    ensures var p := CheckNames(views, names, running, max);
            ViewOf(p.views, n) ==
              if n in names then Step(ViewOf(views, n), max, EventOf(running(n))) else ViewOf(views, n)
    decreases |names|
  {
    if names != [] {
      var init, last := names[..|names| - 1], names[|names| - 1];
      assert names == init + [last] && last !in init && Distinct(init);
      PassRecordsEach(views, init, running, max, n);
      PassRecordsEach(views, init, running, max, last);
    }
  }

  function Bag(r: Report): multiset<string> {
    multiset(r.healthy) + multiset(r.degraded) + multiset(r.failed)
  }

  lemma BagGrows(p: Pass, n: string, running: bool, max: int)
    ensures Bag(CheckName(p, n, running, max).report) == Bag(p.report) + multiset{n}
  {
  }

  /** The three lists of a report partition the names checked. */
  lemma {:induction false} ReportPartitions(views: Views, names: seq<string>, running: string -> bool, max: int)
    ensures Bag(CheckNames(views, names, running, max).report) == multiset(names)
    decreases |names|
  {
    if names != [] {
      var init, last := names[..|names| - 1], names[|names| - 1];
      assert names == init + [last];
      ReportPartitions(views, init, running, max);
      BagGrows(CheckNames(views, init, running, max), last, running(last), max);
    }
  }

  /** The healthy ones are those found running, the failed ones those whose circuit
      this check opened. */
  lemma {:induction false} ReportClassifies(views: Views, names: seq<string>, running: string -> bool, max: int,
                                            n: string)
    requires Distinct(names)
    ensures var r := CheckNames(views, names, running, max).report;
            && (n in r.healthy <==> n in names && running(n))
            && (n in r.failed <==> n in names && !running(n) && Opens(ViewOf(views, n), max, Failure))
    decreases |names|
  {
    if names != [] {
      var init, last := names[..|names| - 1], names[|names| - 1];
      assert names == init + [last] && last !in init && Distinct(init);
      ReportClassifies(views, init, running, max, n);
      PassRecordsEach(views, init, running, max, last);
    }
  }

  class HealthMonitor {
    const maxFailures: int
    var health: map<string, ServiceHealth>
    var repairs: seq<string>

    /** No two services share a health record. */
    ghost predicate Valid()
      reads this
    {
      forall m, n :: m in health && n in health && m != n ==> health[m] != health[n]
    }

    ghost function AllViews(): Views
      reads this, health.Values
    {
      map n | n in health :: health[n].View()
    }

    constructor (maxFailures: int := 3)
      ensures Valid() && this.maxFailures == maxFailures && health == map[] && repairs == []
    {
      this.maxFailures := maxFailures;
      health, repairs := map[], [];
    }

    /** The record of the service, made on first sight. */
    method RecordOf(name: string) returns (h: ServiceHealth)
      requires Valid()
      modifies this`health
      ensures Valid() && name in health && health[name] == h
      ensures fresh(health.Values - old(health.Values))
      ensures AllViews() == old(AllViews())[name := ViewOf(old(AllViews()), name)]
    {
      if name !in health {
        h := new ServiceHealth();
        health := health[name := h];
      }
      h := health[name];
    }

    /** One turn of the check loop: records the service, and queues a repair if that
        opens its circuit. */
    method CheckOne(name: string, running: bool, r: Report) returns (r': Report)
      requires Valid()
      modifies this, health.Values
      ensures Valid() && fresh(health.Values - old(health.Values))
      ensures Pass(AllViews(), r') == CheckName(Pass(old(AllViews()), r), name, running, maxFailures)
      ensures repairs == old(repairs) + r'.failed[|r.failed|..]
      ensures running ==> r' == r.(healthy := r.healthy + [name])
      ensures !running ==> r'.healthy == r.healthy
                           && (r' == r.(failed := r.failed + [name]) || r' == r.(degraded := r.degraded + [name]))
    {
      var justOpened := RecordOutcome(name, running);
      if running {
        r' := r.(healthy := r.healthy + [name]);
      } else if justOpened {
        repairs := repairs + [name];
        r' := r.(failed := r.failed + [name]);
      } else {
        r' := r.(degraded := r.degraded + [name]);
      }
    }

    /** Records the outcome of a check, of a service seen before or not. */
    method RecordOutcome(name: string, running: bool) returns (justOpened: bool)
      requires Valid()
      modifies this`health, health.Values
      ensures Valid() && fresh(health.Values - old(health.Values))
      ensures var was := ViewOf(old(AllViews()), name);
              && AllViews() == old(AllViews())[name := Step(was, maxFailures, EventOf(running))]
              && (justOpened <==> Opens(was, maxFailures, EventOf(running)))
    {
      ghost var before := AllViews();
      var h := RecordOf(name);
      assert AllViews()[name] == ViewOf(before, name);
      justOpened := RecordCheck(name, running);
    }

    /** Records the outcome of a check of a known service. */
    method RecordCheck(name: string, running: bool) returns (justOpened: bool)
      requires Valid() && name in health
      modifies health[name]
      ensures AllViews() == old(AllViews())[name := Step(old(AllViews())[name], maxFailures, EventOf(running))]
      ensures justOpened <==> Opens(old(AllViews())[name], maxFailures, EventOf(running))
    {
      if running {
        health[name].RecordHealthy();
        justOpened := false;
      } else {
        justOpened := health[name].RecordFailure(maxFailures);
      }
    }

    /** A check pass over the registry. */
    method CheckAll(names: seq<string>, running: string -> bool) returns (report: Report)
      requires Valid()
      modifies this, health.Values
      ensures Valid()
      ensures Pass(AllViews(), report) == CheckNames(old(AllViews()), names, running, maxFailures)
      ensures repairs == old(repairs) + report.failed
    {
      report := Report([], [], []);
      for i := 0 to |names|
        invariant Valid() && fresh(health.Values - old(health.Values))
        invariant Pass(AllViews(), report) == CheckNames(old(AllViews()), names[..i], running, maxFailures)
        invariant repairs == old(repairs) + report.failed
      {
        CheckNamesNext(old(AllViews()), names, running, maxFailures, i);
        report := CheckOne(names[i], running(names[i]), report);
      }
      assert names[..|names|] == names;
    }

    /** The repair job: stop, then start, and half-open the circuit if both succeed. */
    method RepairService(name: string, stops: bool, starts: bool)
      requires Valid() && name in health
      modifies health[name]
      ensures health[name].circuit == if stops && starts then HalfOpen else old(health[name].circuit)
      ensures health[name].failures == old(health[name].failures)
      ensures health[name].totalChecks == old(health[name].totalChecks)
      ensures health[name].totalFailures == old(health[name].totalFailures)
      ensures AllViews() ==
                if stops && starts then old(AllViews())[name := Step(old(AllViews())[name], maxFailures, Repaired)]
                            else old(AllViews())
    {
      if stops && starts {
        health[name].circuit := HalfOpen;
      }
    }
  }
}
