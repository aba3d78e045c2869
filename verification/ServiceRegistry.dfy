/** The service registry: descriptors by name, and the autostart pass over them in
    load order. */
module ServiceRegistry {
  import opened Common
  import opened LoadOrder

  datatype ServiceState = Stopped | Starting | Running | Failed | Disabled

  datatype Descriptor = Descriptor(hasModule: bool, autoStart: bool, dependsOn: seq<Name>,
                                   state: ServiceState, failureCount: nat, hasInstance: bool)

  type Registry = map<Name, Descriptor>

  function GraphOf(reg: Registry): Graph {
    map n | n in reg :: reg[n].dependsOn
  }

  /** `_start_service` on one descriptor; `starts` says whether importing, building and
      starting the module succeeds. */
  function AfterStart(d: Descriptor, starts: bool): Descriptor {
    if !d.hasModule then d.(state := Running)
    else if starts then d.(state := Running, hasInstance := true)
    else d.(state := Failed, failureCount := d.failureCount + 1)
  }

  /** `stop`; `stops` says whether the instance stops without raising. */
  function AfterStop(d: Descriptor, stops: bool): Descriptor {
    if d.hasInstance && stops then d.(state := Stopped, hasInstance := false) else d
  }

  /** A start or stop call on a service. */
  datatype Action = StartCall(starts: bool) | StopCall(stops: bool)

  function AfterActions(d: Descriptor, run: seq<Action>): Descriptor {
    if run == [] then d
    else
      var before := AfterActions(d, run[..|run| - 1]);
      match run[|run| - 1]
      case StartCall(starts) => AfterStart(before, starts)
      case StopCall(stops) => AfterStop(before, stops)
  }

  function FailedStarts(run: seq<Action>): nat {
    if run == [] then 0 else FailedStarts(run[..|run| - 1]) + (if run[|run| - 1] == StartCall(false) then 1 else 0)
  }

  /** Some start succeeded, and no stop has succeeded since. */
  ghost predicate StartStands(run: seq<Action>) {
    exists i :: 0 <= i < |run| && run[i] == StartCall(true) && forall k :: i < k < |run| ==> run[k] != StopCall(true)
  }

  lemma StartStandsNext(run: seq<Action>, a: Action)
    ensures StartStands(run + [a]) <==> a == StartCall(true) || (StartStands(run) && a != StopCall(true))
  {
    var all := run + [a];
    assert all[|run|] == a;
    if StartStands(run) && a != StopCall(true) {
      var i :| 0 <= i < |run| && run[i] == StartCall(true) && forall k :: i < k < |run| ==> run[k] != StopCall(true);
      assert all[i] == StartCall(true);
    }
    if StartStands(all) && a != StartCall(true) {
      var i :| 0 <= i < |all| && all[i] == StartCall(true) && forall k :: i < k < |all| ==> all[k] != StopCall(true);
      assert run[i] == StartCall(true) && forall k :: i < k < |run| ==> run[k] == all[k];
    }
  }

  /** Over any run of start and stop calls on a service with a module: failures are
      counted one by one, there is an instance exactly while a successful start stands,
      and RUNNING implies one.  A failed restart of a running service leaves the old
      instance in place. */
  lemma {:induction false} InstanceFollowsCalls(d: Descriptor, run: seq<Action>)
    requires d.hasModule && !d.hasInstance && d.state == Stopped && d.failureCount == 0
    ensures var d' := AfterActions(d, run);
            && d'.hasModule
            && d'.failureCount == FailedStarts(run)
            && (d'.hasInstance <==> StartStands(run))
            && (d'.state == Running ==> d'.hasInstance)
            && (run != [] && run[|run| - 1] == StartCall(false) ==> d'.state == Failed)
    decreases |run|
  {
    if run != [] {
      var init, a := run[..|run| - 1], run[|run| - 1];
      assert run == init + [a];
      InstanceFollowsCalls(d, init);
      StartStandsNext(init, a);
    }
  }

  predicate Succeeds(d: Descriptor, starts: bool) {
    !d.hasModule || starts
  }

  predicate Eligible(reg: Registry, n: Name) {
    n in reg && reg[n].autoStart
  }

  /** The registry after a pass over some names, and the names whose start succeeded. */
  datatype Pass = Pass(reg: Registry, started: seq<Name>)

  function TryOne(p: Pass, n: Name, starts: Name -> bool): Pass {
    if !Eligible(p.reg, n) then p
    else Pass(p.reg[n := AfterStart(p.reg[n], starts(n))],
              p.started + if Succeeds(p.reg[n], starts(n)) then [n] else [])
  }

  function TryAll(reg: Registry, order: seq<Name>, starts: Name -> bool): Pass {
    if order == [] then Pass(reg, [])
    else TryOne(TryAll(reg, order[..|order| - 1], starts), order[|order| - 1], starts)
  }

  lemma TryAllNext(reg: Registry, order: seq<Name>, starts: Name -> bool, i: nat)
    requires i < |order|
    ensures TryAll(reg, order[..i + 1], starts) == TryOne(TryAll(reg, order[..i], starts), order[i], starts)
  {
    assert order[..i + 1][..i] == order[..i];
  }

  /** A pass tries each eligible name of the order once, whether or not earlier ones
      failed, and leaves every other service alone. */
  lemma {:induction false} PassTriesEach(reg: Registry, order: seq<Name>, starts: Name -> bool)
    requires Distinct(order)
    ensures var p := TryAll(reg, order, starts);
            && p.reg.Keys == reg.Keys
            && (forall n :: n in reg ==>
                              p.reg[n] ==
                                if n in order && Eligible(reg, n) then AfterStart(reg[n], starts(n)) else reg[n])
            && (forall n :: n in p.started <==> n in order && Eligible(reg, n) && Succeeds(reg[n], starts(n)))
  {
    if order != [] {
      var init, last := order[..|order| - 1], order[|order| - 1];
      assert Distinct(init) && last !in init && order == init + [last];
      PassTriesEach(reg, init, starts);
    }
  }

  /** Services are started in load order. */
  lemma {:induction false} StartedInOrder(reg: Registry, order: seq<Name>, starts: Name -> bool, j: nat, d: Name)
    requires Distinct(order) && j < |order| && d in order[..j]
    requires d in TryAll(reg, order, starts).started && order[j] in TryAll(reg, order, starts).started
    ensures Earlier(TryAll(reg, order, starts).started, d, order[j])
  {
    var init, last := order[..|order| - 1], order[|order| - 1];
    var before := TryAll(reg, init, starts).started;
    assert order == init + [last] && init[..j] == order[..j];
    PassTriesEach(reg, order, starts);
    PassTriesEach(reg, init, starts);
    assert d in before;
    if j == |init| {
      AppendedIsLater(before, d, last);
    } else {
      StartedInOrder(reg, init, starts, j, d);
      StaysEarlier(before, d, order[j], last);
    }
  }

  lemma AppendedIsLater(s: seq<Name>, d: Name, n: Name)
    requires d in s
    ensures Earlier(s + [n], d, n)
  {
    var a :| 0 <= a < |s| && s[a] == d;
    assert (s + [n])[a] == d && (s + [n])[|s|] == n;
  }

  lemma StaysEarlier(s: seq<Name>, d: Name, n: Name, m: Name)
    requires Earlier(s, d, n)
    ensures Earlier(s + [m], d, n) && Earlier(s + [], d, n)
  {
    var a, b :| 0 <= a < b < |s| && s[a] == d && s[b] == n;
    assert (s + [m])[a] == d && (s + [m])[b] == n;
    assert s + [] == s;
  }

  ghost predicate Earlier(s: seq<Name>, d: Name, n: Name) {
    exists a, b :: 0 <= a < b < |s| && s[a] == d && s[b] == n
  }

  /** The load order was computed from this dependency graph. */
  ghost predicate OrderFor(g: Graph, order: seq<Name>) {
    && Distinct(order)
    && Elements(order) == Universe(g)
    && forall j, d :: 0 <= j < |order| && Edge(g, order[j], d) ==> EdgeRespected(g, order, j, d)
  }

  /** When a service and one it depends on are both started, the dependency was started
      earlier, unless it depends on the service in turn. */
  lemma DependenciesStartFirst(reg: Registry, order: seq<Name>, starts: Name -> bool, n: Name, d: Name)
    requires OrderFor(GraphOf(reg), order)
    requires n in reg && d in reg[n].dependsOn
    requires var started := TryAll(reg, order, starts).started; n in started && d in started
    ensures Reaches(GraphOf(reg), d, n) || Earlier(TryAll(reg, order, starts).started, d, n)
  {
    PassTriesEach(reg, order, starts);
    var j :| 0 <= j < |order| && order[j] == n;
    assert Edge(GraphOf(reg), order[j], d) && EdgeRespected(GraphOf(reg), order, j, d);
    if d in order[..j] {
      StartedInOrder(reg, order, starts, j, d);
    }
  }

  /** A load order lists the registered services and those they depend on. */
  lemma ListedMeans(reg: Registry, order: seq<Name>)
    requires OrderFor(GraphOf(reg), order)
    ensures forall n :: n in order <==> n in reg || exists m :: m in reg && n in reg[m].dependsOn
  {
    var g := GraphOf(reg);
    forall n ensures n in order <==> n in reg || exists m :: m in reg && n in reg[m].dependsOn {
      assert n in order <==> n in Elements(order);
      if m :| m in reg && n in reg[m].dependsOn {
        var i :| 0 <= i < |reg[m].dependsOn| && reg[m].dependsOn[i] == n;
        assert m in g && g[m][i] == n;
      }
    }
  }

  /** Starting services leaves the dependency graph alone. */
  lemma PassKeepsGraph(reg: Registry, order: seq<Name>, starts: Name -> bool)
    requires Distinct(order)
    ensures GraphOf(TryAll(reg, order, starts).reg) == GraphOf(reg)
  {
    PassTriesEach(reg, order, starts);
    var reg' := TryAll(reg, order, starts).reg;
    assert forall n :: n in reg ==> reg'[n].dependsOn == reg[n].dependsOn;
  }

  class ServiceRegistry {
    var names: seq<Name>
    var registry: Registry
    var loadOrder: seq<Name>

    /** The dictionary lists its keys in insertion order. */
    ghost predicate Valid()
      reads this
    {
      Distinct(names) && Elements(names) == registry.Keys
    }

    ghost predicate Ordered()
      reads this
    {
      OrderFor(GraphOf(registry), loadOrder)
    }

    constructor ()
      ensures Valid() && registry == map[] && loadOrder == []
    {
      names, registry, loadOrder := [], map[], [];
    }

    /** A parsed descriptor replaces one of the same name and keeps its position. */
    method Add(name: Name, desc: Descriptor)
      requires Valid()
      modifies this`names, this`registry
      ensures Valid() && registry == old(registry)[name := desc]
      ensures names == if name in old(registry) then old(names) else old(names) + [name]
    {
      if name !in registry {
        assert name !in Elements(names);
        names := names + [name];
        assert Elements(names) == Elements(old(names)) + {name};
      }
      registry := registry[name := desc];
    }

    method ComputeOrder()
      requires Valid()
      modifies this`loadOrder
      ensures Ordered()
      ensures Distinct(loadOrder)
      ensures forall n :: n in loadOrder <==>
                            n in registry || exists m :: m in registry && n in registry[m].dependsOn
    {
      var g := map n | n in registry :: registry[n].dependsOn;
      assert g == GraphOf(registry);
      loadOrder := ComputeLoadOrder(names, g);
      ListedMeans(registry, loadOrder);
    }

    method StartService(name: Name, starts: bool) returns (ok: bool)
      requires name in registry
      modifies this`registry
      ensures ok <==> Succeeds(old(registry)[name], starts)
      ensures registry == old(registry)[name := AfterStart(old(registry)[name], starts)]
      ensures var was, now := old(registry)[name], registry[name];
              && (ok <==> !was.hasModule || starts)
              && now.state == (if ok then Running else Failed)
              && now.failureCount == was.failureCount + (if ok then 0 else 1)
              && now.hasInstance == (was.hasInstance || (was.hasModule && starts))
              && now.hasModule == was.hasModule && now.autoStart == was.autoStart && now.dependsOn == was.dependsOn
    {
      var desc := registry[name];
      if !desc.hasModule {
        registry := registry[name := desc.(state := Running)];
        return true;
      }
      desc := desc.(state := Starting);
      if starts {
        desc := desc.(hasInstance := true);
        registry := registry[name := desc.(state := Running)];
      } else {
        registry := registry[name := desc.(state := Failed, failureCount := desc.failureCount + 1)];
      }
      ok := starts;
    }

    method Stop(name: Name, stops: bool) returns (ok: bool)
      modifies this`registry
      ensures ok <==> name in old(registry) && old(registry)[name].hasInstance && stops
      ensures name !in old(registry) ==> registry == old(registry)
      ensures name in old(registry) ==> registry == old(registry)[name := AfterStop(old(registry)[name], stops)]
      ensures ok ==> registry[name] == old(registry)[name].(state := Stopped, hasInstance := false)
      ensures !ok ==> registry == old(registry)
    {
      ok := name in registry && registry[name].hasInstance && stops;
      if ok {
        registry := registry[name := registry[name].(state := Stopped, hasInstance := false)];
      }
    }

    /** The autostart pass: one try of each eligible service, in load order. */
    method StartAllAutostart(starts: Name -> bool) returns (started: seq<Name>)
      requires Valid() && Ordered()
      modifies this`registry
      ensures Valid() && Ordered()
      ensures Pass(registry, started) == TryAll(old(registry), loadOrder, starts)
      ensures registry.Keys == old(registry).Keys
      ensures forall n :: n in started <==>
                            && n in old(registry) && old(registry)[n].autoStart
                            && (old(registry)[n].hasModule ==> starts(n))
      ensures forall n :: n in registry ==>
                            var was := old(registry)[n];
                            registry[n] == if !was.autoStart then was
                                           else if n in started then
                                             was.(state := Running, hasInstance := was.hasInstance || was.hasModule)
                                           else was.(state := Failed, failureCount := was.failureCount + 1)
    {
      ghost var reg := registry;
      started := [];
      for i := 0 to |loadOrder|
        invariant Pass(registry, started) == TryAll(reg, loadOrder[..i], starts)
      {
        TryAllNext(reg, loadOrder, starts, i);
        var name := loadOrder[i];
        if name in registry && registry[name].autoStart {
          var ok := StartService(name, starts(name));
          if ok {
            started := started + [name];
          }
        }
      }
      assert loadOrder[..|loadOrder|] == loadOrder;
      PassKeepsGraph(reg, loadOrder, starts);
      PassTriesEach(reg, loadOrder, starts);
      ListedMeans(reg, loadOrder);
    }
  }
}
