/** The command override layer: a guard that decides which blocked actions may be
    overridden at all, and an append-only audit log of every request. */
module Override {
  import opened Common
  import opened Permissions

  const OVERRIDEABLE_ACTIONS: set<Capability> := {
    NetListen, NetRaw, FsChmod, FsMountBind, StoragePartition, ServiceStart, ServiceStop,
    ModelLoad, KernelConfigWrite
  }

  /** Only what internal mode adds can be overridden: nothing of the tier below, and
      nothing of hardware mode. */
  lemma OverridesAreInternal(c: Capability)
    ensures c in OVERRIDEABLE_ACTIONS ==> c in TIER_2 && c !in TIER_1
  {
  }

  /** The host bridge: absent, or the capabilities it reports. */
  datatype Bridge = NoBridge | Bridge(supports: set<Capability>)

  predicate BridgeAllows(b: Bridge, c: Capability) {
    b.Bridge? ==> c in b.supports
  }

  // ---- target paths and reasons ----

  function StripSlashes(path: string): string {
    if path != [] && path[0] == '/' then StripSlashes(path[1..]) else path
  }

  function UpToSlash(path: string): string {
    if path == [] || path[0] == '/' then [] else [path[0]] + UpToSlash(path[1..])
  }

  /** The path's first component is one of the protected partitions. */
  predicate Protected(path: string) {
    path != [] && UpToSlash(StripSlashes(path)) in {"boot", "system"}
  }

  lemma {:induction false} UpToSlashIs(path: string, name: string)
    requires '/' !in name
    ensures UpToSlash(path) == name <==> Within(path, name)
  {
    if path == [] || path[0] == '/' {
      assert name == [] && path != [] ==> name + "/" <= path;
      assert name != [] ==> (name + "/")[0] == name[0] && name[0] in name;
    } else if name != [] {
      assert path == [path[0]] + path[1..] && name == [name[0]] + name[1..];
      UpToSlashIs(path[1..], name[1..]);
      assert name + "/" == [name[0]] + (name[1..] + "/");
      assert name + "/" <= path <==> name[0] == path[0] && name[1..] + "/" <= path[1..] by {
        if name + "/" <= path {
          assert path[..|name| + 1] == name + "/";
          assert path[1..][..|name|] == path[1..|name| + 1] == name[1..] + "/";
        }
      }
    }
  }

  /** The path is the partition or lies below it. */
  predicate Within(path: string, partition: string) {
    path == partition || partition + "/" <= path
  }

  /** A path is protected exactly when, leading slashes aside, it is a protected
      partition or lies below one. */
  lemma ProtectedMeans(slashes: string, rest: string)
    requires forall i :: 0 <= i < |slashes| ==> slashes[i] == '/'
    requires rest != [] && rest[0] != '/'
    ensures Protected(slashes + rest) <==> Within(rest, "boot") || Within(rest, "system")
    ensures Protected(slashes + rest) <==>
              rest == "boot" || "boot/" <= rest || rest == "system" || "system/" <= rest
    ensures !Protected(slashes)
  {
    StripAll(slashes, rest);
    UpToSlashIs(rest, "boot");
    UpToSlashIs(rest, "system");
    OnlySlashes(slashes);
    assert "boot" + "/" == "boot/" && "system" + "/" == "system/";
  }

  lemma {:induction false} OnlySlashes(slashes: string)
    requires forall i :: 0 <= i < |slashes| ==> slashes[i] == '/'
    ensures StripSlashes(slashes) == ""
  {
    if slashes != [] {
      OnlySlashes(slashes[1..]);
    }
  }

  lemma {:induction false} StripAll(slashes: string, rest: string)
    requires forall i :: 0 <= i < |slashes| ==> slashes[i] == '/'
    requires rest != [] && rest[0] != '/'
    ensures StripSlashes(slashes + rest) == rest
  {
    if slashes == [] {
      assert slashes + rest == rest;
    } else {
      assert (slashes + rest)[1..] == slashes[1..] + rest;
      StripAll(slashes[1..], rest);
    }
  }

  /** White space in the sense of `str.strip`. */
  predicate IsSpace(c: char) {
    || '\t' <= c <= '\r' || '\U{1c}' <= c <= ' ' || c == '\U{85}' || c == '\U{a0}'
    || c == '\U{1680}' || '\U{2000}' <= c <= '\U{200a}' || c == '\U{2028}' || c == '\U{2029}'
    || c == '\U{202f}' || c == '\U{205f}' || c == '\U{3000}'
  }

  /** The white space characters by code point. */
  lemma SpacesAre(c: char)
    ensures IsSpace(c) <==>
              || 9 <= c as int <= 13 || 28 <= c as int <= 32 || c as int in {133, 160, 5760}
              || 8192 <= c as int <= 8202 || c as int in {8232, 8233, 8239, 8287, 12288}
  {
  }

  predicate Blank(reason: string) {
    forall i :: 0 <= i < |reason| ==> IsSpace(reason[i])
  }

  // ---- requests ----

  datatype Denial = NoDenial | NotOverrideable | BridgeLacks | ProtectedPath | EmptyReason | Declined | ExecutionFailed

  /** What the function to execute does, when one is given. */
  datatype Execution = Returns | Raises

  /** A call of `request_override`: `confirmed` is the --force flag or the operator's
      typed answer. */
  datatype Call = Call(action: Capability, reason: string, targetPath: string, requestor: string,
                       confirmed: bool, execute: Option<Execution>, mode: string)

  /** An audit entry: a snapshot of request and result at the time of logging. */
  datatype Entry = Entry(requestId: nat, call: Call, approved: bool, executed: bool, denial: Denial)

  /** `OverrideGuard.validate`: the first objection, in the order of the checks. */
  function Validate(b: Bridge, call: Call): Denial {
    if call.action !in OVERRIDEABLE_ACTIONS then NotOverrideable
    else if !BridgeAllows(b, call.action) then BridgeLacks
    else if Protected(call.targetPath) then ProtectedPath
    else if Blank(call.reason) then EmptyReason
    else NoDenial
  }

  /** Which objection is raised: the first, of action, bridge, path and reason. */
  lemma ObjectionMeans(b: Bridge, call: Call)
    ensures var listed := call.action in OVERRIDEABLE_ACTIONS;
            var supported := b == NoBridge || call.action in b.supports;
            var blank := forall i :: 0 <= i < |call.reason| ==> IsSpace(call.reason[i]);
            && (Validate(b, call) == NotOverrideable <==> !listed)
            && (Validate(b, call) == BridgeLacks <==> listed && !supported)
            && (Validate(b, call) == ProtectedPath <==> listed && supported && Protected(call.targetPath))
            && (Validate(b, call) == EmptyReason <==> listed && supported && !Protected(call.targetPath) && blank)
            && (Validate(b, call) == NoDenial <==> listed && supported && !Protected(call.targetPath) && !blank)
    ensures Validate(b, call) == NoDenial ==>
              DenialOf(b, call) == if !call.confirmed then Declined
                                   else if call.execute == Some(Raises) then ExecutionFailed
                                   else NoDenial
    ensures Validate(b, call) != NoDenial ==> DenialOf(b, call) == Validate(b, call)
  {
  }

  predicate Approved(b: Bridge, call: Call) {
    Validate(b, call) == NoDenial && call.confirmed
  }

  /** What the caller is told: the objection, the operator's refusal, or that the
      execution failed. */
  function DenialOf(b: Bridge, call: Call): Denial {
    if Validate(b, call) != NoDenial then Validate(b, call)
    else if !call.confirmed then Declined
    else if call.execute == Some(Raises) then ExecutionFailed
    else NoDenial
  }

  predicate Executes(b: Bridge, call: Call) {
    Approved(b, call) && call.execute.Some?
  }

  /** Approval requires every condition at once. */
  lemma ApprovedMeans(b: Bridge, call: Call)
    ensures Approved(b, call) <==>
              && call.action in OVERRIDEABLE_ACTIONS && BridgeAllows(b, call.action)
              && !Protected(call.targetPath) && !Blank(call.reason) && call.confirmed
  {
  }

  /** The entries one request adds to the log. */
  function EntriesOf(b: Bridge, id: nat, call: Call): seq<Entry> {
    var objection := Validate(b, call);
    if objection != NoDenial then [Entry(id, call, false, false, objection)]
    else if !call.confirmed then [Entry(id, call, false, false, Declined)]
    else
      [Entry(id, call, true, false, NoDenial)]
      + match call.execute
        case None => []
        case Some(Returns) => [Entry(id, call, true, true, NoDenial)]
        case Some(Raises) => [Entry(id, call, true, false, ExecutionFailed)]
  }

  /** The log after a run of requests, numbered from 1. */
  function LogOf(b: Bridge, calls: seq<Call>): seq<Entry> {
    if calls == [] then []
    else LogOf(b, calls[..|calls| - 1]) + EntriesOf(b, |calls|, calls[|calls| - 1])
  }

  lemma LogOfNext(b: Bridge, calls: seq<Call>, call: Call)
    ensures LogOf(b, calls + [call]) == LogOf(b, calls) + EntriesOf(b, |calls| + 1, call)
  {
    assert (calls + [call])[..|calls|] == calls;
  }

  /** Entry `i` reports an execution that was approved, and logged as such, before. */
  ghost predicate ApprovedBefore(log: seq<Entry>, i: nat)
    requires i < |log|
  {
    exists k :: 0 <= k < i && log[k].requestId == log[i].requestId && log[k].call == log[i].call
                && log[k].approved && !log[k].executed && log[k].denial == NoDenial
  }

  /** In the log of any run, every execution, successful or not, comes after the
      approval of the same request, and only approvable requests are approved. */
  lemma {:induction false} AuditTrail(b: Bridge, calls: seq<Call>, i: nat)
    requires i < |LogOf(b, calls)|
    ensures var e := LogOf(b, calls)[i];
            && 1 <= e.requestId <= |calls| && e.call == calls[e.requestId - 1]
            && (e.approved <==> Approved(b, e.call))
            && (e.executed || e.denial == ExecutionFailed ==> ApprovedBefore(LogOf(b, calls), i))
    decreases |calls|
  {
    var n := |calls| - 1;
    var before, after := LogOf(b, calls[..n]), LogOf(b, calls);
    if i < |before| {
      AuditTrail(b, calls[..n], i);
      if before[i].executed || before[i].denial == ExecutionFailed {
        var k :| 0 <= k < i && before[k].requestId == before[i].requestId && before[k].call == before[i].call
                 && before[k].approved && !before[k].executed && before[k].denial == NoDenial;
        assert after[k] == before[k];
      }
    } else {
      assert after[i] == EntriesOf(b, n + 1, calls[n])[i - |before|];
      assert after[|before|] == EntriesOf(b, n + 1, calls[n])[0];
    }
  }

  function CountId(log: seq<Entry>, id: nat): nat {
    if log == [] then 0
    else CountId(log[..|log| - 1], id) + (if log[|log| - 1].requestId == id then 1 else 0)
  }

  lemma {:induction false} CountIdConcat(a: seq<Entry>, b: seq<Entry>, id: nat)
    ensures CountId(a + b, id) == CountId(a, id) + CountId(b, id)
  {
    if b == [] {
      assert a + b == a;
    } else {
      assert (a + b)[..|a + b| - 1] == a + b[..|b| - 1];
      CountIdConcat(a, b[..|b| - 1], id);
    }
  }

  /** Every request has one entry, or two when its function was executed. */
  lemma {:induction false} EntriesPerRequest(b: Bridge, calls: seq<Call>, id: nat)
    requires 1 <= id <= |calls|
    ensures CountId(LogOf(b, calls), id) == if Executes(b, calls[id - 1]) then 2 else 1
    decreases |calls|
  {
    var init, own := calls[..|calls| - 1], |calls|;
    SplitLast(b, calls, id);
    OwnEntries(b, own, calls[own - 1], id);
    if id < own {
      EntriesPerRequest(b, init, id);
      assert init[id - 1] == calls[id - 1];
    } else {
      NotYetLogged(b, init);
    }
  }

  lemma SplitLast(b: Bridge, calls: seq<Call>, id: nat)
    requires calls != []
    ensures var n := |calls| - 1;
            CountId(LogOf(b, calls), id) == CountId(LogOf(b, calls[..n]), id)
              + CountId(EntriesOf(b, n + 1, calls[n]), id)
  {
    var n := |calls| - 1;
    CountIdConcat(LogOf(b, calls[..n]), EntriesOf(b, n + 1, calls[n]), id);
  }

  lemma OwnEntries(b: Bridge, own: nat, call: Call, id: nat)
    ensures CountId(EntriesOf(b, own, call), id) == if id != own then 0 else if Executes(b, call) then 2 else 1
  {
    if id != own {
      NoSuchId(EntriesOf(b, own, call), id);
    } else {
      AllSameId(EntriesOf(b, own, call), id);
    }
  }

  lemma NotYetLogged(b: Bridge, calls: seq<Call>)
    ensures CountId(LogOf(b, calls), |calls| + 1) == 0
  {
    var log := LogOf(b, calls);
    forall i | 0 <= i < |log| ensures log[i].requestId != |calls| + 1 {
      AuditTrail(b, calls, i);
    }
    NoSuchId(log, |calls| + 1);
  }

  lemma {:induction false} NoSuchId(log: seq<Entry>, id: nat)
    requires forall i :: 0 <= i < |log| ==> log[i].requestId != id
    ensures CountId(log, id) == 0
  {
    if log != [] {
      NoSuchId(log[..|log| - 1], id);
    }
  }

  lemma {:induction false} AllSameId(log: seq<Entry>, id: nat)
    requires forall i :: 0 <= i < |log| ==> log[i].requestId == id
    ensures CountId(log, id) == |log|
  {
    if log != [] {
      AllSameId(log[..|log| - 1], id);
    }
  }

  // ---- the layer itself ----

  function Last(log: seq<Entry>): Entry
    requires log != []
  {
    log[|log| - 1]
  }

  /** The outcome handed to the caller; it is still changed after it was first logged. */
  class OverrideResult {
    const requestId: nat
    var approved: bool
    var executed: bool
    var denial: Denial

    constructor (requestId: nat, approved: bool, denial: Denial)
      ensures this.requestId == requestId && this.approved == approved && !executed && this.denial == denial
    {
      this.requestId, this.approved, executed, this.denial := requestId, approved, false, denial;
    }
  }

  class OverrideLog {
    var entries: seq<Entry>

    constructor ()
      ensures entries == []
    {
      entries := [];
    }

    /** Appends a snapshot; later changes of the result do not reach it. */
    method Record(call: Call, result: OverrideResult)
      modifies this
      ensures entries == old(entries) + [Entry(result.requestId, call, result.approved, result.executed, result.denial)]
    {
      entries := entries + [Entry(result.requestId, call, result.approved, result.executed, result.denial)];
    }

    /** The most recent `limit` entries; a limit of zero gives all of them. */
    method GetEntries(limit: nat) returns (recent: seq<Entry>)
      ensures limit > 0 ==> |recent| == Min(limit, |entries|)
      ensures limit == 0 ==> recent == entries
      ensures exists older :: older + recent == entries
    {
      if limit == 0 || limit >= |entries| {
        recent := entries;
        assert [] + recent == entries;
      } else {
        recent := entries[|entries| - limit..];
        assert entries[..|entries| - limit] + recent == entries;
      }
    }
  }

  class CommandOverrideLayer {
    const bridge: Bridge
    const log: OverrideLog
    var lastId: nat
    ghost var calls: seq<Call>

    ghost predicate Valid()
      reads this, log
    {
      log.entries == LogOf(bridge, calls) && lastId == |calls|
    }

    constructor (bridge: Bridge)
      ensures Valid() && fresh(log) && this.bridge == bridge && calls == []
    {
      this.bridge := bridge;
      log := new OverrideLog();
      lastId, calls := 0, [];
    }

    /** `ran` says whether the function to execute was called. */
    method RequestOverride(call: Call) returns (result: OverrideResult, ran: bool)
      requires Valid()
      modifies this, log
      ensures Valid() && calls == old(calls) + [call]
      ensures old(log.entries) <= log.entries
      ensures fresh(result) && result.requestId == lastId == |calls|
      ensures result.approved <==> Approved(bridge, call)
      ensures result.approved <==> Validate(bridge, call) == NoDenial && call.confirmed
      ensures ran <==> result.approved && call.execute.Some?
      ensures log.entries
           == old(log.entries)
              + [Entry(lastId, call, result.approved, false, if result.approved then NoDenial else result.denial)]
              + if ran then [Entry(lastId, call, true, call.execute == Some(Returns), result.denial)] else []
      ensures ran <==> Executes(bridge, call)
      ensures result.executed <==> ran && call.execute == Some(Returns)
      ensures result.denial == DenialOf(bridge, call)
      ensures log.entries != []
              && Last(log.entries) == Entry(result.requestId, call, result.approved, result.executed, result.denial)
    {
      LogOfNext(bridge, calls, call);
      lastId := lastId + 1;
      calls := calls + [call];
      ran := false;
      var objection := Validate(bridge, call);
      if objection != NoDenial {
        result := Conclude(call, false, objection);
      } else if !call.confirmed {
        result := Conclude(call, false, Declined);
      } else {
        result := Conclude(call, true, NoDenial);
        if call.execute.Some? {
          ran := true;
          Execute(call, result);
        }
      }
    }

    /** Makes the result of the current request and logs it. */
    method Conclude(call: Call, approved: bool, denial: Denial) returns (result: OverrideResult)
      modifies log
      ensures fresh(result) && result.requestId == lastId
      ensures result.approved == approved && !result.executed && result.denial == denial
      ensures log.entries == old(log.entries) + [Entry(lastId, call, approved, false, denial)]
    {
      result := new OverrideResult(lastId, approved, denial);
      log.Record(call, result);
    }

    /** Runs the function, notes in the result how that went, and logs it again. */
    method Execute(call: Call, result: OverrideResult)
      requires call.execute.Some? && !result.executed && result.denial == NoDenial
      modifies log, result
      ensures result.approved == old(result.approved)
      ensures result.executed == (call.execute == Some(Returns))
      ensures result.denial == if call.execute == Some(Returns) then NoDenial else ExecutionFailed
      ensures log.entries == old(log.entries)
                             + [Entry(result.requestId, call, result.approved, result.executed, result.denial)]
    {
      match call.execute.value {
        case Returns => result.executed := true;
        case Raises => result.denial := ExecutionFailed;
      }
      log.Record(call, result);
    }
  }
}
