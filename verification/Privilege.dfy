/** The privilege manager: virtual-root execution, and host escalation through the
    override layer into the permission model. */
module Privilege {
  import opened Common
  import opened GrantRuns
  import opened Permissions
  import opened Override

  const VIRTUAL_ROOT_CAPS: set<Capability> := {
    KernelConfigWrite, KernelConfigRead, KernelModeSwitch,
    ServiceStart, ServiceStop, ServiceRegister, ServiceQuery,
    LogRead, LogWrite, LogClear, JobSubmit, JobCancel,
    FsRead, FsWrite, FsList, FsChmod, StorageWrite, StoragePartition,
    ShellCommand, ShellEnvWrite, ModelLoad, ModelUnload, AuraQuery, AuraPulse,
    EventPublish, EventSubscribe, SysinfoRead, NetConnect, NetSend, NetRecv
  }

  const HOST_ESCALATION_ELIGIBLE: set<Capability> := {
    NetListen, NetRaw, FsMountBind, HalProject, HalTeardown, DeviceWrite, ProcKill
  }

  const PERMANENTLY_FORBIDDEN: set<Capability> := {
    HostKernelPatch, HostWipeDevice, HostRootExploit, HostBypassSecurity, HostIllegalAction,
    HostMemoryOverwrite
  }

  /** What virtual root may do needs no escalation, and nothing forbidden is in reach. */
  lemma VirtualRootIsSeparate(c: Capability)
    requires c in VIRTUAL_ROOT_CAPS
    ensures c !in HOST_ESCALATION_ELIGIBLE && c !in PERMANENTLY_FORBIDDEN
  {
  }

  datatype Tier = VirtualRoot | HostRoot

  datatype Refusal = NoRefusal | Forbidden | NotEligible | BridgeRefused | NoOverrideLayer
    | OverrideDenied(why: Denial) | ExecutionError

  /** One audit record. */
  datatype Audit = Audit(capability: Capability, tier: Tier, approved: bool, executed: bool, refusal: Refusal)

  const REASON_PREFIX: string := "[AURA host escalation] "

  /** The override request an escalation makes. */
  function EscalationCall(c: Capability, reason: string, confirmed: bool, mode: string): Call {
    Call(c, REASON_PREFIX + reason, "", "AURA", confirmed, None, mode)
  }

  /** The prefixed reason is never blank, so the user's own reason may be. */
  lemma PrefixedReasonNotBlank(reason: string)
    ensures !Blank(REASON_PREFIX + reason)
  {
    assert (REASON_PREFIX + reason)[0] == '[';
    assert !IsSpace('[');
  }

  /** Of the eligible capabilities only three can pass the override layer. */
  lemma EscalatableCapabilities(c: Capability)
    ensures c in HOST_ESCALATION_ELIGIBLE && c in OVERRIDEABLE_ACTIONS <==> c in {NetListen, NetRaw, FsMountBind}
  {
  }

  lemma EligibleIsKnown(c: Capability)
    requires c in HOST_ESCALATION_ELIGIBLE
    ensures Known(c) && c !in PERMANENTLY_FORBIDDEN
  {
  }

  /** An escalation request together with everything the world answers to it. */
  datatype Escalation = Escalation(capability: Capability, hostSupports: bool, confirmed: bool)

  /** When an escalation through an override layer with bridge `b` is approved. */
  predicate Escalates(b: Bridge, e: Escalation) {
    && e.capability in {NetListen, NetRaw, FsMountBind}
    && e.hostSupports && BridgeAllows(b, e.capability) && e.confirmed
  }

  lemma EscalatesThroughOverride(b: Bridge, e: Escalation, reason: string, mode: string)
    requires e.capability in HOST_ESCALATION_ELIGIBLE && e.hostSupports
    ensures Escalates(b, e) <==> Approved(b, EscalationCall(e.capability, reason, e.confirmed, mode))
  {
    PrefixedReasonNotBlank(reason);
    EscalatableCapabilities(e.capability);
    ApprovedMeans(b, EscalationCall(e.capability, reason, e.confirmed, mode));
  }

  /** The first obstacle before the override layer is asked, if any. */
  function EarlyObstacle(b: Option<Bridge>, c: Capability, hostSupports: bool): Refusal {
    if c in PERMANENTLY_FORBIDDEN then Forbidden
    else if c !in HOST_ESCALATION_ELIGIBLE then NotEligible
    else if !hostSupports then BridgeRefused
    else if b.None? then NoOverrideLayer
    else NoRefusal
  }

  /** The first obstacle to an escalation, in the order the parties are asked. */
  function Obstacle(b: Option<Bridge>, c: Capability, hostSupports: bool, call: Call): Refusal {
    var early := EarlyObstacle(b, c, hostSupports);
    if early != NoRefusal then early
    else if b.Some? && DenialOf(b.value, call) != NoDenial then OverrideDenied(DenialOf(b.value, call))
    else NoRefusal
  }

  /** Which obstacle is named: the first, in the order the parties are asked. */
  lemma ObstacleNames(b: Option<Bridge>, c: Capability, hostSupports: bool, call: Call)
    ensures var o := Obstacle(b, c, hostSupports, call);
            var denial := if b.Some? then DenialOf(b.value, call) else NoDenial;
            && (o == Forbidden <==> c in PERMANENTLY_FORBIDDEN)
            && (o == NotEligible <==> c !in PERMANENTLY_FORBIDDEN && c !in HOST_ESCALATION_ELIGIBLE)
            && (o == BridgeRefused <==>
                c !in PERMANENTLY_FORBIDDEN && c in HOST_ESCALATION_ELIGIBLE && !hostSupports)
            && (o == NoOverrideLayer <==>
                c !in PERMANENTLY_FORBIDDEN && c in HOST_ESCALATION_ELIGIBLE && hostSupports && b == None)
            && (o.OverrideDenied? <==>
                c !in PERMANENTLY_FORBIDDEN && c in HOST_ESCALATION_ELIGIBLE && hostSupports && denial != NoDenial)
            && (o.OverrideDenied? ==> o.why == denial)
            && o != ExecutionError
  {
  }

  /** There is no obstacle exactly when the escalation is approved. */
  lemma ObstacleMeans(b: Option<Bridge>, e: Escalation, reason: string, mode: string)
    ensures Obstacle(b, e.capability, e.hostSupports,
                     EscalationCall(e.capability, reason, e.confirmed, mode)) == NoRefusal
       <==> b.Some? && Escalates(b.value, e)
  {
    if e.capability in HOST_ESCALATION_ELIGIBLE {
      EligibleIsKnown(e.capability);
      if e.hostSupports && b.Some? {
        EscalatesThroughOverride(b.value, e, reason, mode);
      }
    }
  }

  /** Without an obstacle the capability is one that all the tables allow. */
  lemma UnobstructedIsKnown(b: Option<Bridge>, e: Escalation, reason: string, mode: string)
    requires NoRefusal
             == Obstacle(b, e.capability, e.hostSupports, EscalationCall(e.capability, reason, e.confirmed, mode))
    ensures var c := e.capability;
            Known(c) && c in HOST_ESCALATION_ELIGIBLE && c in OVERRIDEABLE_ACTIONS && c !in PERMANENTLY_FORBIDDEN
  {
    ObstacleMeans(b, e, reason, mode);
    EscalatableCapabilities(e.capability);
    EligibleIsKnown(e.capability);
  }

  lemma GrantedIsAllowed(s: Perms<Capability>, c: Capability)
    requires c in s.granted && c !in s.revoked
    ensures c in AllowedCapabilities(s)
  {
  }

  /** What an escalation adds to the override log: nothing if it never got there. */
  function Logged(id: nat, call: Call, obstacle: Refusal): seq<Entry> {
    match obstacle
    case NoRefusal => [Entry(id, call, true, false, NoDenial)]
    case OverrideDenied(why) => [Entry(id, call, false, false, why)]
    case _ => []
  }

  /** The capabilities of the approved escalations of a run, in order. */
  function ApprovedOf(b: Option<Bridge>, run: seq<Escalation>): seq<Capability> {
    if run == [] then []
    else
      var e := run[|run| - 1];
      ApprovedOf(b, run[..|run| - 1]) + (if b.Some? && Escalates(b.value, e) then [e.capability] else [])
  }

  lemma ApprovedOfNext(b: Option<Bridge>, run: seq<Escalation>, e: Escalation)
    ensures ApprovedOf(b, run + [e])
         == ApprovedOf(b, run) + (if b.Some? && Escalates(b.value, e) then [e.capability] else [])
  {
    assert (run + [e])[..|run|] == run;
  }

  datatype RootOutcome = Refused | Returned | Raised

  class AURAPrivilege {
    const api: PermissionModel?
    const col: CommandOverrideLayer?
    var escalations: seq<Capability>
    var audits: seq<Audit>
    ghost var run: seq<Escalation>

    ghost function LayerBridge(): Option<Bridge> {
      if col == null then None else Some(col.bridge)
    }

    /** The recorded escalations are exactly the approved requests so far. */
    ghost predicate Valid()
      reads this, col, if col == null then {} else {col.log}
    {
      (col != null ==> col.Valid()) && escalations == ApprovedOf(LayerBridge(), run)
    }

    constructor (api: PermissionModel?, col: CommandOverrideLayer?)
      requires col != null ==> col.Valid()
      ensures Valid() && this.api == api && this.col == col && run == [] && audits == []
    {
      this.api, this.col := api, col;
      escalations, audits, run := [], [], [];
    }

    method WriteAudit(c: Capability, tier: Tier, approved: bool, executed: bool, refusal: Refusal)
      modifies this`audits
      ensures audits == old(audits) + [Audit(c, tier, approved, executed, refusal)]
    {
      audits := audits + [Audit(c, tier, approved, executed, refusal)];
    }

    /** Runs `fn` (which raises or not) with virtual-root authority, audited before and
        after; a capability outside the set is refused without a trace. */
    method ExecuteAsVirtualRoot(c: Capability, raises: bool) returns (outcome: RootOutcome)
      modifies this`audits
      ensures outcome == if c !in VIRTUAL_ROOT_CAPS then Refused else if raises then Raised else Returned
      ensures outcome.Refused? ==> audits == old(audits)
      ensures !outcome.Refused? ==>
                audits == old(audits) + [Audit(c, VirtualRoot, true, false, NoRefusal),
                                         Audit(c, VirtualRoot, true, !raises,
                                           if raises then ExecutionError else NoRefusal)]
    {
      if c !in VIRTUAL_ROOT_CAPS {
        return Refused;
      }
      WriteAudit(c, VirtualRoot, true, false, NoRefusal);
      if raises {
        WriteAudit(c, VirtualRoot, true, false, ExecutionError);
        outcome := Raised;
      } else {
        WriteAudit(c, VirtualRoot, true, true, NoRefusal);
        outcome := Returned;
      }
    }

    /** Escalates exactly when every party agrees.  Approval leaves the capability
        allowed and an approved entry in the override log; refusal leaves the permission
        model as it was.  One audit record is written either way, naming the obstacle. */
    method RequestHostEscalation(c: Capability, reason: string, hostSupports: bool, confirmed: bool, mode: string)
      returns (approved: bool)
      requires Valid()
      modifies this, col, if col == null then {} else {col.log}, api
      ensures Valid()
      ensures run == old(run) + [Escalation(c, hostSupports, confirmed)]
      ensures approved <==> col != null && Escalates(col.bridge, Escalation(c, hostSupports, confirmed))
      ensures approved ==> c in HOST_ESCALATION_ELIGIBLE && c in OVERRIDEABLE_ACTIONS && c !in PERMANENTLY_FORBIDDEN
      ensures escalations == if approved then old(escalations) + [c] else old(escalations)
      ensures approved && api != null ==>
                api.State() == Step(TIER_3, old(api.State()), Grant(c)) && c in AllowedCapabilities(api.State())
      ensures approved && api != null ==>
                && api.granted == old(api.granted) + {c} && api.revoked == old(api.revoked) - {c}
                && api.mode == old(api.mode)
      ensures !approved && api != null ==> api.State() == old(api.State())
      ensures approved ==>
                && col.log.entries != []
                && Last(col.log.entries)
                   == Entry(col.lastId, Call(c, "[AURA host escalation] " + reason, "", "AURA", confirmed, None, mode),
                            true, false, NoDenial)
      ensures var call := EscalationCall(c, reason, confirmed, mode);
              var obstacle := Obstacle(LayerBridge(), c, hostSupports, call);
              && audits == old(audits) + [Audit(c, HostRoot, approved, approved, obstacle)]
              && (col != null ==> col.log.entries == old(col.log.entries) + Logged(col.lastId, call, obstacle))
    {
      ghost var e := Escalation(c, hostSupports, confirmed);
      ApprovedOfNext(LayerBridge(), run, e);
      ObstacleMeans(LayerBridge(), e, reason, mode);
      run := run + [e];
      var call := EscalationCall(c, reason, confirmed, mode);
      if Obstacle(LayerBridge(), c, hostSupports, call) == NoRefusal {
        UnobstructedIsKnown(LayerBridge(), e, reason, mode);
      }
      approved := Escalate(c, call, hostSupports);
    }

    /** The checks, the override layer and what follows, in terms of the first obstacle. */
    method Escalate(c: Capability, call: Call, hostSupports: bool) returns (approved: bool)
      requires (col != null ==> col.Valid()) && call.execute.None?
      modifies this`escalations, this`audits, col, if col == null then {} else {col.log}, api
      ensures col != null ==> col.Valid()
      ensures var obstacle := Obstacle(LayerBridge(), c, hostSupports, call);
              && (approved <==> obstacle == NoRefusal)
              && audits == old(audits) + [Audit(c, HostRoot, approved, approved, obstacle)]
              && (col != null ==> col.log.entries == old(col.log.entries) + Logged(col.lastId, call, obstacle))
      ensures escalations == if approved then old(escalations) + [c] else old(escalations)
      ensures approved && api != null && Known(c) ==>
                && api.granted == old(api.granted) + {c} && api.revoked == old(api.revoked) - {c}
                && api.mode == old(api.mode) && c in AllowedCapabilities(api.State())
      ensures api != null ==>
                api.State() == if approved then Step(TIER_3, old(api.State()), Grant(c)) else old(api.State())
    {
      var refused := RefuseEarly(c, hostSupports);
      if refused {
        return false;
      }
      approved := EscalateThroughLayer(c, call);
    }

    /** The first part: the checks before the override layer is asked. */
    method RefuseEarly(c: Capability, hostSupports: bool) returns (refused: bool)
      modifies this`audits
      ensures var early := EarlyObstacle(LayerBridge(), c, hostSupports);
              && (refused <==> early != NoRefusal)
              && audits == old(audits) + if refused then [Audit(c, HostRoot, false, false, early)] else []
      ensures !refused ==> col != null && c in HOST_ESCALATION_ELIGIBLE
    {
      if c in PERMANENTLY_FORBIDDEN {
        WriteAudit(c, HostRoot, false, false, Forbidden);
        return true;
      }
      if c !in HOST_ESCALATION_ELIGIBLE {
        WriteAudit(c, HostRoot, false, false, NotEligible);
        return true;
      }
      if !hostSupports {
        WriteAudit(c, HostRoot, false, false, BridgeRefused);
        return true;
      }
      if col == null {
        WriteAudit(c, HostRoot, false, false, NoOverrideLayer);
        return true;
      }
      refused := false;
    }

    /** The last part: ask the override layer, then grant and record, or only record. */
    method EscalateThroughLayer(c: Capability, call: Call) returns (approved: bool)
      requires col != null && col.Valid() && call.execute.None?
      modifies this`escalations, this`audits, col, col.log, api
      ensures col.Valid()
      ensures var denial := DenialOf(col.bridge, call);
              && (approved <==> denial == NoDenial)
              && col.log.entries == old(col.log.entries) + [Entry(col.lastId, call, approved, false, denial)]
              && audits == old(audits) + [Audit(c, HostRoot, approved, approved,
                                                if approved then NoRefusal else OverrideDenied(denial))]
      ensures escalations == if approved then old(escalations) + [c] else old(escalations)
      ensures approved && api != null && Known(c) ==>
                && api.granted == old(api.granted) + {c} && api.revoked == old(api.revoked) - {c}
                && api.mode == old(api.mode) && c in AllowedCapabilities(api.State())
      ensures api != null ==>
                api.State() == if approved then Step(TIER_3, old(api.State()), Grant(c)) else old(api.State())
    {
      var result, ran := col.RequestOverride(call);
      approved := result.approved;
      if approved {
        escalations := escalations + [c];
        if api != null {
          var granted := api.GrantCap(c);
          if granted {
            GrantedIsAllowed(api.State(), c);
          }
        }
        WriteAudit(c, HostRoot, true, true, NoRefusal);
      } else {
        WriteAudit(c, HostRoot, false, false, OverrideDenied(result.denial));
      }
    }
  }
}
