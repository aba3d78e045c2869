/** Tiered capabilities, and the permission model that grants and revokes them. */
module Permissions {
  import opened Common
  import opened GrantRuns

  /** The capability names that some table of the system mentions; any other name is
      `Other`. */
  datatype Capability =
    | AuraQuery | AuraPulse | FsRead | EventPublish | EventSubscribe | ShellCommand | SysinfoRead
    | FsWrite | FsList | NetConnect | NetSend | NetRecv | ProcSpawn | ProcKill | ServiceQuery
    | LogRead | JobSubmit | PkgInstall | PkgList
    | FsChmod | FsMountBind | NetListen | NetRaw | SysInfo | ServiceStart | ServiceStop
    | ServiceRegister | KernelConfigWrite | StorageWrite | StoragePartition | LogWrite
    | JobCancel | ModelLoad | ModelUnload
    | HalProject | HalTeardown | KernelModeSwitch | KernelPatch | DeviceWrite | DeviceProject
    | HardwareBind | HardwareUnbind
    | KernelConfigRead | LogClear | ShellEnvWrite
    | HostKernelPatch | HostWipeDevice | HostRootExploit | HostBypassSecurity
    | HostIllegalAction | HostMemoryOverwrite
    | Other(name: string)

  const TIER_0: set<Capability> := {
    AuraQuery, AuraPulse, FsRead, EventPublish, EventSubscribe, ShellCommand, SysinfoRead
  }
  const TIER_1: set<Capability> := TIER_0 + {
    FsWrite, FsList, NetConnect, NetSend, NetRecv, ProcSpawn, ProcKill, ServiceQuery,
    LogRead, JobSubmit, PkgInstall, PkgList
  }
  const TIER_2: set<Capability> := TIER_1 + {
    FsChmod, FsMountBind, NetListen, NetRaw, SysInfo, ServiceStart, ServiceStop,
    ServiceRegister, KernelConfigWrite, StorageWrite, StoragePartition, LogWrite,
    JobCancel, ModelLoad, ModelUnload
  }
  const TIER_3: set<Capability> := TIER_2 + {
    HalProject, HalTeardown, KernelModeSwitch, KernelPatch, DeviceWrite, DeviceProject,
    HardwareBind, HardwareUnbind
  }

  function ModeSet(m: Mode): set<Capability> {
    match m
    case Universal => TIER_1
    case Internal => TIER_2
    case Hardware => TIER_3
  }

  /** `_CAPABILITY_TIER`: the lowest tier that lists the capability. */
  function CapabilityTier(c: Capability): Option<nat> {
    if c in TIER_0 then Some(0)
    else if c in TIER_1 then Some(1)
    else if c in TIER_2 then Some(2)
    else if c in TIER_3 then Some(3)
    else None
  }

  /** The capabilities that have a tier are those of the top one. */
  predicate Known(c: Capability) {
    c in TIER_3
  }

  lemma KnownIsTiered(c: Capability)
    ensures Known(c) <==> CapabilityTier(c).Some?
  {
  }

  /** A mode's set holds exactly the capabilities of its tier and the tiers below. */
  lemma ModeSetByTier(m: Mode, c: Capability)
    ensures c in ModeSet(m) <==> CapabilityTier(c).Some? && CapabilityTier(c).value <= ModeTier(m)
  {
  }

  /** Universal, internal and hardware mode allow the first, second and third tier. */
  lemma ModeSets()
    ensures ModeSet(Universal) == TIER_1 && ModeSet(Internal) == TIER_2 && ModeSet(Hardware) == TIER_3
    ensures ModeTier(Universal) < ModeTier(Internal) < ModeTier(Hardware)
  {
  }

  function AllowedCapabilities(s: Perms<Capability>): set<Capability> {
    (ModeSet(s.mode) + s.granted) - s.revoked
  }

  /** A capability is allowed after a run exactly when no revocation of it stands and it
      is in the mode's tier or a grant of it stands. */
  lemma AllowedByTrace(mode: Mode, ops: seq<Op<Capability>>, c: Capability)
    ensures c in AllowedCapabilities(Run(TIER_3, mode, ops))
       <==> !RevokeStands(TIER_3, ops, c)
            && (c in ModeSet(ModeBefore(mode, ops, |ops|)) || GrantStands(TIER_3, mode, ops, c))
  {
    RunIsTrace(TIER_3, mode, ops, c);
  }

  /** The verdict of a check; a denial names the mode that would be needed, if any. */
  datatype Verdict = Allowed | Denied(required: Option<Mode>)

  class PermissionModel {
    var mode: Mode
    var granted: set<Capability>
    var revoked: set<Capability>

    ghost function State(): Perms<Capability>
      reads this
    {
      Perms(mode, granted, revoked)
    }

    constructor (mode: Mode := Universal)
      ensures State() == Run(TIER_3, mode, [])
    {
      this.mode, granted, revoked := mode, {}, {};
    }

    /** Raises, and changes nothing, for a name that is not a mode. */
    method SwitchMode(newMode: Option<Mode>) returns (ok: bool)
      modifies this
      ensures ok <==> newMode.Some?
      ensures State() == Step(TIER_3, old(State()), SetMode(newMode))
      ensures mode == (if newMode.Some? then newMode.value else old(mode)) && revoked == old(revoked)
      ensures granted == if (old(mode) == Hardware && mode != Hardware) || (old(mode) == Internal && mode == Universal)
                         then {} else old(granted)
    {
      if newMode.None? {
        return false;
      }
      var was := mode;
      mode := newMode.value;
      if ModeTier(mode) < ModeTier(was) {
        granted := {};
      }
      ok := true;
    }

    /** Raises, and changes nothing, for an unknown capability. */
    method GrantCap(c: Capability) returns (ok: bool)
      modifies this
      ensures ok <==> Known(c)
      ensures State() == Step(TIER_3, old(State()), Grant(c))
      ensures mode == old(mode)
      ensures granted == if c in TIER_3 then old(granted) + {c} else old(granted)
      ensures revoked == if c in TIER_3 then old(revoked) - {c} else old(revoked)
    {
      KnownIsTiered(c);
      if CapabilityTier(c).None? {
        return false;
      }
      revoked := revoked - {c};
      granted := granted + {c};
      ok := true;
    }

    method RevokeCap(c: Capability)
      modifies this
      ensures State() == Step(TIER_3, old(State()), Revoke(c))
      ensures mode == old(mode) && granted == old(granted) - {c} && revoked == old(revoked) + {c}
    {
      granted := granted - {c};
      revoked := revoked + {c};
    }

    method ResetGrants()
      modifies this
      ensures State() == Step(TIER_3, old(State()), Reset)
      ensures mode == old(mode) && granted == {} && revoked == {}
    {
      granted, revoked := {}, {};
    }

    /** Allowed exactly on the allowed set.  A tier denial names the least mode whose
        tier holds the capability; a revoked or unknown one names none. */
    method Check(c: Capability) returns (v: Verdict)
      ensures v.Allowed? <==> c in AllowedCapabilities(State())
      ensures v.Allowed? <==> c !in revoked && (c in granted || c in ModeSet(mode))
      ensures v.Denied? ==> (v.required.None? <==> c in revoked || !Known(c))
      ensures v.Denied? && v.required.Some? ==>
                && c in ModeSet(v.required.value)
                && forall m :: c in ModeSet(m) ==> ModeTier(v.required.value) <= ModeTier(m)
    {
      if c in revoked {
        return Denied(None);
      }
      if c in ModeSet(mode) || c in granted {
        return Allowed;
      }
      KnownIsTiered(c);
      var needed := CapabilityTier(c);
      if needed.None? {
        return Denied(None);
      }
      TierAtMostThree(c);
      var required := RequiredMode(needed.value);
      v := Denied(Some(required));
      forall m ensures c in ModeSet(m) <==> needed.value <= ModeTier(m) {
        ModeSetByTier(m, c);
      }
    }
  }

  /** The first mode, in the order they are listed, whose tier is high enough. */
  method RequiredMode(tier: nat) returns (required: Mode)
    requires tier <= 3
    ensures tier <= ModeTier(required)
    ensures forall m :: tier <= ModeTier(m) ==> ModeTier(required) <= ModeTier(m)
  {
    var modes := [Universal, Internal, Hardware];
    var i := 0;
    while ModeTier(modes[i]) < tier
      invariant 0 <= i < |modes|
      invariant forall k :: 0 <= k < i ==> ModeTier(modes[k]) < tier
      decreases |modes| - i
    {
      i := i + 1;
    }
    required := modes[i];
    assert forall k :: 0 <= k < |modes| ==> ModeTier(modes[k]) == k + 1;
    assert forall m :: modes[ModeTier(m) - 1] == m;
  }

  lemma TierAtMostThree(c: Capability)
    ensures CapabilityTier(c).Some? ==> CapabilityTier(c).value <= 3
  {
  }
}
