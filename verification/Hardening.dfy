/**
 What a native run has been through when it reaches exec.  The configuration is
 validated, guards may still turn the run into a gVisor one, and then the child
 sets itself up layer by layer; the kernel decides which calls work.
 */
module Hardening {
  import opened Common

  datatype Mode = Agent | StrictAgent | Production

  /** The configuration, as far as validation and hardening look at it. */
  datatype Config = Config(
    mode: Mode, gvisor: bool, untrusted: bool,
    allowDegraded: bool, allowChroot: bool, network: Network, allowHostNetwork: bool, egress: bool,
    seccompTrace: bool, seccompProfile: bool, extraSyscallsSafe: bool, cgroupControl: bool,
    gpu: bool, writableExecWorkspace: bool, rootfs: bool, overlay: bool, policiesPinned: bool,
    memoryLimit: bool, cpuLimit: bool, attestation: bool, rootfsPathValid: bool)

  // ---------- validation ----------

  predicate FailClosed(c: Config) {
    && !c.allowDegraded && !c.allowChroot && !c.network.HostNetwork?
    && (c.network.GVisorHost? ==> c.gvisor && c.allowHostNetwork && !c.egress)
    && (!c.network.GVisorHost? ==> !c.allowHostNetwork)
    && !c.seccompTrace && c.extraSyscallsSafe
  }

  predicate ValidStrictAgent(c: Config) {
    c.mode.StrictAgent? ==> FailClosed(c) && c.cgroupControl
  }

  predicate ValidProduction(c: Config) {
    c.mode.Production? ==>
      && FailClosed(c) && !c.gpu && !c.writableExecWorkspace && c.rootfs && !c.overlay && c.policiesPinned
      && c.memoryLimit && c.cpuLimit && c.attestation && c.rootfsPathValid
  }

  predicate NetworkAllowed(c: Config) {
    match c.network
    case HostNetwork => !c.gvisor && c.allowHostNetwork
    case GVisorHost => c.gvisor && c.allowHostNetwork
    case _ => true
  }

  /** Untrusted workloads are moved to gVisor where it is installed, and need the degraded opt-in where not. */
  function GuardTrust(c: Config, gvisorInstalled: bool): Option<Config> {
    if !c.untrusted then Some(c)
    else if c.network.HostNetwork? || (c.network.GVisorHost? && !(c.gvisor && c.allowHostNetwork)) then None
    else if c.gvisor then Some(c)
    else if gvisorInstalled then Some(c.(gvisor := true))
    else if c.allowDegraded then Some(c)
    else None
  }

  function Admit(c: Config, gvisorInstalled: bool): Option<Config> {
    if ValidStrictAgent(c) && ValidProduction(c) && NetworkAllowed(c) then GuardTrust(c, gvisorInstalled) else None
  }

  // ---------- the two state machines ----------

  datatype FilesystemState = Unmounted | Mounted | Populated | Pivoted | UnmountedFinal

  predicate FilesystemMayGo(from: FilesystemState, to: FilesystemState) {
    || from == to
    || (from.Unmounted? && to.Mounted?) || (from.Mounted? && to.Populated?) || (from.Populated? && to.Pivoted?)
    || (from.Mounted? && to.Unmounted?) || (from.Populated? && to.Unmounted?) || (from.Pivoted? && to.UnmountedFinal?)
  }

  datatype SecurityState = Privileged | CapabilitiesDropped | SeccompApplied | LandlockApplied | Locked

  predicate SecurityMayGo(from: SecurityState, to: SecurityState) {
    || from == to
    || (from.Privileged? && to.CapabilitiesDropped?) || (from.CapabilitiesDropped? && to.SeccompApplied?)
    || (from.SeccompApplied? && to.LandlockApplied?) || (from.LandlockApplied? && to.Locked?)
  }

  /** The transition checks of the source; to call these is to prove that they never fail. */
  function FilesystemGo(from: FilesystemState, to: FilesystemState): FilesystemState
    requires FilesystemMayGo(from, to)
  {
    to
  }

  function SecurityGo(from: SecurityState, to: SecurityState): SecurityState
    requires SecurityMayGo(from, to)
  {
    to
  }

  // ---------- the setup ----------

  datatype LandlockStatus = Full | Partial | Absent | Broken

  /** What the kernel and the files on disk make of each call; `landlockPolicy` covers errors that are always fatal. */
  datatype Kernel = Kernel(
    mounts: bool, population: bool, runtimeMounts: bool, pivotRoot: bool, chroot: bool, mountAudit: bool, capabilities: bool,
    rlimits: bool, namespaceCapsGone: bool, seccomp: bool, landlockPolicy: bool, landlock: LandlockStatus, start: bool)

  /** What is really in force, in the order it was put in force. */
  datatype Layer = PivotRoot | Chroot | DroppedCapabilities | SeccompFilter | SeccompTraceOnly | LandlockFull | LandlockPartial

  datatype Exec = Exec(filesystem: FilesystemState, security: SecurityState, layers: seq<Layer>)

  /** Applying a layer works, is skipped, or fails the setup. */
  datatype Applied = Done | Skipped | Failed

  function ApplySeccomp(c: Config, k: Kernel): Applied {
    if k.seccomp then Done
    else if c.seccompTrace || c.seccompProfile || !c.allowDegraded then Failed
    else Skipped
  }

  function ApplyLandlock(c: Config, k: Kernel): Applied {
    if !k.landlockPolicy then Failed
    else if k.landlock.Full? || (k.landlock.Partial? && c.allowDegraded) then Done
    else if c.allowDegraded then Skipped
    else Failed
  }

  /** What the kernel's answers put in force: every layer that works is applied, opt-in or not. */
  function Enforced(c: Config, k: Kernel): seq<Layer> {
    [if k.pivotRoot then PivotRoot else Chroot, DroppedCapabilities]
    + (if !k.seccomp then [] else if c.seccompTrace then [SeccompTraceOnly] else [SeccompFilter])
    + (match k.landlock
       case Full => [LandlockFull]
       case Partial => [LandlockPartial]
       case Absent => []
       case Broken => [])
  }

  /** And how far they let the security state come. */
  function Reached(c: Config, k: Kernel): SecurityState {
    if !k.seccomp then CapabilitiesDropped
    else if k.landlock.Absent? || k.landlock.Broken? then SeccompApplied
    else if c.seccompTrace then LandlockApplied
    else Locked
  }

  /** The child of a native run, from its first mount to exec; None if it gives up. */
  method SetupAndExec(c: Config, k: Kernel) returns (r: Option<Exec>)
    requires !c.gvisor
    ensures r.Some? <==>
              && k.mounts && k.population && k.runtimeMounts && (k.pivotRoot || (c.allowChroot && k.chroot)) && k.mountAudit
              && k.capabilities && (c.mode.Production? ==> k.rlimits && k.namespaceCapsGone)
              && (k.seccomp || (c.allowDegraded && !c.seccompTrace && !c.seccompProfile))
              && k.landlockPolicy && (k.landlock.Full? || c.allowDegraded)
              && k.start
    ensures r.Some? ==> r.value.filesystem.Pivoted? && r.value.layers == Enforced(c, k) && r.value.security == Reached(c, k)
    ensures r.Some? ==> IsHardened(c, r.value)
  {
    var filesystem, security, layers := Unmounted, Privileged, [];
    if !k.mounts {
      return None;
    }
    filesystem := FilesystemGo(filesystem, Mounted);
    if !k.population {
      return None;
    }
    filesystem := FilesystemGo(filesystem, Populated);
    if !k.runtimeMounts {
      return None;
    }
    if k.pivotRoot {
      layers := layers + [PivotRoot];
    } else if c.allowChroot && k.chroot {
      layers := layers + [Chroot];
    } else {
      return None;
    }
    filesystem := FilesystemGo(filesystem, Pivoted);
    if !k.mountAudit || !k.capabilities {
      return None;
    }
    layers := layers + [DroppedCapabilities];
    security := SecurityGo(security, CapabilitiesDropped);
    if c.mode.Production? && !(k.rlimits && k.namespaceCapsGone) {
      return None;
    }
    var seccomp := ApplySeccomp(c, k);
    if seccomp.Failed? {
      return None;
    }
    if seccomp.Done? {
      layers := layers + [if c.seccompTrace then SeccompTraceOnly else SeccompFilter];
      security := SecurityGo(security, SeccompApplied);
    }
    var landlock := ApplyLandlock(c, k);
    if landlock.Failed? {
      return None;
    }
    if landlock.Done? {
      layers := layers + [if k.landlock.Full? then LandlockFull else LandlockPartial];
    }
    if seccomp.Done? && landlock.Done? {
      security := SecurityGo(security, LandlockApplied);
      if !c.seccompTrace {
        security := SecurityGo(security, Locked);
      }
    }
    if !k.start {
      return None;
    }
    assert layers == Enforced(c, k);
    EnforcedIsHardened(c, k);
    r := Some(Exec(filesystem, security, layers));
  }

  predicate BothFilters(filters: seq<Layer>) {
    |filters| == 2 && filters[0] == SeccompFilter && (filters[1] == LandlockFull || filters[1] == LandlockPartial)
  }

  /** What the state at exec says about the layers in force. */
  predicate IsHardened(c: Config, e: Exec) {
    && e.filesystem.Pivoted?
    && |e.layers| >= 2
    && (e.layers[0] == PivotRoot || (e.layers[0] == Chroot && c.allowChroot))
    && e.layers[1] == DroppedCapabilities
    && (e.security.Locked? <==> BothFilters(e.layers[2..]))
    && (!c.allowDegraded ==> e.layers[2..] == [if c.seccompTrace then SeccompTraceOnly else SeccompFilter, LandlockFull])
    && (!c.allowDegraded ==> e.security == if c.seccompTrace then LandlockApplied else Locked)
  }

  lemma EnforcedIsHardened(c: Config, k: Kernel)
    requires k.pivotRoot || c.allowChroot
    requires k.seccomp || c.allowDegraded
    requires k.landlock.Full? || c.allowDegraded
    ensures IsHardened(c, Exec(Pivoted, Reached(c, k), Enforced(c, k)))
  {
    var e := Enforced(c, k);
    var seccomp := if !k.seccomp then [] else if c.seccompTrace then [SeccompTraceOnly] else [SeccompFilter];
    assert e[2..] == seccomp + e[2 + |seccomp|..];
  }

  // ---------- what an admitted configuration gets ----------

  /** Admission changes nothing but the runtime, and lets no strict configuration with a loophole through. */
  lemma AdmissionKeepsSafeguards(c: Config, gvisorInstalled: bool)
    requires Admit(c, gvisorInstalled).Some? && !Admit(c, gvisorInstalled).value.gvisor
    ensures Admit(c, gvisorInstalled).value == c
    ensures c.mode.Agent? || (!c.allowDegraded && !c.allowChroot && !c.seccompTrace)
    ensures c.untrusted ==> c.allowDegraded && !gvisorInstalled
  {
  }

  /** What a strict mode refuses, one by one. */
  predicate StrictLoophole(c: Config) {
    || c.allowDegraded || c.allowChroot || c.seccompTrace || !c.extraSyscallsSafe
    || c.network.HostNetwork? || (c.network.GVisorHost? && (!c.gvisor || c.egress))
  }

  predicate ProductionLoophole(c: Config) {
    || c.gpu || c.writableExecWorkspace || !c.rootfs || c.overlay || !c.policiesPinned
    || !c.memoryLimit || !c.cpuLimit || !c.attestation || !c.rootfsPathValid
  }

  /** Validation refuses a configuration for these reasons only. */
  lemma ValidExactly(c: Config)
    ensures ValidStrictAgent(c) && ValidProduction(c) <==>
              && (!c.mode.Agent? ==> !StrictLoophole(c) && (c.network.GVisorHost? <==> c.allowHostNetwork))
              && (c.mode.StrictAgent? ==> c.cgroupControl)
              && (c.mode.Production? ==> !ProductionLoophole(c))
  {
    match c.mode {
      case Agent =>
      case StrictAgent =>
      case Production =>
    }
  }

  /** The guards refuse one for these. */
  predicate Guarded(c: Config, gvisorInstalled: bool) {
    || (c.network.HostNetwork? && (c.gvisor || !c.allowHostNetwork || c.untrusted))
    || (c.network.GVisorHost? && (!c.gvisor || !c.allowHostNetwork))
    || (c.untrusted && !c.gvisor && !gvisorInstalled && !c.allowDegraded)
  }

  lemma GuardsExactly(c: Config, gvisorInstalled: bool)
    ensures NetworkAllowed(c) && GuardTrust(c, gvisorInstalled).Some? <==> !Guarded(c, gvisorInstalled)
  {
    match c.network {
      case HostNetwork =>
      case GVisorHost =>
      case _ =>
    }
  }

  /** A configuration is admitted unless one of these stands against it. */
  lemma AdmittedExactly(c: Config, gvisorInstalled: bool)
    ensures Admit(c, gvisorInstalled).Some? <==>
              && (!c.mode.Agent? ==> !StrictLoophole(c) && (c.network.GVisorHost? <==> c.allowHostNetwork))
              && (c.mode.StrictAgent? ==> c.cgroupControl)
              && (c.mode.Production? ==> !ProductionLoophole(c))
              && !Guarded(c, gvisorInstalled)
  {
    ValidExactly(c);
    GuardsExactly(c, gvisorInstalled);
  }

  /** Admission changes the runtime of an untrusted workload where gVisor is installed, and nothing else. */
  lemma AdmissionChanges(c: Config, gvisorInstalled: bool)
    requires Admit(c, gvisorInstalled).Some?
    ensures Admit(c, gvisorInstalled).value == if c.untrusted && !c.gvisor && gvisorInstalled then c.(gvisor := true) else c
  {
  }

  /** In strict-agent and production mode: root pivoted, capabilities before seccomp, seccomp before Landlock, locked. */
  predicate StrictExec(e: Exec) {
    e == Exec(Pivoted, Locked, [PivotRoot, DroppedCapabilities, SeccompFilter, LandlockFull])
  }

  /** In agent mode without the degraded opt-in: both filters, and locked unless seccomp only traces. */
  predicate AgentExec(trace: bool, e: Exec) {
    && e.filesystem.Pivoted?
    && |e.layers| == 4
    && e.layers[1..] == [DroppedCapabilities, if trace then SeccompTraceOnly else SeccompFilter, LandlockFull]
    && e.security == if trace then LandlockApplied else Locked
  }

  lemma HardenedMeans(c: Config, e: Exec)
    requires IsHardened(c, e) && !c.allowDegraded
    ensures AgentExec(c.seccompTrace, e)
    ensures !c.allowChroot && !c.seccompTrace ==> StrictExec(e)
  {
    assert e.layers == [e.layers[0], e.layers[1]] + e.layers[2..];
    assert !c.allowChroot ==> e.layers[0] == PivotRoot;
  }

  /** Whatever the kernel does, a native run that reaches exec is hardened as its mode promises. */
  method RunNative(c: Config, gvisorInstalled: bool, k: Kernel) returns (r: Option<Exec>)
    ensures r.Some? && !c.mode.Agent? ==> StrictExec(r.value)
    ensures r.Some? && !c.allowDegraded ==> AgentExec(c.seccompTrace, r.value)
    ensures r.Some? && c.untrusted ==> c.allowDegraded && !gvisorInstalled
  {
    var admitted := Admit(c, gvisorInstalled);
    if admitted.None? || admitted.value.gvisor {
      return None;
    }
    AdmissionKeepsSafeguards(c, gvisorInstalled);
    r := SetupAndExec(admitted.value, k);
    if r.Some? && !c.allowDegraded {
      HardenedMeans(c, r.value);
    }
  }
}
