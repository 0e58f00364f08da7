/**
 The create-phase handshake.  The runtime forks a child, which may fork again
 to become PID 1 of a new PID namespace, and in production mode that process
 supervises a workload of its own.  They synchronise over four pipes and, for a
 deferred start, a FIFO.  Every system call is one step; which calls fail is up
 to the environment, and so is the interleaving.
 */
module Handshake {
  import opened Common
  import Runs

  /** The resolved configuration, as far as it shapes the protocol. */
  datatype Config = Config(
    gvisor: bool, hostRoot: bool, userNs: bool, pidNs: bool, network: Network,
    deferred: bool, cgroup: bool, strict: bool, egress: bool, production: bool)

  // ---------- who asks for id maps, and who waits to be asked ----------

  predicate PrecreatesUserNs(c: Config) {
    c.gvisor && !c.hostRoot && c.userNs && (c.network.Bridge? || c.network.GVisorHost?)
  }

  /** The parent waits for a mapping request. */
  predicate ParentMaps(c: Config) {
    c.userNs && (!c.gvisor || PrecreatesUserNs(c))
  }

  /** The child sends one. */
  predicate ChildRequests(c: Config) {
    if c.gvisor then PrecreatesUserNs(c) && c.userNs && !c.hostRoot else c.userNs
  }

  // ---------- processes and pipes ----------

  datatype Proc = Parent | Child | Init | Workload

  /** The pipe ends a process holds, each until it closes it, execs or dies. */
  datatype Ends = Ends(
    requestRead: bool, requestWrite: bool, ackRead: bool, ackWrite: bool,
    readyRead: bool, readyWrite: bool, setupRead: bool, setupWrite: bool)

  const CLOSED := Ends(false, false, false, false, false, false, false, false)

  datatype Holders = Holders(parent: Ends, child: Ends, init: Ends)
  {
    predicate RequestHasReader() { parent.requestRead || child.requestRead || init.requestRead }
    predicate RequestHasWriter() { parent.requestWrite || child.requestWrite || init.requestWrite }
    predicate AckHasReader() { parent.ackRead || child.ackRead || init.ackRead }
    predicate AckHasWriter() { parent.ackWrite || child.ackWrite || init.ackWrite }
    predicate ReadyHasReader() { parent.readyRead || child.readyRead || init.readyRead }
    predicate ReadyHasWriter() { parent.readyWrite || child.readyWrite || init.readyWrite }
    predicate SetupHasReader() { parent.setupRead || child.setupRead || init.setupRead }
    predicate SetupHasWriter() { parent.setupWrite || child.setupWrite || init.setupWrite }
  }

  /** Unread messages of each pipe. */
  datatype Unread = Unread(request: nat, ack: nat, ready: nat, setup: nat)

  /** The processes the container's cgroup holds. */
  datatype Cgroup = Cgroup(child: bool, init: bool, work: bool)
  {
    predicate Holds(p: Proc) {
      match p
      case Parent => false
      case Child => child
      case Init => init
      case Workload => work
    }

    function Attach(p: Proc): Cgroup {
      match p
      case Parent => this
      case Child => this.(child := true)
      case Init => this.(init := true)
      case Workload => this.(work := true)
    }
  }

  datatype ParentPc =
    | PDrop | PWaitRequest | PWriteMaps | PSendAck | PWaitReady | PPrepare | PSaveState | PPidFile | PAttach
    | PDenyLogger | PNetwork | PEgress | PBroker | PRelease | PReturn | PCreated
    | PKillTarget | PKillChild | PReap | PClose | PFailed

  datatype ChildPc =
    | CDrop | CStart | CRequest | CWaitAck | CBecomeRoot | CNetNs | CFork | CNotify
    | CWaitRelease | CSetup | CFifo | CExec | CWaitInit | CExeced | CExited

  datatype InitPc = IUnborn | IWaitRelease | ISetup | IFifo | IExec | ISupervise | IExeced | IExited

  datatype WorkPc = WUnborn | WExec | WExeced | WExited

  datatype Outcome = Pending | Done | Tolerated

  /** Where each process is. */
  datatype Control = Control(parent: ParentPc, child: ChildPc, init: InitPc, work: WorkPc, fifoReader: bool)

  /** What the parent has set up so far, in the order it does. */
  datatype Setup = Setup(
    mapsWritten: bool, target: Option<Proc>, prepared: bool, stateSaved: bool, pidFile: bool, members: Cgroup,
    watched: bool, network: Outcome, egress: Outcome, probed: bool)

  /** What the child, and after the fork PID 1, has done for itself. */
  datatype Own = Own(unshared: bool, root: bool, net: bool, setUp: bool)

  /** What has happened so far. */
  datatype Log = Log(
    setup: Setup,
    own: Own,
    readyPid: Option<Proc>,  // payload of the ready pipe
    released: bool,
    executor: Option<Proc>)  // who has exec'd the workload or runsc

  datatype State = State(at: Control, held: Holders, unread: Unread, log: Log)
  {
    function ParentAt(pc: ParentPc): State { this.(at := at.(parent := pc)) }
    function ChildAt(pc: ChildPc): State { this.(at := at.(child := pc)) }
    function InitAt(pc: InitPc): State { this.(at := at.(init := pc)) }
    function WorkAt(pc: WorkPc): State { this.(at := at.(work := pc)) }
    function Having(setup: Setup): State { this.(log := log.(setup := setup)) }
    function Doing(own: Own): State { this.(log := log.(own := own)) }
  }

  datatype Step = ParentStep(ok: bool) | ChildStep(ok: bool) | InitStep(ok: bool) | WorkStep(ok: bool) | OpenFifo

  /** read(2) of one message: data, end of file, or block. */
  datatype ReadResult = Data(rest: nat) | Eof | Block

  function Read(unread: nat, hasWriter: bool): ReadResult {
    if unread > 0 then Data(unread - 1) else if hasWriter then Block else Eof
  }

  /** The process that will exec the workload or become its supervisor. */
  function Target(c: Config): Proc {
    if !c.gvisor && c.pidNs then Init else Child
  }

  function Start(c: Config): State {
    var maps := ParentMaps(c);
    var all := Ends(maps, maps, maps, maps, true, true, true, true);
    State(Control(PDrop, CDrop, IUnborn, WUnborn, false),
          Holders(all, all, CLOSED), Unread(0, 0, 0, 0),
          Log(Setup(false, None, false, false, false, Cgroup(false, false, false), false, Pending, Pending, false),
              Own(false, false, false, false), None, false, None))
  }

  // ---------- the parent ----------

  /** Every error of the parent's setup leads here. */
  function Fail(s: State): State {
    s.ParentAt(PKillTarget)
  }

  function KillChild(s: State): State {
    s.ChildAt(CExited).(held := s.held.(child := CLOSED))
  }

  /** The end of a PID namespace's init ends every process in it. */
  function KillInit(s: State): State {
    if s.at.init.IUnborn? then s
    else s.InitAt(IExited).WorkAt(if s.at.work.WUnborn? then WUnborn else WExited).(held := s.held.(init := CLOSED))
  }

  function KillTarget(s: State): State {
    match s.log.setup.target
    case Some(Child) => KillChild(s)
    case Some(Init) => KillInit(s)
    case _ => s
  }

  function ParentKeeps(e: Ends): Ends {
    e.(requestWrite := false, ackRead := false, readyWrite := false, setupRead := false)
  }

  function Succeed(ok: bool, s: State): Option<State> {
    if ok then Some(s) else None
  }

  /** Setup up to the acknowledged id maps. */
  function ParentAnswers(c: Config, s: State, ok: bool): Option<State> {
    match s.at.parent
    case PDrop =>
      Succeed(ok, s.ParentAt(if ParentMaps(c) then PWaitRequest else PWaitReady).(held := s.held.(parent := ParentKeeps(s.held.parent))))
    case PWaitRequest =>
      (match Read(s.unread.request, s.held.RequestHasWriter())
       case Data(rest) => Succeed(ok, s.ParentAt(PWriteMaps).(unread := s.unread.(request := rest)))
       case Eof => Succeed(ok, Fail(s))
       case Block => None)
    case PWriteMaps => Some(if ok then s.ParentAt(PSendAck).Having(s.log.setup.(mapsWritten := true)) else Fail(s))
    case PSendAck =>
      Succeed(ok, if !s.held.AckHasReader() then Fail(s)
                  else s.ParentAt(PWaitReady).(unread := s.unread.(ack := s.unread.ack + 1)))
    case _ => None
  }

  /** The target process reports. */
  function ParentMeets(s: State, ok: bool): Option<State> {
    match s.at.parent
    case PWaitReady =>
      (match Read(s.unread.ready, s.held.ReadyHasWriter())
       case Data(rest) =>
         Succeed(ok, s.ParentAt(PPrepare).Having(s.log.setup.(target := s.log.readyPid)).(unread := s.unread.(ready := rest)))
       case Eof => Succeed(ok, Fail(s))
       case Block => None)
    case _ => None
  }

  /** Setup from there to a recorded and attached target. */
  function ParentRecords(c: Config, s: State, ok: bool): Option<State> {
    match s.at.parent
    case PPrepare => Some(if ok then s.ParentAt(PSaveState).Having(s.log.setup.(prepared := true)) else Fail(s))
    case PSaveState => Some(if ok then s.ParentAt(PPidFile).Having(s.log.setup.(stateSaved := true)) else Fail(s))
    case PPidFile => Some(if ok then s.ParentAt(PAttach).Having(s.log.setup.(pidFile := true)) else Fail(s))
    case PAttach =>
      if !c.cgroup then Succeed(ok, s.ParentAt(PDenyLogger))
      else Some(if ok && s.log.setup.target.Some?
                then s.ParentAt(PDenyLogger).Having(s.log.setup.(members := s.log.setup.members.Attach(s.log.setup.target.value)))
                else Fail(s))
    case _ => None
  }

  /** Setup from there to a network. */
  function ParentConnects(c: Config, s: State, ok: bool): Option<State> {
    match s.at.parent
    case PDenyLogger =>
      Some(if ok then s.ParentAt(if c.network.Bridge? then PNetwork else PRelease).Having(s.log.setup.(watched := true)) else Fail(s))
    case PNetwork =>
      Some(if ok then s.ParentAt(if c.egress then PEgress else PBroker).Having(s.log.setup.(network := Done))
           else if c.strict then Fail(s)
           else s.ParentAt(PRelease).Having(s.log.setup.(network := Tolerated)))
    case _ => None
  }

  /** Egress rules and the credential broker, over a network that is up. */
  function ParentGuards(c: Config, s: State, ok: bool): Option<State> {
    match s.at.parent
    case PEgress =>
      Some(if ok then s.ParentAt(PBroker).Having(s.log.setup.(egress := Done))
           else if c.strict then Fail(s)
           else s.ParentAt(PBroker).Having(s.log.setup.(egress := Tolerated)))
    case PBroker => Some(if ok then s.ParentAt(PRelease).Having(s.log.setup.(probed := true)) else Fail(s))
    case _ => None
  }

  /** The release byte, after which nothing can fail. */
  function ParentReleases(s: State, ok: bool): Option<State> {
    match s.at.parent
    case PRelease =>
      Succeed(ok, if !s.held.SetupHasReader() then Fail(s)
                  else s.ParentAt(PReturn).(log := s.log.(released := true), unread := s.unread.(setup := s.unread.setup + 1)))
    case PReturn => Succeed(ok, s.ParentAt(PCreated).(held := s.held.(parent := CLOSED)))
    case _ => None
  }

  /** Returning an error: kill, reap, and drop the pipes. */
  function ParentFails(s: State, ok: bool): Option<State> {
    match s.at.parent
    case PKillTarget => Succeed(ok, KillTarget(s).ParentAt(PKillChild))
    case PKillChild => Succeed(ok, KillChild(s).ParentAt(PReap))
    case PReap => if s.at.child.CExited? then Succeed(ok, s.ParentAt(PClose)) else None
    case PClose => Succeed(ok, s.ParentAt(PFailed).(held := s.held.(parent := CLOSED)))
    case _ => None
  }

  // ---------- the child ----------

  function ChildKeeps(e: Ends): Ends {
    e.(requestRead := false, ackWrite := false, readyRead := false, setupWrite := false)
  }

  function AfterMapping(c: Config): ChildPc {
    if c.gvisor then (if PrecreatesUserNs(c) && c.network.Bridge? then CNetNs else CNotify)
    else if c.pidNs then CFork
    else CNotify
  }

  /** The child up to its own namespaces; dying is the same as being killed. */
  function ChildBegins(c: Config, s: State, ok: bool): Option<State> {
    match s.at.child
    case CDrop => Succeed(ok, s.ChildAt(CStart).(held := s.held.(child := ChildKeeps(s.held.child))))
    case CStart =>
      Some(if ok then s.ChildAt(if ChildRequests(c) then CRequest else AfterMapping(c)).Doing(s.log.own.(unshared := true))
           else KillChild(s))
    case _ => None
  }

  /** The child up to a mapped user namespace. */
  function ChildMaps(c: Config, s: State, ok: bool): Option<State> {
    match s.at.child
    case CRequest =>
      Succeed(ok, if !s.held.RequestHasReader() then KillChild(s)
                  else s.ChildAt(CWaitAck).(unread := s.unread.(request := s.unread.request + 1)))
    case CWaitAck =>
      (match Read(s.unread.ack, s.held.AckHasWriter())
       case Data(rest) => Succeed(ok, s.ChildAt(CBecomeRoot).(unread := s.unread.(ack := rest)))
       case Eof => Succeed(ok, KillChild(s))
       case Block => None)
    case CBecomeRoot => Some(if ok then s.ChildAt(AfterMapping(c)).Doing(s.log.own.(root := true)) else KillChild(s))
    case _ => None
  }

  /** The child up to its ready message. */
  function ChildReports(c: Config, s: State, ok: bool): Option<State> {
    match s.at.child
    case CNetNs => Some(if ok then s.ChildAt(CNotify).Doing(s.log.own.(net := true)) else KillChild(s))
    case CFork => Some(if ok then s.ChildAt(CNotify).InitAt(IWaitRelease).(held := s.held.(init := s.held.child)) else KillChild(s))
    case CNotify =>
      Succeed(ok, if !s.held.ReadyHasReader() then KillChild(s)
                  else s.ChildAt(if Target(c).Init? then CWaitInit else CWaitRelease)
                        .(log := s.log.(readyPid := Some(Target(c))), unread := s.unread.(ready := s.unread.ready + 1),
                          held := s.held.(child := s.held.child.(readyWrite := false))))
    case _ => None
  }

  /** The child after its ready message. */
  function ChildRuns(c: Config, s: State, ok: bool): Option<State> {
    match s.at.child
    case CWaitRelease =>
      (match Read(s.unread.setup, s.held.SetupHasWriter())
       case Data(rest) => Succeed(ok, s.ChildAt(CSetup).(unread := s.unread.(setup := rest)))
       case Eof => Succeed(ok, KillChild(s))
       case Block => None)
    case CSetup =>
      Some(if ok then s.ChildAt(if c.deferred && !c.gvisor then CFifo else CExec).Doing(s.log.own.(setUp := true))
           else KillChild(s))
    case CFifo => if s.at.fifoReader then Succeed(ok, s.ChildAt(CExec)) else None
    case CExec =>
      Some(if ok then s.ChildAt(CExeced).(log := s.log.(executor := Some(Child)), held := s.held.(child := CLOSED))
           else KillChild(s))
    case CWaitInit => if s.at.init.IExited? then Succeed(ok, KillChild(s)) else None
    case _ => None
  }

  // ---------- PID 1 of the namespace, and its workload ----------

  function InitPrepares(c: Config, s: State, ok: bool): Option<State> {
    match s.at.init
    case IWaitRelease =>
      (match Read(s.unread.setup, s.held.SetupHasWriter())
       case Data(rest) => Succeed(ok, s.InitAt(ISetup).(unread := s.unread.(setup := rest)))
       case Eof => Succeed(ok, KillInit(s))
       case Block => None)
    case ISetup =>
      Some(if ok then s.InitAt(if c.deferred then IFifo else IExec).Doing(s.log.own.(setUp := true)) else KillInit(s))
    case IFifo => if s.at.fifoReader then Succeed(ok, s.InitAt(IExec)) else None
    case _ => None
  }

  function InitRuns(c: Config, s: State, ok: bool): Option<State> {
    match s.at.init
    case IExec =>
      Some(if !ok then KillInit(s)
           else if c.production then
             // the supervisor keeps no descriptor, and a forked process starts in its parent's cgroup
             s.InitAt(ISupervise).WorkAt(WExec)
              .Having(s.log.setup.(members := s.log.setup.members.(work := s.log.setup.members.init)))
              .(held := s.held.(init := CLOSED))
           else s.InitAt(IExeced).(log := s.log.(executor := Some(Init)), held := s.held.(init := CLOSED)))
    case ISupervise => if s.at.work.WExited? then Succeed(ok, KillInit(s)) else None
    case _ => None
  }

  function WorkRuns(s: State, ok: bool): Option<State> {
    if !s.at.work.WExec? then None
    else Some(if ok then s.WorkAt(WExeced).(log := s.log.(executor := Some(Workload))) else s.WorkAt(WExited))
  }

  predicate Answering(p: ParentPc) {
    p.PDrop? || p.PWaitRequest? || p.PWriteMaps? || p.PSendAck?
  }

  predicate Recording(p: ParentPc) {
    p.PPrepare? || p.PSaveState? || p.PPidFile? || p.PAttach?
  }

  predicate Connecting(p: ParentPc) {
    p.PDenyLogger? || p.PNetwork?
  }

  predicate Guarding(p: ParentPc) {
    p.PEgress? || p.PBroker?
  }

  predicate Releasing(p: ParentPc) {
    p.PRelease? || p.PReturn?
  }

  predicate Beginning(p: ChildPc) {
    p.CDrop? || p.CStart?
  }

  predicate Mapping(p: ChildPc) {
    p.CRequest? || p.CWaitAck? || p.CBecomeRoot?
  }

  predicate Reporting(p: ChildPc) {
    p.CNetNs? || p.CFork? || p.CNotify?
  }

  predicate Preparing(p: InitPc) {
    p.IWaitRelease? || p.ISetup? || p.IFifo?
  }

  function Next(c: Config, s: State, step: Step): Option<State> {
    match step
    case ParentStep(ok) =>
      if Answering(s.at.parent) then ParentAnswers(c, s, ok)
      else if s.at.parent.PWaitReady? then ParentMeets(s, ok)
      else if Recording(s.at.parent) then ParentRecords(c, s, ok)
      else if Connecting(s.at.parent) then ParentConnects(c, s, ok)
      else if Guarding(s.at.parent) then ParentGuards(c, s, ok)
      else if Releasing(s.at.parent) then ParentReleases(s, ok)
      else ParentFails(s, ok)
    case ChildStep(ok) =>
      if Beginning(s.at.child) then ChildBegins(c, s, ok)
      else if Mapping(s.at.child) then ChildMaps(c, s, ok)
      else if Reporting(s.at.child) then ChildReports(c, s, ok)
      else ChildRuns(c, s, ok)
    case InitStep(ok) => if Preparing(s.at.init) then InitPrepares(c, s, ok) else InitRuns(c, s, ok)
    case WorkStep(ok) => WorkRuns(s, ok)
    case OpenFifo => if c.deferred && !s.at.fifoReader then Some(s.(at := s.at.(fifoReader := true))) else None
  }

  ghost predicate Follows(c: Config, s: State, t: State) {
    exists step :: Next(c, s, step) == Some(t)
  }

  ghost function Steps(c: Config): (State, State) -> bool {
    (s, t) => Follows(c, s, t)
  }

  /** Any interleaving, from the fork on. */
  ghost predicate IsRun(c: Config, run: seq<State>) {
    Runs.Path(Steps(c), run) && run[0] == Start(c)
  }

  // ---------- safety ----------

  predicate Failing(p: ParentPc) {
    p.PKillTarget? || p.PKillChild? || p.PReap? || p.PClose? || p.PFailed?
  }

  predicate MapsDone(c: Config, u: Setup) {
    ParentMaps(c) ==> u.mapsWritten
  }

  predicate Attached(c: Config, u: Setup) {
    c.cgroup ==> u.members.Holds(Target(c))
  }

  predicate Accepted(c: Config, o: Outcome) {
    o.Done? || (o.Tolerated? && !c.strict)
  }

  /** What the parent owes the workload before it may run. */
  predicate ParentDone(c: Config, u: Setup) {
    && Recorded(c, u)
    && (c.network.Bridge? ==> Accepted(c, u.network))
    && (c.network.Bridge? && u.network.Done? ==> u.probed && (c.egress ==> Accepted(c, u.egress)))
  }

  /** Everything up to the network. */
  predicate Recorded(c: Config, u: Setup) {
    MapsDone(c, u) && u.prepared && u.stateSaved && u.pidFile && Attached(c, u) && u.watched
  }

  /** How far the parent has come, as recorded in what it set up. */
  predicate ParentProgress(c: Config, p: ParentPc, u: Setup) {
    match p
    case PWaitRequest => ParentMaps(c)
    case PWriteMaps => ParentMaps(c)
    case PSendAck => ParentMaps(c) && MapsDone(c, u)
    case PWaitReady => MapsDone(c, u)
    case PPrepare => MapsDone(c, u) && u.target == Some(Target(c))
    case PSaveState => MapsDone(c, u) && u.target == Some(Target(c)) && u.prepared
    case PPidFile => MapsDone(c, u) && u.target == Some(Target(c)) && u.prepared && u.stateSaved
    case PAttach => MapsDone(c, u) && u.target == Some(Target(c)) && u.prepared && u.stateSaved && u.pidFile
    case PDenyLogger => MapsDone(c, u) && u.prepared && u.stateSaved && u.pidFile && Attached(c, u)
    case PNetwork => Recorded(c, u)
    case PEgress => Recorded(c, u) && u.network.Done?
    case PBroker => Recorded(c, u) && u.network.Done? && (c.egress ==> Accepted(c, u.egress))
    case PRelease => ParentDone(c, u)
    case PReturn => ParentDone(c, u)
    case PCreated => ParentDone(c, u)
    case _ => true
  }

  /** What the target owes itself before it reports: its namespaces, and root in a mapped user namespace. */
  predicate Entered(c: Config, o: Own) {
    && o.unshared
    && (ChildRequests(c) ==> o.root)
    && (c.gvisor && PrecreatesUserNs(c) && c.network.Bridge? ==> o.net)
  }

  /** How far the child has come, as recorded in what it did. */
  predicate ChildProgress(c: Config, p: ChildPc, o: Own) {
    match p
    case CDrop => true
    case CStart => true
    case CRequest => o.unshared
    case CWaitAck => o.unshared
    case CBecomeRoot => o.unshared
    case CNetNs => o.unshared && (ChildRequests(c) ==> o.root)
    case CFork => Entered(c, o)
    case CNotify => Entered(c, o)
    case CWaitRelease => Entered(c, o)
    case CSetup => Entered(c, o)
    case CFifo => Entered(c, o) && o.setUp
    case CExec => Entered(c, o) && o.setUp
    case CWaitInit => true
    case CExeced => true
    case CExited => true
  }

  /** The same for PID 1, which starts where the child has come. */
  predicate InitProgress(c: Config, p: InitPc, o: Own) {
    match p
    case IUnborn => true
    case IWaitRelease => Entered(c, o)
    case ISetup => Entered(c, o)
    case IFifo => Entered(c, o) && o.setUp
    case IExec => Entered(c, o) && o.setUp
    case ISupervise => true
    case IExeced => true
    case IExited => true
  }

  predicate OwnProgress(c: Config, child: ChildPc, init: InitPc, work: WorkPc, executor: Option<Proc>, o: Own) {
    && ChildProgress(c, child, o)
    && InitProgress(c, init, o)
    && (!work.WUnborn? || executor.Some? ==> Entered(c, o) && o.setUp)
  }

  predicate ReleasedAt(p: ParentPc) {
    p.PReturn? || p.PCreated?
  }

  predicate ChildPastRelease(p: ChildPc) {
    p.CSetup? || p.CFifo? || p.CExec? || p.CExeced?
  }

  predicate InitPastRelease(p: InitPc) {
    p.ISetup? || p.IFifo? || p.IExec? || p.ISupervise? || p.IExeced?
  }

  /** The release byte is sent last, and nothing gets past it early. */
  predicate Ordered(s: State) {
    && (s.log.released <==> ReleasedAt(s.at.parent))
    && (s.unread.setup > 0 ==> s.log.released)
    && (ChildPastRelease(s.at.child) ==> s.log.released)
    && (InitPastRelease(s.at.init) ==> s.log.released)
    && (!s.at.work.WUnborn? ==> s.log.released)
    && (s.log.executor.Some? ==> s.log.released)
  }

  /** A deferred native start execs nothing before start() opens the FIFO, and no other start has one. */
  predicate Deferred(c: Config, child: ChildPc, init: InitPc, work: WorkPc, fifoReader: bool, executor: Option<Proc>) {
    && (fifoReader ==> c.deferred)
    && (c.deferred && !c.gvisor && !fifoReader ==>
          && !child.CExec? && !child.CExeced?
          && !init.IExec? && !init.ISupervise? && !init.IExeced?
          && work.WUnborn? && executor.None?)
  }

  /** Each role is played by the process the configuration picks for it. */
  predicate ChildRole(c: Config, p: ChildPc) {
    && (p.CFork? || p.CWaitInit? ==> Target(c).Init?)
    && (p.CWaitRelease? || ChildPastRelease(p) ==> Target(c).Child?)
    && (p.CFifo? ==> c.deferred && !c.gvisor)
  }

  predicate Reported(c: Config, s: State) {
    && (s.log.readyPid.Some? ==> s.log.readyPid == Some(Target(c)))
    && (s.unread.ready > 0 ==> s.log.readyPid.Some?)
    && (s.log.setup.target.Some? ==> s.log.setup.target == Some(Target(c)) && s.log.readyPid.Some?)
  }

  predicate BeforeFork(p: ChildPc) {
    Beginning(p) || Mapping(p) || p.CNetNs? || p.CFork?
  }

  /** The workload is run by the target or, below a supervisor, on its behalf; and only once. */
  predicate Executors(c: Config, child: ChildPc, init: InitPc, work: WorkPc, members: Cgroup, executor: Option<Proc>) {
    && (!init.IUnborn? || !work.WUnborn? ==> Target(c).Init?)
    && (BeforeFork(child) ==> init.IUnborn?)
    && (!work.WUnborn? ==> c.production)
    && (init.IFifo? ==> c.deferred)
    && (!work.WUnborn? && members.init ==> members.work)
    && (!work.WUnborn? ==> init.ISupervise? || init.IExited?)
    && (init.IExited? ==> work.WUnborn? || work.WExited?)
    && (match executor
        case None => !child.CExeced? && !init.IExeced? && !work.WExeced?
        case Some(Parent) => false
        case Some(Child) => Target(c).Child? && (child.CExeced? || child.CExited?)
        case Some(Init) => Target(c).Init? && !c.production && work.WUnborn? && (init.IExeced? || init.IExited?)
        case Some(Workload) => Target(c).Init? && c.production && (work.WExeced? || work.WExited?))
  }

  predicate Ruled(c: Config, s: State) {
    && ParentProgress(c, s.at.parent, s.log.setup)
    && Ordered(s)
    && Deferred(c, s.at.child, s.at.init, s.at.work, s.at.fifoReader, s.log.executor)
    && ChildRole(c, s.at.child)
    && Reported(c, s)
    && Executors(c, s.at.child, s.at.init, s.at.work, s.log.setup.members, s.log.executor)
  }

  predicate Safe(c: Config, s: State) {
    Ruled(c, s) && OwnProgress(c, s.at.child, s.at.init, s.at.work, s.log.executor, s.log.own)
  }

  lemma StartIsSafe(c: Config)
    ensures Safe(c, Start(c))
  {
  }

  lemma TakingRequestKeepsSafe(c: Config, s: State, ok: bool)
    requires Safe(c, s) && s.at.parent.PWaitRequest? && ParentAnswers(c, s, ok).Some?
    ensures Safe(c, ParentAnswers(c, s, ok).value)
  {
  }

  lemma AckKeepsSafe(c: Config, s: State, ok: bool)
    requires Safe(c, s) && s.at.parent.PSendAck? && ParentAnswers(c, s, ok).Some?
    ensures Safe(c, ParentAnswers(c, s, ok).value)
  {
  }

  lemma ParentAnswersKeepsSafe(c: Config, s: State, ok: bool)
    requires Safe(c, s) && ParentAnswers(c, s, ok).Some?
    ensures Safe(c, ParentAnswers(c, s, ok).value)
  {
    match s.at.parent {
      case PWaitRequest => TakingRequestKeepsSafe(c, s, ok);
      case PSendAck => AckKeepsSafe(c, s, ok);
      case PDrop =>
      case _ =>
    }
  }

  lemma ParentMeetsKeepsSafe(c: Config, s: State, ok: bool)
    requires Safe(c, s) && ParentMeets(s, ok).Some?
    ensures Safe(c, ParentMeets(s, ok).value)
  {
  }

  /** Between the report and the release, the parent only moves on and records what it set up. */
  predicate Middle(p: ParentPc) {
    Recording(p) || Connecting(p) || Guarding(p) || p.PRelease?
  }

  predicate Moves(c: Config, s: State, t: State) {
    && Middle(s.at.parent)
    && (Middle(t.at.parent) || t.at.parent.PKillTarget?)
    && t == s.ParentAt(t.at.parent).Having(t.log.setup)
    && t.log.setup.target == s.log.setup.target
    && ParentProgress(c, t.at.parent, t.log.setup)
  }

  lemma ParentRecordsMoves(c: Config, s: State, ok: bool)
    requires ParentProgress(c, s.at.parent, s.log.setup) && ParentRecords(c, s, ok).Some?
    ensures Moves(c, s, ParentRecords(c, s, ok).value)
  {
    match s.at.parent {
      case PPrepare =>
      case PSaveState =>
      case PPidFile =>
      case PAttach =>
      case _ =>
    }
  }

  lemma ParentConnectsMoves(c: Config, s: State, ok: bool)
    requires ParentProgress(c, s.at.parent, s.log.setup) && ParentConnects(c, s, ok).Some?
    ensures Moves(c, s, ParentConnects(c, s, ok).value)
  {
    match s.at.parent {
      case PDenyLogger =>
      case PNetwork =>
      case _ =>
    }
  }

  lemma ParentGuardsMoves(c: Config, s: State, ok: bool)
    requires ParentProgress(c, s.at.parent, s.log.setup) && ParentGuards(c, s, ok).Some?
    ensures Moves(c, s, ParentGuards(c, s, ok).value)
  {
    match s.at.parent {
      case PEgress =>
      case PBroker =>
      case _ =>
    }
  }

  lemma MovingKeepsSafe(c: Config, s: State, pc: ParentPc, u: Setup)
    requires Safe(c, s) && Moves(c, s, s.ParentAt(pc).Having(u))
    ensures Safe(c, s.ParentAt(pc).Having(u))
  {
  }

  lemma ParentRecordsKeepsSafe(c: Config, s: State, ok: bool)
    requires Safe(c, s) && ParentRecords(c, s, ok).Some?
    ensures Safe(c, ParentRecords(c, s, ok).value)
  {
    ParentRecordsMoves(c, s, ok);
    MovingKeepsSafe(c, s, ParentRecords(c, s, ok).value.at.parent, ParentRecords(c, s, ok).value.log.setup);
  }

  lemma ParentConnectsKeepsSafe(c: Config, s: State, ok: bool)
    requires Safe(c, s) && ParentConnects(c, s, ok).Some?
    ensures Safe(c, ParentConnects(c, s, ok).value)
  {
    ParentConnectsMoves(c, s, ok);
    MovingKeepsSafe(c, s, ParentConnects(c, s, ok).value.at.parent, ParentConnects(c, s, ok).value.log.setup);
  }

  lemma ParentGuardsKeepsSafe(c: Config, s: State, ok: bool)
    requires Safe(c, s) && ParentGuards(c, s, ok).Some?
    ensures Safe(c, ParentGuards(c, s, ok).value)
  {
    ParentGuardsMoves(c, s, ok);
    MovingKeepsSafe(c, s, ParentGuards(c, s, ok).value.at.parent, ParentGuards(c, s, ok).value.log.setup);
  }

  lemma ParentReleasesKeepsSafe(c: Config, s: State, ok: bool)
    requires Safe(c, s) && ParentReleases(s, ok).Some?
    ensures Safe(c, ParentReleases(s, ok).value)
  {
  }

  lemma KillTargetKeepsSafe(c: Config, s: State, ok: bool)
    requires Safe(c, s) && s.at.parent.PKillTarget? && ParentFails(s, ok).Some?
    ensures Safe(c, ParentFails(s, ok).value)
  {
    match s.log.setup.target {
      case Some(Child) =>
      case Some(Init) =>
      case _ =>
    }
  }

  lemma KillChildKeepsSafety(c: Config, s: State, ok: bool)
    requires Safe(c, s) && s.at.parent.PKillChild? && ParentFails(s, ok).Some?
    ensures Safe(c, ParentFails(s, ok).value)
  {
  }

  lemma ParentFailsKeepsSafe(c: Config, s: State, ok: bool)
    requires Safe(c, s) && ParentFails(s, ok).Some?
    ensures Safe(c, ParentFails(s, ok).value)
  {
    match s.at.parent {
      case PKillTarget => KillTargetKeepsSafe(c, s, ok);
      case PKillChild => KillChildKeepsSafety(c, s, ok);
      case PReap =>
      case _ =>
    }
  }

  lemma ChildBeginsKeepsOwn(c: Config, s: State, ok: bool)
    requires Safe(c, s) && ChildBegins(c, s, ok).Some?
    ensures var t := ChildBegins(c, s, ok).value;
            OwnProgress(c, t.at.child, t.at.init, t.at.work, t.log.executor, t.log.own)
  {
    match s.at.child {
      case CDrop =>
      case _ =>
    }
  }

  lemma ChildBeginsKeepsRules(c: Config, s: State, ok: bool)
    requires Ruled(c, s) && ChildBegins(c, s, ok).Some?
    ensures Ruled(c, ChildBegins(c, s, ok).value)
  {
    match s.at.child {
      case CDrop =>
      case _ =>
    }
  }

  lemma ChildBeginsKeepsSafe(c: Config, s: State, ok: bool)
    requires Safe(c, s) && ChildBegins(c, s, ok).Some?
    ensures Safe(c, ChildBegins(c, s, ok).value)
  {
    ChildBeginsKeepsOwn(c, s, ok);
    ChildBeginsKeepsRules(c, s, ok);
  }

  lemma ChildMapsKeepsOwn(c: Config, s: State, ok: bool)
    requires Safe(c, s) && ChildMaps(c, s, ok).Some?
    ensures var t := ChildMaps(c, s, ok).value;
            OwnProgress(c, t.at.child, t.at.init, t.at.work, t.log.executor, t.log.own)
  {
    match s.at.child {
      case CRequest =>
      case CWaitAck =>
      case _ =>
    }
  }

  lemma RequestKeepsRules(c: Config, s: State, ok: bool)
    requires Ruled(c, s) && s.at.child.CRequest? && ChildMaps(c, s, ok).Some?
    ensures Ruled(c, ChildMaps(c, s, ok).value)
  {
  }

  lemma TakingAckKeepsRules(c: Config, s: State, ok: bool)
    requires Ruled(c, s) && s.at.child.CWaitAck? && ChildMaps(c, s, ok).Some?
    ensures Ruled(c, ChildMaps(c, s, ok).value)
  {
  }

  lemma ChildMapsKeepsRules(c: Config, s: State, ok: bool)
    requires Ruled(c, s) && ChildMaps(c, s, ok).Some?
    ensures Ruled(c, ChildMaps(c, s, ok).value)
  {
    match s.at.child {
      case CRequest => RequestKeepsRules(c, s, ok);
      case CWaitAck => TakingAckKeepsRules(c, s, ok);
      case _ =>
    }
  }

  lemma ChildMapsKeepsSafe(c: Config, s: State, ok: bool)
    requires Safe(c, s) && ChildMaps(c, s, ok).Some?
    ensures Safe(c, ChildMaps(c, s, ok).value)
  {
    ChildMapsKeepsOwn(c, s, ok);
    ChildMapsKeepsRules(c, s, ok);
  }

  lemma ChildReportsKeepsOwn(c: Config, s: State, ok: bool)
    requires Safe(c, s) && ChildReports(c, s, ok).Some?
    ensures var t := ChildReports(c, s, ok).value;
            OwnProgress(c, t.at.child, t.at.init, t.at.work, t.log.executor, t.log.own)
  {
    match s.at.child {
      case CNetNs =>
      case CFork =>
      case _ =>
    }
  }

  lemma NotifyKeepsRules(c: Config, s: State, ok: bool)
    requires Ruled(c, s) && s.at.child.CNotify? && ChildReports(c, s, ok).Some?
    ensures Ruled(c, ChildReports(c, s, ok).value)
  {
    if s.held.ReadyHasReader() {
      match Target(c) {
        case Init =>
        case _ =>
      }
    }
  }

  lemma ChildReportsKeepsRules(c: Config, s: State, ok: bool)
    requires Ruled(c, s) && ChildReports(c, s, ok).Some?
    ensures Ruled(c, ChildReports(c, s, ok).value)
  {
    if s.at.child.CNotify? {
      NotifyKeepsRules(c, s, ok);
    } else {
      match s.at.child {
        case CNetNs =>
        case _ =>
      }
    }
  }

  lemma ChildReportsKeepsSafe(c: Config, s: State, ok: bool)
    requires Safe(c, s) && ChildReports(c, s, ok).Some?
    ensures Safe(c, ChildReports(c, s, ok).value)
  {
    ChildReportsKeepsOwn(c, s, ok);
    ChildReportsKeepsRules(c, s, ok);
  }

  lemma ChildRunsKeepsOwn(c: Config, s: State, ok: bool)
    requires Safe(c, s) && ChildRuns(c, s, ok).Some?
    ensures var t := ChildRuns(c, s, ok).value;
            OwnProgress(c, t.at.child, t.at.init, t.at.work, t.log.executor, t.log.own)
  {
    match s.at.child {
      case CWaitRelease =>
      case CSetup =>
      case CFifo =>
      case CExec =>
      case _ =>
    }
  }

  lemma ChildRunsKeepsRules(c: Config, s: State, ok: bool)
    requires Ruled(c, s) && ChildRuns(c, s, ok).Some?
    ensures Ruled(c, ChildRuns(c, s, ok).value)
  {
    match s.at.child {
      case CWaitRelease =>
      case CSetup =>
      case CFifo =>
      case CExec =>
      case _ =>
    }
  }

  lemma ChildRunsKeepsSafe(c: Config, s: State, ok: bool)
    requires Safe(c, s) && ChildRuns(c, s, ok).Some?
    ensures Safe(c, ChildRuns(c, s, ok).value)
  {
    ChildRunsKeepsOwn(c, s, ok);
    ChildRunsKeepsRules(c, s, ok);
  }

  lemma InitPreparesKeepsSafe(c: Config, s: State, ok: bool)
    requires Safe(c, s) && InitPrepares(c, s, ok).Some?
    ensures Safe(c, InitPrepares(c, s, ok).value)
  {
    match s.at.init {
      case IWaitRelease =>
      case ISetup =>
      case _ =>
    }
  }

  lemma InitExecKeepsSafe(c: Config, s: State, ok: bool)
    requires Safe(c, s) && s.at.init.IExec? && InitRuns(c, s, ok).Some?
    ensures Safe(c, InitRuns(c, s, ok).value)
  {
  }

  lemma InitRunsKeepsSafe(c: Config, s: State, ok: bool)
    requires Safe(c, s) && InitRuns(c, s, ok).Some?
    ensures Safe(c, InitRuns(c, s, ok).value)
  {
    if s.at.init.IExec? {
      InitExecKeepsSafe(c, s, ok);
    }
  }

  lemma WorkRunsKeepsSafe(c: Config, s: State, ok: bool)
    requires Safe(c, s) && WorkRuns(s, ok).Some?
    ensures Safe(c, WorkRuns(s, ok).value)
  {
  }

  lemma ParentStepKeepsSafe(c: Config, s: State, ok: bool)
    requires Safe(c, s) && Next(c, s, ParentStep(ok)).Some?
    ensures Safe(c, Next(c, s, ParentStep(ok)).value)
  {
    if Answering(s.at.parent) {
      ParentAnswersKeepsSafe(c, s, ok);
    } else if s.at.parent.PWaitReady? {
      ParentMeetsKeepsSafe(c, s, ok);
    } else if Recording(s.at.parent) {
      ParentRecordsKeepsSafe(c, s, ok);
    } else if Connecting(s.at.parent) {
      ParentConnectsKeepsSafe(c, s, ok);
    } else if Guarding(s.at.parent) {
      ParentGuardsKeepsSafe(c, s, ok);
    } else if Releasing(s.at.parent) {
      ParentReleasesKeepsSafe(c, s, ok);
    } else {
      ParentFailsKeepsSafe(c, s, ok);
    }
  }

  lemma ChildStepKeepsSafe(c: Config, s: State, ok: bool)
    requires Safe(c, s) && Next(c, s, ChildStep(ok)).Some?
    ensures Safe(c, Next(c, s, ChildStep(ok)).value)
  {
    if Beginning(s.at.child) {
      ChildBeginsKeepsSafe(c, s, ok);
    } else if Mapping(s.at.child) {
      ChildMapsKeepsSafe(c, s, ok);
    } else if Reporting(s.at.child) {
      ChildReportsKeepsSafe(c, s, ok);
    } else {
      ChildRunsKeepsSafe(c, s, ok);
    }
  }

  lemma StepKeepsSafe(c: Config, s: State, step: Step)
    requires Safe(c, s) && Next(c, s, step).Some?
    ensures Safe(c, Next(c, s, step).value)
  {
    match step
    case ParentStep(ok) => ParentStepKeepsSafe(c, s, ok);
    case ChildStep(ok) => ChildStepKeepsSafe(c, s, ok);
    case InitStep(ok) =>
      if Preparing(s.at.init) {
        InitPreparesKeepsSafe(c, s, ok);
      } else {
        InitRunsKeepsSafe(c, s, ok);
      }
    case WorkStep(ok) => WorkRunsKeepsSafe(c, s, ok);
    case OpenFifo =>
  }

  lemma StepsKeepSafe(c: Config)
    ensures Runs.Keeps(Steps(c), s => Safe(c, s))
  {
    forall s, t | Safe(c, s) && Steps(c)(s, t) ensures Safe(c, t) {
      var step :| Next(c, s, step) == Some(t);
      StepKeepsSafe(c, s, step);
    }
  }

  lemma RunIsSafe(c: Config, run: seq<State>, i: nat)
    requires IsRun(c, run) && i < |run|
    ensures Safe(c, run[i])
  {
    StartIsSafe(c);
    StepsKeepSafe(c);
    Runs.Lasts(Steps(c), s => Safe(c, s), run, 0, i);
  }

  // ---------- nothing runs before the parent is done ----------

  /** Who execs: the target, or in production mode the workload that PID 1 supervises. */
  function Runner(c: Config): Proc {
    if !c.gvisor && c.pidNs then (if c.production then Workload else Init) else Child
  }

  /** Everything that must have happened before process `p` may exec. */
  predicate Cleared(c: Config, s: State, p: Proc) {
    && p == Runner(c)
    && s.log.released
    && ParentDone(c, s.log.setup)
    && Entered(c, s.log.own) && s.log.own.setUp
    && (c.cgroup ==> s.log.setup.members.Holds(p))
    && (c.deferred && !c.gvisor ==> s.at.fifoReader)
  }

  lemma ParentExecsNothing(c: Config, s: State, ok: bool)
    requires Next(c, s, ParentStep(ok)).Some?
    ensures Next(c, s, ParentStep(ok)).value.log.executor == s.log.executor
  {
  }

  lemma ExecIsCleared(c: Config, s: State, step: Step)
    requires Safe(c, s) && Next(c, s, step).Some?
    requires Next(c, s, step).value.log.executor != s.log.executor
    ensures s.log.executor.None?
    ensures Next(c, s, step).value.log.executor.Some?
    ensures Cleared(c, s, Next(c, s, step).value.log.executor.value)
  {
    match step {
      case ParentStep(ok) => ParentExecsNothing(c, s, ok);
      case ChildStep(ok) =>
      case InitStep(ok) =>
      case WorkStep(ok) =>
      case OpenFifo =>
    }
  }

  /** In every interleaving, the workload is exec'd once, and only by a process that is cleared beforehand. */
  lemma ExecOnlyAfterSetup(c: Config, run: seq<State>, i: nat)
    requires IsRun(c, run) && i + 1 < |run|
    requires run[i + 1].log.executor != run[i].log.executor
    ensures run[i].log.executor.None?
    ensures run[i + 1].log.executor.Some?
    ensures Cleared(c, run[i], run[i + 1].log.executor.value)
  {
    RunIsSafe(c, run, i);
    assert Runs.Linked(Steps(c), run, i);
    var step :| Next(c, run[i], step) == Some(run[i + 1]);
    ExecIsCleared(c, run[i], step);
  }

  // ---------- a failed setup never runs anything ----------

  lemma FailingStays(c: Config, s: State, step: Step)
    requires Next(c, s, step).Some? && Failing(s.at.parent)
    ensures Failing(Next(c, s, step).value.at.parent)
  {
  }

  lemma FailingLasts(c: Config, run: seq<State>, i: nat, j: nat)
    requires IsRun(c, run) && i <= j < |run| && Failing(run[i].at.parent)
    ensures Failing(run[j].at.parent)
  {
    forall s: State, t: State | Failing(s.at.parent) && Steps(c)(s, t) ensures Failing(t.at.parent) {
      var step :| Next(c, s, step) == Some(t);
      FailingStays(c, s, step);
    }
    Runs.Lasts(Steps(c), (s: State) => Failing(s.at.parent), run, i, j);
  }

  lemma ExecLasts(c: Config, run: seq<State>, i: nat, j: nat)
    requires IsRun(c, run) && i <= j < |run| && run[i].log.executor.Some?
    ensures run[j].log.executor.Some?
  {
    forall s: State, t: State | s.log.executor.Some? && Safe(c, s) && Steps(c)(s, t) ensures t.log.executor.Some? && Safe(c, t) {
      var step :| Next(c, s, step) == Some(t);
      StepKeepsSafe(c, s, step);
      if t.log.executor != s.log.executor {
        ExecIsCleared(c, s, step);
      }
    }
    RunIsSafe(c, run, i);
    Runs.Lasts(Steps(c), (s: State) => s.log.executor.Some? && Safe(c, s), run, i, j);
  }

  /** If the parent's setup returns an error at any point of a run, nothing is exec'd at any point of it. */
  lemma FailureRunsNothing(c: Config, run: seq<State>, i: nat, j: nat)
    requires IsRun(c, run) && i < |run| && j < |run| && Failing(run[i].at.parent)
    ensures run[j].log.executor.None?
  {
    if run[j].log.executor.Some? {
      RunIsSafe(c, run, if i < j then j else i);
      if i < j {
        FailingLasts(c, run, i, j);
      } else {
        ExecLasts(c, run, j, i);
      }
    }
  }

  lemma ReleaseStays(c: Config, s: State, step: Step)
    requires Next(c, s, step).Some? && ReleasedAt(s.at.parent)
    ensures ReleasedAt(Next(c, s, step).value.at.parent)
  {
  }

  /** Once the release byte is sent, the parent's setup cannot return an error any more, nor has it before. */
  lemma ReleaseIsLast(c: Config, run: seq<State>, i: nat, j: nat)
    requires IsRun(c, run) && i < |run| && j < |run| && run[i].log.released
    ensures !Failing(run[j].at.parent)
  {
    RunIsSafe(c, run, i);
    if i <= j {
      forall s: State, t: State | ReleasedAt(s.at.parent) && Steps(c)(s, t) ensures ReleasedAt(t.at.parent) {
        var step :| Next(c, s, step) == Some(t);
        ReleaseStays(c, s, step);
      }
      Runs.Lasts(Steps(c), (s: State) => ReleasedAt(s.at.parent), run, i, j);
    } else if Failing(run[j].at.parent) {
      FailingLasts(c, run, j, i);
    }
  }

  // ---------- a failed call ----------

  /** A call that fails ends the process that made it; the parent tolerates it only over the network, outside strict modes. */
  lemma FailedCallEnds(c: Config, s: State)
    ensures Next(c, s, ChildStep(false)).Some? ==> Next(c, s, ChildStep(false)).value.at.child.CExited?
    ensures Next(c, s, InitStep(false)).Some? ==> Next(c, s, InitStep(false)).value.at.init.IExited?
    ensures Next(c, s, WorkStep(false)).Some? ==> Next(c, s, WorkStep(false)).value.at.work.WExited?
    ensures Next(c, s, ParentStep(false)).Some? ==>
              (Failing(Next(c, s, ParentStep(false)).value.at.parent) <==>
               c.strict || (!s.at.parent.PNetwork? && !s.at.parent.PEgress?))
  {
  }

  /** The child asks for id maps exactly when the parent waits to be asked, and when that is. */
  lemma RequestsMatch(c: Config)
    ensures ChildRequests(c) == ParentMaps(c)
    ensures ParentMaps(c) <==>
              c.userNs && (!c.gvisor || (!c.hostRoot && (c.network.Bridge? || c.network.GVisorHost?)))
  {
  }
}
