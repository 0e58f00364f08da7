/**
 The create phase cannot deadlock.  Every reachable state either is at rest or
 has an enabled step that needs no outside help, and every step decreases a
 measure, so each run comes to rest.
 */
module HandshakeProgress {
  import opened Common
  import opened Handshake
  import Runs

  // ---------- what holds of the pipes ----------

  predicate Returned(p: ParentPc) {
    p.PCreated? || p.PFailed?
  }

  predicate Unasked(p: ParentPc) {
    p.PDrop? || p.PWaitRequest?
  }

  predicate Unmet(p: ParentPc) {
    Answering(p) || p.PWaitReady?
  }

  predicate Reaped(p: ParentPc) {
    p.PReap? || p.PClose? || p.PFailed?
  }

  /** What the other processes can tell of the parent's progress. */
  datatype Stage = Stage(
    dropping: bool, unasked: bool, unacked: bool, unmet: bool, failing: bool, killed: bool, reaped: bool, returned: bool)

  function StageOf(p: ParentPc): Stage {
    Stage(p.PDrop?, Unasked(p), Answering(p), Unmet(p), Failing(p), p.PKillChild? || Reaped(p), Reaped(p), Returned(p))
  }

  predicate Gone(p: ChildPc) {
    p.CExited? || p.CExeced?
  }

  predicate Unreported(p: ChildPc) {
    BeforeFork(p) || p.CNotify?
  }

  predicate Asking(p: ChildPc) {
    p.CDrop? || p.CStart? || p.CRequest?
  }

  predicate ParentEnds(g: Stage, e: Ends) {
    && (e.requestWrite || e.readyWrite ==> g.dropping)
    && (e.ackWrite ==> !g.returned)
    && (e.setupWrite <==> !g.returned)
    && (e.readyRead || g.returned)
  }

  predicate ChildEnds(p: ChildPc, e: Ends) {
    && (e.requestWrite ==> !Gone(p))
    && (e.ackWrite || e.setupWrite ==> p.CDrop?)
    && (e.readyWrite <==> Unreported(p))
  }

  predicate InitEnds(p: InitPc, e: Ends) {
    && (e.requestWrite || e.readyWrite ==> !p.IUnborn?)
    && (p.IWaitRelease? ==> e.readyWrite)
    && (p.IExited? ==> !e.readyWrite)
    && !e.ackWrite && !e.setupWrite
  }

  predicate HoldsEnds(a: Control, h: Holders) {
    ParentEnds(StageOf(a.parent), h.parent) && ChildEnds(a.child, h.child) && InitEnds(a.init, h.init)
  }

  /** One mapping request, then one acknowledgement. */
  predicate MappingMessages(c: Config, g: Stage, child: ChildPc, init: InitPc, request: nat, ack: nat) {
    && (child.CRequest? || child.CWaitAck? ==> ParentMaps(c))
    && (ParentMaps(c) && Asking(child) ==> request == 0 && (g.unasked || g.failing))
    && (g.unasked && child.CWaitAck? ==> request > 0)
    && (ParentMaps(c) && g.unacked ==> ack == 0 && init.IUnborn? && (Asking(child) || child.CWaitAck? || child.CExited?))
    && (child.CWaitAck? && !g.unacked && !g.failing ==> ack > 0)
  }

  /** One ready message, sent by the child once its own child is born. */
  predicate ReadyMessages(c: Config, g: Stage, child: ChildPc, init: InitPc, ready: nat, readyPid: Option<Proc>) {
    && (Unreported(child) ==> readyPid.None?)
    && (readyPid.None? ==> g.unmet || g.failing)
    && (readyPid.Some? && g.unmet ==> ready > 0)
    && (readyPid.None? ==> Unreported(child) || child.CExited?)
    && (child.CNetNs? ==> Target(c).Child?)
    && (child.CNotify? && Target(c).Init? ==> !init.IUnborn?)
    && (readyPid.Some? && Target(c).Init? ==> !init.IUnborn?)
    && (child.CWaitInit? ==> !init.IUnborn?)
  }

  /** The release byte stays until its one reader has taken it. */
  predicate ReleaseMessages(child: ChildPc, init: InitPc, setup: nat, released: bool) {
    && (released && child.CWaitRelease? ==> setup > 0)
    && (released && init.IWaitRelease? ==> setup > 0)
  }

  predicate Survivors(g: Stage, child: ChildPc, init: InitPc, work: WorkPc, target: Option<Proc>) {
    && (g.reaped ==> child.CExited?)
    && (g.killed && target == Some(Child) ==> child.CExited?)
    && (g.killed && target == Some(Init) ==> init.IExited?)
    && (init.ISupervise? ==> !work.WUnborn?)
  }

  predicate CoreMessages(c: Config, s: State) {
    && MappingMessages(c, StageOf(s.at.parent), s.at.child, s.at.init, s.unread.request, s.unread.ack)
    && ReadyMessages(c, StageOf(s.at.parent), s.at.child, s.at.init, s.unread.ready, s.log.readyPid)
    && ReleaseMessages(s.at.child, s.at.init, s.unread.setup, s.log.released)
    && Survivors(StageOf(s.at.parent), s.at.child, s.at.init, s.at.work, s.log.setup.target)
  }

  /** While PID 1 lives unreported, somebody is there to report it, or the parent has given up. */
  predicate Announced(g: Stage, child: ChildPc, init: InitPc, readyPid: Option<Proc>) {
    readyPid.None? && !init.IUnborn? && !init.IExited? ==> child.CNotify? || g.failing
  }

  predicate Messages(c: Config, s: State) {
    CoreMessages(c, s) && Announced(StageOf(s.at.parent), s.at.child, s.at.init, s.log.readyPid)
  }

  predicate Live(c: Config, s: State) {
    Safe(c, s) && HoldsEnds(s.at, s.held) && Messages(c, s)
  }

  lemma StartIsLive(c: Config)
    ensures Live(c, Start(c))
  {
  }

  lemma ParentAnswersAlone(c: Config, s: State, ok: bool)
    requires ParentAnswers(c, s, ok).Some?
    ensures var t := ParentAnswers(c, s, ok).value;
            && t.at.child == s.at.child && t.at.init == s.at.init
            && t.held.child == s.held.child && t.held.init == s.held.init
  {
    match s.at.parent {
      case PDrop =>
      case PWaitRequest =>
      case PWriteMaps =>
      case PSendAck =>
      case _ =>
    }
  }

  lemma ParentAnswersKeepsEnds(c: Config, s: State, ok: bool)
    requires ParentEnds(StageOf(s.at.parent), s.held.parent) && ParentAnswers(c, s, ok).Some?
    ensures ParentEnds(StageOf(ParentAnswers(c, s, ok).value.at.parent), ParentAnswers(c, s, ok).value.held.parent)
  {
    match s.at.parent {
      case PDrop =>
      case PWaitRequest =>
      case PWriteMaps =>
      case PSendAck =>
      case _ =>
    }
  }

  lemma TakingRequestKeepsMessages(c: Config, s: State, ok: bool)
    requires Live(c, s) && s.at.parent.PWaitRequest? && ParentAnswers(c, s, ok).Some?
    ensures Messages(c, ParentAnswers(c, s, ok).value)
  {
  }

  lemma AckKeepsMessages(c: Config, s: State, ok: bool)
    requires Live(c, s) && s.at.parent.PSendAck? && ParentAnswers(c, s, ok).Some?
    ensures Messages(c, ParentAnswers(c, s, ok).value)
  {
  }

  lemma ParentAnswersKeepsMessages(c: Config, s: State, ok: bool)
    requires Live(c, s) && ParentAnswers(c, s, ok).Some?
    ensures Messages(c, ParentAnswers(c, s, ok).value)
  {
    match s.at.parent {
      case PWaitRequest => TakingRequestKeepsMessages(c, s, ok);
      case PSendAck => AckKeepsMessages(c, s, ok);
      case PDrop =>
      case _ =>
    }
  }

  lemma ParentAnswersKeepsLive(c: Config, s: State, ok: bool)
    requires Live(c, s) && ParentAnswers(c, s, ok).Some?
    ensures Live(c, ParentAnswers(c, s, ok).value)
  {
    ParentAnswersKeepsSafe(c, s, ok);
    ParentAnswersAlone(c, s, ok);
    ParentAnswersKeepsEnds(c, s, ok);
    ParentAnswersKeepsMessages(c, s, ok);
  }

  lemma ParentMeetsKeepsMessages(c: Config, s: State, ok: bool)
    requires Reported(c, s) && HoldsEnds(s.at, s.held) && Messages(c, s) && ParentMeets(s, ok).Some?
    ensures HoldsEnds(ParentMeets(s, ok).value.at, ParentMeets(s, ok).value.held) && Messages(c, ParentMeets(s, ok).value)
  {
  }

  lemma ParentMeetsKeepsLive(c: Config, s: State, ok: bool)
    requires Live(c, s) && ParentMeets(s, ok).Some?
    ensures Live(c, ParentMeets(s, ok).value)
  {
    ParentMeetsKeepsSafe(c, s, ok);
    ParentMeetsKeepsMessages(c, s, ok);
  }

  /** From the report to the release the others cannot tell the parent's progress, unless it fails. */
  lemma MiddleStage(p: ParentPc)
    requires Middle(p)
    ensures StageOf(p) == Stage(false, false, false, false, false, false, false, false)
  {
  }

  lemma MovingKeepsLive(c: Config, s: State, pc: ParentPc, u: Setup)
    requires Live(c, s) && Moves(c, s, s.ParentAt(pc).Having(u))
    ensures Live(c, s.ParentAt(pc).Having(u))
  {
    MovingKeepsSafe(c, s, pc, u);
    MiddleStage(s.at.parent);
    if Middle(pc) {
      MiddleStage(pc);
    } else {
      assert StageOf(pc) == Stage(false, false, false, false, true, false, false, false);
    }
  }

  lemma ParentRecordsKeepsLive(c: Config, s: State, ok: bool)
    requires Live(c, s) && ParentRecords(c, s, ok).Some?
    ensures Live(c, ParentRecords(c, s, ok).value)
  {
    ParentRecordsMoves(c, s, ok);
    MovingKeepsLive(c, s, ParentRecords(c, s, ok).value.at.parent, ParentRecords(c, s, ok).value.log.setup);
  }

  lemma ParentConnectsKeepsLive(c: Config, s: State, ok: bool)
    requires Live(c, s) && ParentConnects(c, s, ok).Some?
    ensures Live(c, ParentConnects(c, s, ok).value)
  {
    ParentConnectsMoves(c, s, ok);
    MovingKeepsLive(c, s, ParentConnects(c, s, ok).value.at.parent, ParentConnects(c, s, ok).value.log.setup);
  }

  lemma ParentGuardsKeepsLive(c: Config, s: State, ok: bool)
    requires Live(c, s) && ParentGuards(c, s, ok).Some?
    ensures Live(c, ParentGuards(c, s, ok).value)
  {
    ParentGuardsMoves(c, s, ok);
    MovingKeepsLive(c, s, ParentGuards(c, s, ok).value.at.parent, ParentGuards(c, s, ok).value.log.setup);
  }

  lemma ParentReleasesKeepsEnds(s: State, ok: bool)
    requires HoldsEnds(s.at, s.held) && ParentReleases(s, ok).Some?
    ensures HoldsEnds(ParentReleases(s, ok).value.at, ParentReleases(s, ok).value.held)
  {
    match s.at.parent {
      case PRelease =>
      case _ =>
    }
  }

  lemma ParentReleasesKeepsMessages(c: Config, s: State, ok: bool)
    requires Ordered(s) && Messages(c, s) && ParentReleases(s, ok).Some?
    ensures Messages(c, ParentReleases(s, ok).value)
  {
    match s.at.parent {
      case PRelease =>
      case _ =>
    }
  }

  lemma ParentReleasesKeepsLive(c: Config, s: State, ok: bool)
    requires Live(c, s) && ParentReleases(s, ok).Some?
    ensures Live(c, ParentReleases(s, ok).value)
  {
    ParentReleasesKeepsSafe(c, s, ok);
    ParentReleasesKeepsEnds(s, ok);
    ParentReleasesKeepsMessages(c, s, ok);
  }

  lemma KillsKeepEnds(s: State)
    requires HoldsEnds(s.at, s.held)
    ensures HoldsEnds(KillChild(s).at, KillChild(s).held)
    ensures HoldsEnds(KillInit(s).at, KillInit(s).held)
  {
  }

  /** The parent's progress counts only by its stage. */
  lemma MovingKeepsEnds(s: State, pc: ParentPc)
    requires HoldsEnds(s.at, s.held) && Failing(s.at.parent) && Failing(pc) && Returned(s.at.parent) == Returned(pc)
    ensures HoldsEnds(s.ParentAt(pc).at, s.ParentAt(pc).held)
  {
  }

  lemma KillTargetKeepsEnds(s: State)
    requires HoldsEnds(s.at, s.held)
    ensures HoldsEnds(KillTarget(s).at, KillTarget(s).held) && KillTarget(s).at.parent == s.at.parent
  {
    KillsKeepEnds(s);
  }

  lemma ReturnKeepsEnds(s: State)
    requires HoldsEnds(s.at, s.held)
    ensures HoldsEnds(s.at.(parent := PFailed), s.held.(parent := CLOSED))
  {
  }

  lemma ParentFailsKeepsEnds(c: Config, s: State, ok: bool)
    requires HoldsEnds(s.at, s.held) && ParentFails(s, ok).Some?
    ensures HoldsEnds(ParentFails(s, ok).value.at, ParentFails(s, ok).value.held)
  {
    match s.at.parent {
      case PKillTarget =>
        KillTargetKeepsEnds(s);
        MovingKeepsEnds(KillTarget(s), PKillChild);
      case PKillChild =>
        KillsKeepEnds(s);
        MovingKeepsEnds(KillChild(s), PReap);
      case PReap => MovingKeepsEnds(s, PClose);
      case _ => ReturnKeepsEnds(s);
    }
  }

  lemma KillTargetKeepsMessages(c: Config, s: State, ok: bool)
    requires Live(c, s) && s.at.parent.PKillTarget? && ParentFails(s, ok).Some?
    ensures Messages(c, ParentFails(s, ok).value)
  {
    match s.log.setup.target {
      case Some(Child) =>
      case Some(Init) =>
      case _ =>
    }
  }

  lemma ParentFailsKeepsMessages(c: Config, s: State, ok: bool)
    requires Live(c, s) && ParentFails(s, ok).Some?
    ensures Messages(c, ParentFails(s, ok).value)
  {
    if s.at.parent.PKillTarget? {
      KillTargetKeepsMessages(c, s, ok);
    } else {
      match s.at.parent {
        case PKillChild =>
        case PReap =>
        case _ =>
      }
    }
  }

  lemma ParentFailsKeepsLive(c: Config, s: State, ok: bool)
    requires Live(c, s) && ParentFails(s, ok).Some?
    ensures Live(c, ParentFails(s, ok).value)
  {
    ParentFailsKeepsSafe(c, s, ok);
    ParentFailsKeepsEnds(c, s, ok);
    ParentFailsKeepsMessages(c, s, ok);
  }

  lemma ChildBeginsKeepsEnds(c: Config, s: State, ok: bool)
    requires HoldsEnds(s.at, s.held) && ChildBegins(c, s, ok).Some?
    ensures HoldsEnds(ChildBegins(c, s, ok).value.at, ChildBegins(c, s, ok).value.held)
  {
    match s.at.child {
      case CDrop =>
      case _ =>
    }
  }

  lemma ChildBeginsKeepsMessages(c: Config, s: State, ok: bool)
    requires Live(c, s) && ChildBegins(c, s, ok).Some?
    ensures Messages(c, ChildBegins(c, s, ok).value)
  {
    match s.at.child {
      case CDrop =>
      case _ =>
    }
  }

  lemma ChildBeginsKeepsLive(c: Config, s: State, ok: bool)
    requires Live(c, s) && ChildBegins(c, s, ok).Some?
    ensures Live(c, ChildBegins(c, s, ok).value)
  {
    ChildBeginsKeepsSafe(c, s, ok);
    ChildBeginsKeepsEnds(c, s, ok);
    ChildBeginsKeepsMessages(c, s, ok);
  }

  lemma ChildMapsAlone(c: Config, s: State, ok: bool)
    requires ChildMaps(c, s, ok).Some?
    ensures var t := ChildMaps(c, s, ok).value;
            && t.at.parent == s.at.parent && t.at.init == s.at.init
            && t.held.parent == s.held.parent && t.held.init == s.held.init
  {
    match s.at.child {
      case CRequest =>
      case CWaitAck =>
      case _ =>
    }
  }

  lemma ChildMapsKeepsEnds(c: Config, s: State, ok: bool)
    requires ChildEnds(s.at.child, s.held.child) && ChildMaps(c, s, ok).Some?
    ensures ChildEnds(ChildMaps(c, s, ok).value.at.child, ChildMaps(c, s, ok).value.held.child)
  {
    match s.at.child {
      case CRequest =>
      case CWaitAck =>
      case _ =>
    }
  }

  lemma RequestKeepsMessages(c: Config, s: State, ok: bool)
    requires Live(c, s) && s.at.child.CRequest? && ChildMaps(c, s, ok).Some?
    ensures Messages(c, ChildMaps(c, s, ok).value)
  {
  }

  lemma TakingAckKeepsMessages(c: Config, s: State, ok: bool)
    requires Live(c, s) && s.at.child.CWaitAck? && ChildMaps(c, s, ok).Some?
    ensures Messages(c, ChildMaps(c, s, ok).value)
  {
  }

  lemma ChildMapsKeepsMessages(c: Config, s: State, ok: bool)
    requires Live(c, s) && ChildMaps(c, s, ok).Some?
    ensures Messages(c, ChildMaps(c, s, ok).value)
  {
    match s.at.child {
      case CRequest => RequestKeepsMessages(c, s, ok);
      case CWaitAck => TakingAckKeepsMessages(c, s, ok);
      case _ =>
    }
  }

  lemma ChildMapsKeepsLive(c: Config, s: State, ok: bool)
    requires Live(c, s) && ChildMaps(c, s, ok).Some?
    ensures Live(c, ChildMaps(c, s, ok).value)
  {
    ChildMapsKeepsSafe(c, s, ok);
    ChildMapsAlone(c, s, ok);
    ChildMapsKeepsEnds(c, s, ok);
    ChildMapsKeepsMessages(c, s, ok);
  }

  lemma NotifyKeepsMessages(c: Config, s: State, ok: bool)
    requires Live(c, s) && s.at.child.CNotify? && ChildReports(c, s, ok).Some?
    ensures HoldsEnds(ChildReports(c, s, ok).value.at, ChildReports(c, s, ok).value.held)
    ensures Messages(c, ChildReports(c, s, ok).value)
  {
  }

  lemma ForkKeepsMessages(c: Config, s: State, ok: bool)
    requires Live(c, s) && !s.at.child.CNotify? && ChildReports(c, s, ok).Some?
    ensures HoldsEnds(ChildReports(c, s, ok).value.at, ChildReports(c, s, ok).value.held)
    ensures Messages(c, ChildReports(c, s, ok).value)
  {
    match s.at.child {
      case CNetNs =>
      case _ =>
    }
  }

  lemma ChildReportsKeepsLive(c: Config, s: State, ok: bool)
    requires Live(c, s) && ChildReports(c, s, ok).Some?
    ensures Live(c, ChildReports(c, s, ok).value)
  {
    ChildReportsKeepsSafe(c, s, ok);
    if s.at.child.CNotify? {
      NotifyKeepsMessages(c, s, ok);
    } else {
      ForkKeepsMessages(c, s, ok);
    }
  }

  lemma ChildRunsAlone(c: Config, s: State, ok: bool)
    requires ChildRuns(c, s, ok).Some?
    ensures var t := ChildRuns(c, s, ok).value;
            && t.at.parent == s.at.parent && t.at.init == s.at.init
            && t.held.parent == s.held.parent && t.held.init == s.held.init
  {
    match s.at.child {
      case CWaitRelease =>
      case CSetup =>
      case _ =>
    }
  }

  lemma ChildRunsKeepsEnds(c: Config, s: State, ok: bool)
    requires ChildEnds(s.at.child, s.held.child) && ChildRuns(c, s, ok).Some?
    ensures ChildEnds(ChildRuns(c, s, ok).value.at.child, ChildRuns(c, s, ok).value.held.child)
  {
    match s.at.child {
      case CWaitRelease =>
      case CSetup =>
      case CFifo =>
      case CExec =>
      case _ =>
    }
  }

  lemma TakingReleaseKeepsMessages(c: Config, s: State, ok: bool)
    requires Live(c, s) && s.at.child.CWaitRelease? && ChildRuns(c, s, ok).Some?
    ensures Messages(c, ChildRuns(c, s, ok).value)
  {
  }

  predicate Later(p: ChildPc) {
    p.CSetup? || p.CFifo? || p.CExec? || p.CWaitInit?
  }

  lemma LaterChildKeepsMessages(c: Config, s: State, pc: ChildPc)
    requires Messages(c, s) && Later(s.at.child) && (pc.CFifo? || pc.CExec? || Gone(pc))
    requires StageOf(s.at.parent).killed ==> s.log.setup.target == Some(Init) || pc.CExited?
    requires StageOf(s.at.parent).reaped ==> pc.CExited?
    ensures Messages(c, s.ChildAt(pc))
  {
  }

  lemma LaterChildMoves(c: Config, s: State, ok: bool)
    requires Later(s.at.child) && ChildRuns(c, s, ok).Some?
    ensures var t := ChildRuns(c, s, ok).value;
            && t.at == s.at.(child := t.at.child) && (t.at.child.CFifo? || t.at.child.CExec? || Gone(t.at.child))
            && t.unread == s.unread && t.log.readyPid == s.log.readyPid && t.log.released == s.log.released
  {
    match s.at.child {
      case CSetup =>
      case CFifo =>
      case CExec =>
      case _ =>
    }
  }

  lemma ChildRunsKeepsMessages(c: Config, s: State, ok: bool)
    requires Live(c, s) && ChildRuns(c, s, ok).Some?
    ensures Messages(c, ChildRuns(c, s, ok).value)
  {
    if s.at.child.CWaitRelease? {
      TakingReleaseKeepsMessages(c, s, ok);
    } else {
      LaterChildMoves(c, s, ok);
      LaterChildKeepsMessages(c, s, ChildRuns(c, s, ok).value.at.child);
    }
  }

  lemma ChildRunsKeepsLive(c: Config, s: State, ok: bool)
    requires Live(c, s) && ChildRuns(c, s, ok).Some?
    ensures Live(c, ChildRuns(c, s, ok).value)
  {
    ChildRunsKeepsSafe(c, s, ok);
    ChildRunsAlone(c, s, ok);
    ChildRunsKeepsEnds(c, s, ok);
    ChildRunsKeepsMessages(c, s, ok);
  }

  lemma InitPreparesAlone(c: Config, s: State, ok: bool)
    requires InitPrepares(c, s, ok).Some?
    ensures var t := InitPrepares(c, s, ok).value;
            && t.at.parent == s.at.parent && t.at.child == s.at.child
            && t.held.parent == s.held.parent && t.held.child == s.held.child
  {
    match s.at.init {
      case IWaitRelease =>
      case ISetup =>
      case _ =>
    }
  }

  lemma InitPreparesKeepsEnds(c: Config, s: State, ok: bool)
    requires InitEnds(s.at.init, s.held.init) && InitPrepares(c, s, ok).Some?
    ensures InitEnds(InitPrepares(c, s, ok).value.at.init, InitPrepares(c, s, ok).value.held.init)
  {
    match s.at.init {
      case IWaitRelease =>
      case ISetup =>
      case _ =>
    }
  }

  lemma InitPreparesKeepsMessages(c: Config, s: State, ok: bool)
    requires Live(c, s) && InitPrepares(c, s, ok).Some?
    ensures Messages(c, InitPrepares(c, s, ok).value)
  {
    match s.at.init {
      case IWaitRelease =>
      case ISetup =>
      case _ =>
    }
  }

  lemma InitPreparesKeepsLive(c: Config, s: State, ok: bool)
    requires Live(c, s) && InitPrepares(c, s, ok).Some?
    ensures Live(c, InitPrepares(c, s, ok).value)
  {
    InitPreparesKeepsSafe(c, s, ok);
    InitPreparesAlone(c, s, ok);
    InitPreparesKeepsEnds(c, s, ok);
    InitPreparesKeepsMessages(c, s, ok);
  }

  lemma InitRunsKeepsLive(c: Config, s: State, ok: bool)
    requires Live(c, s) && InitRuns(c, s, ok).Some?
    ensures Live(c, InitRuns(c, s, ok).value)
  {
    InitRunsKeepsSafe(c, s, ok);
    match s.at.init {
      case IExec =>
      case _ =>
    }
  }

  lemma WorkRunsKeepsLive(c: Config, s: State, ok: bool)
    requires Live(c, s) && WorkRuns(s, ok).Some?
    ensures Live(c, WorkRuns(s, ok).value)
  {
    WorkRunsKeepsSafe(c, s, ok);
  }

  lemma ParentStepKeepsLive(c: Config, s: State, ok: bool)
    requires Live(c, s) && Next(c, s, ParentStep(ok)).Some?
    ensures Live(c, Next(c, s, ParentStep(ok)).value)
  {
    if Answering(s.at.parent) {
      ParentAnswersKeepsLive(c, s, ok);
    } else if s.at.parent.PWaitReady? {
      ParentMeetsKeepsLive(c, s, ok);
    } else if Recording(s.at.parent) {
      ParentRecordsKeepsLive(c, s, ok);
    } else if Connecting(s.at.parent) {
      ParentConnectsKeepsLive(c, s, ok);
    } else if Guarding(s.at.parent) {
      ParentGuardsKeepsLive(c, s, ok);
    } else if Releasing(s.at.parent) {
      ParentReleasesKeepsLive(c, s, ok);
    } else {
      ParentFailsKeepsLive(c, s, ok);
    }
  }

  lemma ChildStepKeepsLive(c: Config, s: State, ok: bool)
    requires Live(c, s) && Next(c, s, ChildStep(ok)).Some?
    ensures Live(c, Next(c, s, ChildStep(ok)).value)
  {
    if Beginning(s.at.child) {
      ChildBeginsKeepsLive(c, s, ok);
    } else if Mapping(s.at.child) {
      ChildMapsKeepsLive(c, s, ok);
    } else if Reporting(s.at.child) {
      ChildReportsKeepsLive(c, s, ok);
    } else {
      ChildRunsKeepsLive(c, s, ok);
    }
  }

  lemma StepKeepsLive(c: Config, s: State, step: Step)
    requires Live(c, s) && Next(c, s, step).Some?
    ensures Live(c, Next(c, s, step).value)
  {
    match step
    case ParentStep(ok) => ParentStepKeepsLive(c, s, ok);
    case ChildStep(ok) => ChildStepKeepsLive(c, s, ok);
    case InitStep(ok) =>
      if Preparing(s.at.init) {
        InitPreparesKeepsLive(c, s, ok);
      } else {
        InitRunsKeepsLive(c, s, ok);
      }
    case WorkStep(ok) => WorkRunsKeepsLive(c, s, ok);
    case OpenFifo => StepKeepsSafe(c, s, step);
  }

  lemma StepsKeepLive(c: Config)
    ensures Runs.Keeps(Steps(c), s => Live(c, s))
  {
    forall s, t | Live(c, s) && Steps(c)(s, t) ensures Live(c, t) {
      var step :| Next(c, s, step) == Some(t);
      StepKeepsLive(c, s, step);
    }
  }

  lemma RunIsLive(c: Config, run: seq<State>, i: nat)
    requires IsRun(c, run) && i < |run|
    ensures Live(c, run[i])
  {
    StartIsLive(c);
    StepsKeepLive(c);
    Runs.Lasts(Steps(c), s => Live(c, s), run, 0, i);
  }

  // ---------- rest, and how a run gets there ----------

  /** Waiting for nobody: gone, running the workload, supervising it, or blocked on the FIFO for start(). */
  predicate ChildRests(a: Control) {
    match a.child
    case CExited => true
    case CExeced => true
    case CFifo => !a.fifoReader
    case CWaitInit => !a.init.IUnborn? && !a.init.IExited?
    case _ => false
  }

  predicate InitRests(a: Control) {
    match a.init
    case IUnborn => true
    case IExited => true
    case IExeced => true
    case IFifo => !a.fifoReader
    case ISupervise => a.work.WExeced?
    case _ => false
  }

  predicate AtRest(a: Control) {
    Returned(a.parent) && ChildRests(a) && InitRests(a) && !a.work.WExec?
  }

  /** Some process can take a step by itself. */
  predicate CanStep(c: Config, s: State) {
    || Next(c, s, ParentStep(true)).Some?
    || Next(c, s, ChildStep(true)).Some?
    || Next(c, s, InitStep(true)).Some?
    || Next(c, s, WorkStep(true)).Some?
  }

  /** A parent that cannot step is waiting for a child that can. */
  lemma ParentIsNotStuck(c: Config, s: State)
    requires Live(c, s) && !Returned(s.at.parent)
    ensures CanStep(c, s)
  {
    match s.at.parent {
      case PWaitRequest =>
        if s.at.child.CExited? {
          assert !s.held.RequestHasWriter();
        } else {
          assert Asking(s.at.child) || s.unread.request > 0;
        }
      case PWaitReady =>
        if Unreported(s.at.child) {
          assert s.at.child.CWaitAck? ==> s.unread.ack > 0;
        } else if s.log.readyPid.None? {
          assert !s.held.ReadyHasWriter();
        }
      case _ =>
    }
  }

  lemma ChildIsNotStuck(c: Config, s: State)
    requires Live(c, s) && Returned(s.at.parent) && !ChildRests(s.at)
    ensures CanStep(c, s)
  {
    assert !s.held.SetupHasWriter() || s.at.child.CDrop?;
    assert !s.held.AckHasWriter() || s.at.child.CDrop?;
  }

  lemma InitIsNotStuck(c: Config, s: State)
    requires Live(c, s) && Returned(s.at.parent) && ChildRests(s.at) && !InitRests(s.at)
    ensures CanStep(c, s)
  {
    assert !s.held.SetupHasWriter();
  }

  lemma NoDeadlock(c: Config, s: State)
    requires Live(c, s)
    ensures AtRest(s.at) || CanStep(c, s)
  {
    if !Returned(s.at.parent) {
      ParentIsNotStuck(c, s);
    } else if !ChildRests(s.at) {
      ChildIsNotStuck(c, s);
    } else if !InitRests(s.at) {
      InitIsNotStuck(c, s);
    }
  }

  function ParentRank(p: ParentPc): nat {
    match p
    case PDrop => 20 case PWaitRequest => 19 case PWriteMaps => 18 case PSendAck => 17 case PWaitReady => 16
    case PPrepare => 15 case PSaveState => 14 case PPidFile => 13 case PAttach => 12 case PDenyLogger => 11
    case PNetwork => 10 case PEgress => 9 case PBroker => 8 case PRelease => 7 case PReturn => 6 case PCreated => 5
    case PKillTarget => 4 case PKillChild => 3 case PReap => 2 case PClose => 1 case PFailed => 0
  }

  function ChildRank(p: ChildPc): nat {
    match p
    case CDrop => 13 case CStart => 12 case CRequest => 11 case CWaitAck => 10 case CBecomeRoot => 9
    case CNetNs => 8 case CFork => 8 case CNotify => 7 case CWaitRelease => 6 case CSetup => 5 case CFifo => 4
    case CExec => 3 case CWaitInit => 2 case CExeced => 1 case CExited => 0
  }

  function InitRank(p: InitPc): nat {
    match p
    case IUnborn => 7 case IWaitRelease => 6 case ISetup => 5 case IFifo => 4 case IExec => 3
    case ISupervise => 2 case IExeced => 1 case IExited => 0
  }

  function WorkRank(p: WorkPc): nat {
    match p
    case WUnborn => 3 case WExec => 2 case WExeced => 1 case WExited => 0
  }

  /** The steps a run has left, at most. */
  function Measure(a: Control): nat {
    ParentRank(a.parent) + ChildRank(a.child) + InitRank(a.init) + WorkRank(a.work) + if a.fifoReader then 0 else 1
  }

  lemma FailureRunsOut(s: State, ok: bool)
    requires ParentFails(s, ok).Some?
    ensures Measure(ParentFails(s, ok).value.at) < Measure(s.at)
  {
  }

  lemma AnswersRunOut(c: Config, s: State, ok: bool)
    requires ParentAnswers(c, s, ok).Some?
    ensures Measure(ParentAnswers(c, s, ok).value.at) < Measure(s.at)
  {
    match s.at.parent {
      case PDrop =>
      case PWaitRequest =>
      case PWriteMaps =>
      case _ =>
    }
  }

  lemma RecordsRunOut(c: Config, s: State, ok: bool)
    requires ParentRecords(c, s, ok).Some?
    ensures Measure(ParentRecords(c, s, ok).value.at) < Measure(s.at)
  {
    match s.at.parent {
      case PPrepare =>
      case PSaveState =>
      case PPidFile =>
      case _ =>
    }
  }

  lemma ConnectsRunOut(c: Config, s: State, ok: bool)
    requires ParentConnects(c, s, ok).Some?
    ensures Measure(ParentConnects(c, s, ok).value.at) < Measure(s.at)
  {
    match s.at.parent {
      case PDenyLogger =>
      case _ =>
    }
  }

  lemma GuardsRunOut(c: Config, s: State, ok: bool)
    requires ParentGuards(c, s, ok).Some?
    ensures Measure(ParentGuards(c, s, ok).value.at) < Measure(s.at)
  {
    match s.at.parent {
      case PEgress =>
      case _ =>
    }
  }

  lemma ParentStepsRunOut(c: Config, s: State, ok: bool)
    requires Next(c, s, ParentStep(ok)).Some?
    ensures Measure(Next(c, s, ParentStep(ok)).value.at) < Measure(s.at)
  {
    if Answering(s.at.parent) {
      AnswersRunOut(c, s, ok);
    } else if Recording(s.at.parent) {
      RecordsRunOut(c, s, ok);
    } else if Connecting(s.at.parent) {
      ConnectsRunOut(c, s, ok);
    } else if Guarding(s.at.parent) {
      GuardsRunOut(c, s, ok);
    } else if Failing(s.at.parent) {
      FailureRunsOut(s, ok);
    }
  }

  lemma ChildRunsOut(c: Config, s: State, ok: bool)
    requires ChildRuns(c, s, ok).Some?
    ensures Measure(ChildRuns(c, s, ok).value.at) < Measure(s.at)
  {
    match s.at.child {
      case CWaitRelease =>
      case CSetup =>
      case CFifo =>
      case CExec =>
      case _ =>
    }
  }

  lemma ChildStepsRunOut(c: Config, s: State, ok: bool)
    requires (BeforeFork(s.at.child) ==> s.at.init.IUnborn?) && Next(c, s, ChildStep(ok)).Some?
    ensures Measure(Next(c, s, ChildStep(ok)).value.at) < Measure(s.at)
  {
    if Beginning(s.at.child) || Mapping(s.at.child) || Reporting(s.at.child) {
      match s.at.child {
        case CDrop =>
        case CStart =>
        case CRequest =>
        case CWaitAck =>
        case CBecomeRoot =>
        case CNetNs =>
        case CFork =>
        case _ =>
      }
    } else {
      ChildRunsOut(c, s, ok);
    }
  }

  lemma InitStepsRunOut(c: Config, s: State, ok: bool)
    requires (s.at.init.IExec? ==> s.at.work.WUnborn?) && Next(c, s, InitStep(ok)).Some?
    ensures Measure(Next(c, s, InitStep(ok)).value.at) < Measure(s.at)
  {
    match s.at.init {
      case IWaitRelease =>
      case ISetup =>
      case IFifo =>
      case IExec =>
      case _ =>
    }
  }

  lemma StepsRunOut(c: Config, s: State, step: Step)
    requires Safe(c, s) && Next(c, s, step).Some?
    ensures Measure(Next(c, s, step).value.at) < Measure(s.at)
  {
    match step
    case ParentStep(ok) => ParentStepsRunOut(c, s, ok);
    case ChildStep(ok) => ChildStepsRunOut(c, s, ok);
    case InitStep(ok) => InitStepsRunOut(c, s, ok);
    case WorkStep(ok) =>
    case OpenFifo =>
  }

  lemma StepsShrink(c: Config, s: State, t: State)
    requires Safe(c, s) && Steps(c)(s, t)
    ensures Measure(t.at) < Measure(s.at)
  {
    var step :| Next(c, s, step) == Some(t);
    StepsRunOut(c, s, step);
  }

  /** From any safe state on, the steps taken and the steps left stay within the measure there. */
  lemma PathsAreBounded(c: Config, run: seq<State>, i: nat)
    requires Runs.Path(Steps(c), run) && i < |run| && Safe(c, run[0])
    ensures i + Measure(run[i].at) <= Measure(run[0].at)
  {
    StepsKeepSafe(c);
    forall s, t | Safe(c, s) && Steps(c)(s, t) ensures Measure(t.at) < Measure(s.at) {
      StepsShrink(c, s, t);
    }
    Runs.Shrinks(Steps(c), s => Safe(c, s), (s: State) => Measure(s.at), run, i);
  }

  lemma RunsAreBounded(c: Config, run: seq<State>, i: nat)
    requires IsRun(c, run) && i < |run|
    ensures i + Measure(run[i].at) <= 44
  {
    StartIsSafe(c);
    PathsAreBounded(c, run, i);
  }

  /** No run is longer than 45 states, and one that has not come to rest can go on. */
  lemma CreateComesToRest(c: Config, run: seq<State>)
    requires IsRun(c, run)
    ensures |run| <= 45
    ensures AtRest(run[|run| - 1].at) || CanStep(c, run[|run| - 1])
  {
    RunsAreBounded(c, run, |run| - 1);
    RunIsLive(c, run, |run| - 1);
    NoDeadlock(c, run[|run| - 1]);
  }

  /** After a failed setup, rest means that every process is gone and none has run the workload. */
  lemma FailureLeavesNothing(c: Config, run: seq<State>)
    requires IsRun(c, run)
    ensures var s := run[|run| - 1];
            AtRest(s.at) && s.at.parent.PFailed? ==>
              s.at.child.CExited? && (s.at.init.IUnborn? || s.at.init.IExited?) && s.at.work.WUnborn? && s.log.executor.None?
  {
    RunIsLive(c, run, |run| - 1);
  }

  /** A failed setup kills the process that was reported to it. */
  lemma FailureKillsTarget(c: Config, run: seq<State>, i: nat)
    requires IsRun(c, run) && i < |run|
    requires Failing(run[i].at.parent) && !run[i].at.parent.PKillTarget? && run[i].log.setup.target.Some?
    ensures if Target(c).Init? then run[i].at.init.IExited? else run[i].at.child.CExited?
  {
    RunIsLive(c, run, i);
  }

  /**
   After a successful one, once start() has opened the FIFO of a deferred native start,
   rest means that the workload or runsc was exec'd, or its process ended before that.
   */
  lemma SuccessIsDelivered(c: Config, run: seq<State>)
    requires IsRun(c, run)
    ensures var s := run[|run| - 1];
            AtRest(s.at) && s.at.parent.PCreated? && (c.deferred && !c.gvisor ==> s.at.fifoReader) ==>
              || s.log.executor.Some?
              || (if Target(c).Init? then s.at.init.IExited? || s.at.work.WExited? else s.at.child.CExited?)
  {
    RunIsLive(c, run, |run| - 1);
  }

  /** Until then the target waits at the FIFO, or has ended; only a deferred native start waits there. */
  lemma StartIsAwaited(c: Config, run: seq<State>)
    requires IsRun(c, run)
    ensures var s := run[|run| - 1];
            AtRest(s.at) && s.at.parent.PCreated? && s.log.executor.None? ==>
              if Target(c).Init? then s.at.init.IExited? || s.at.work.WExited? || (s.at.init.IFifo? && c.deferred && !s.at.fifoReader)
              else s.at.child.CExited? || (s.at.child.CFifo? && c.deferred && !c.gvisor && !s.at.fifoReader)
  {
    RunIsLive(c, run, |run| - 1);
  }
}
