/**
 The create phase when nothing goes wrong.  If every call succeeds, no process ends and
 the parent does not fail, in any interleaving; once no process can go on, and start()
 has opened the FIFO of a deferred native start, the workload or runsc has been exec'd.
 And such a run exists for every configuration.
 */
module HandshakeSuccess {
  import opened Common
  import opened Handshake
  import opened HandshakeProgress
  import Runs

  /** A step in which no call fails. */
  predicate Succeeds(step: Step) {
    match step
    case ParentStep(ok) => ok
    case ChildStep(ok) => ok
    case InitStep(ok) => ok
    case WorkStep(ok) => ok
    case OpenFifo => true
  }

  ghost predicate GoodFollows(c: Config, s: State, t: State) {
    exists step :: Succeeds(step) && Next(c, s, step) == Some(t)
  }

  ghost function GoodSteps(c: Config): (State, State) -> bool {
    (s, t) => GoodFollows(c, s, t)
  }

  ghost predicate IsGoodRun(c: Config, run: seq<State>) {
    Runs.Path(GoodSteps(c), run) && run[0] == Start(c)
  }

  /** The pipe ends a process needs later are still open. */
  predicate ParentReady(c: Config, p: ParentPc, e: Ends) {
    !Returned(p) ==> e.readyRead && e.setupWrite && (ParentMaps(c) ==> e.requestRead && e.ackWrite)
  }

  predicate ChildReady(c: Config, p: ChildPc, e: Ends) {
    !Gone(p) ==> e.setupRead && (ParentMaps(c) ==> e.ackRead && e.requestWrite)
  }

  predicate InitReady(p: InitPc, e: Ends) {
    p.IWaitRelease? ==> e.setupRead
  }

  predicate AllReady(c: Config, s: State) {
    ParentReady(c, s.at.parent, s.held.parent) && ChildReady(c, s.at.child, s.held.child) && InitReady(s.at.init, s.held.init)
  }

  predicate NoneEnded(a: Control) {
    !Failing(a.parent) && !a.child.CExited? && !a.init.IExited? && !a.work.WExited?
  }

  predicate Good(c: Config, s: State) {
    Live(c, s) && AllReady(c, s) && NoneEnded(s.at)
  }

  lemma StartIsGood(c: Config)
    ensures Good(c, Start(c))
  {
    StartIsLive(c);
  }

  lemma AnswersStaysGood(c: Config, s: State)
    requires Good(c, s) && ParentAnswers(c, s, true).Some?
    ensures AllReady(c, ParentAnswers(c, s, true).value) && NoneEnded(ParentAnswers(c, s, true).value.at)
  {
    match s.at.parent {
      case PDrop =>
      case PWaitRequest =>
      case PWriteMaps =>
      case _ =>
    }
  }

  lemma MeetsStaysGood(c: Config, s: State)
    requires Good(c, s) && ParentMeets(s, true).Some?
    ensures AllReady(c, ParentMeets(s, true).value) && NoneEnded(ParentMeets(s, true).value.at)
  {
  }

  lemma RecordsStaysGood(c: Config, s: State)
    requires Good(c, s) && ParentRecords(c, s, true).Some?
    ensures AllReady(c, ParentRecords(c, s, true).value) && NoneEnded(ParentRecords(c, s, true).value.at)
  {
    match s.at.parent {
      case PPrepare =>
      case PSaveState =>
      case PPidFile =>
      case _ =>
    }
  }

  lemma ConnectsStaysGood(c: Config, s: State)
    requires Good(c, s) && ParentConnects(c, s, true).Some?
    ensures AllReady(c, ParentConnects(c, s, true).value) && NoneEnded(ParentConnects(c, s, true).value.at)
  {
    match s.at.parent {
      case PDenyLogger =>
      case _ =>
    }
  }

  lemma GuardsStaysGood(c: Config, s: State)
    requires Good(c, s) && ParentGuards(c, s, true).Some?
    ensures AllReady(c, ParentGuards(c, s, true).value) && NoneEnded(ParentGuards(c, s, true).value.at)
  {
    match s.at.parent {
      case PEgress =>
      case _ =>
    }
  }

  lemma ReleasesStaysGood(c: Config, s: State)
    requires Good(c, s) && ParentReleases(s, true).Some?
    ensures AllReady(c, ParentReleases(s, true).value) && NoneEnded(ParentReleases(s, true).value.at)
  {
    match s.at.parent {
      case PRelease =>
      case _ =>
    }
  }

  lemma ParentStaysGood(c: Config, s: State)
    requires Good(c, s) && Next(c, s, ParentStep(true)).Some?
    ensures AllReady(c, Next(c, s, ParentStep(true)).value) && NoneEnded(Next(c, s, ParentStep(true)).value.at)
  {
    if Answering(s.at.parent) {
      AnswersStaysGood(c, s);
    } else if s.at.parent.PWaitReady? {
      MeetsStaysGood(c, s);
    } else if Recording(s.at.parent) {
      RecordsStaysGood(c, s);
    } else if Connecting(s.at.parent) {
      ConnectsStaysGood(c, s);
    } else if Guarding(s.at.parent) {
      GuardsStaysGood(c, s);
    } else if Releasing(s.at.parent) {
      ReleasesStaysGood(c, s);
    }
  }

  lemma ChildStaysGood(c: Config, s: State)
    requires Good(c, s) && Next(c, s, ChildStep(true)).Some?
    ensures AllReady(c, Next(c, s, ChildStep(true)).value) && NoneEnded(Next(c, s, ChildStep(true)).value.at)
  {
    match s.at.child {
      case CDrop =>
      case CStart =>
      case CRequest =>
      case CWaitAck =>
      case CBecomeRoot =>
      case CNetNs =>
      case CFork =>
      case CNotify =>
      case CWaitRelease =>
      case CSetup =>
      case CFifo =>
      case CExec =>
      case _ =>
    }
  }

  lemma InitStaysGood(c: Config, s: State)
    requires Good(c, s) && Next(c, s, InitStep(true)).Some?
    ensures AllReady(c, Next(c, s, InitStep(true)).value) && NoneEnded(Next(c, s, InitStep(true)).value.at)
  {
    match s.at.init {
      case IWaitRelease =>
      case ISetup =>
      case IFifo =>
      case IExec =>
      case _ =>
    }
  }

  lemma StepStaysGood(c: Config, s: State, step: Step)
    requires Good(c, s) && Succeeds(step) && Next(c, s, step).Some?
    ensures Good(c, Next(c, s, step).value)
  {
    StepKeepsLive(c, s, step);
    match step
    case ParentStep(_) => ParentStaysGood(c, s);
    case ChildStep(_) => ChildStaysGood(c, s);
    case InitStep(_) => InitStaysGood(c, s);
    case WorkStep(_) =>
    case OpenFifo =>
  }

  lemma GoodRunIsGood(c: Config, run: seq<State>, i: nat)
    requires IsGoodRun(c, run) && i < |run|
    ensures Good(c, run[i])
  {
    StartIsGood(c);
    forall s, t | Good(c, s) && GoodSteps(c)(s, t) ensures Good(c, t) {
      var step :| Succeeds(step) && Next(c, s, step) == Some(t);
      StepStaysGood(c, s, step);
    }
    Runs.Lasts(GoodSteps(c), s => Good(c, s), run, 0, i);
  }

  /** start() has opened the FIFO, where one is waited on. */
  predicate Started(c: Config, s: State) {
    c.deferred && !c.gvisor ==> s.at.fifoReader
  }

  lemma RestIsExec(c: Config, s: State)
    requires Good(c, s) && Started(c, s) && !CanStep(c, s)
    ensures s.at.parent.PCreated? && s.log.executor == Some(Runner(c))
  {
    NoDeadlock(c, s);
  }

  /** If every call succeeds, the parent returns the container and the right process execs, in every interleaving. */
  lemma GoodRunExecs(c: Config, run: seq<State>)
    requires IsGoodRun(c, run)
    requires Started(c, run[|run| - 1]) && !CanStep(c, run[|run| - 1])
    ensures run[|run| - 1].at.parent.PCreated? && run[|run| - 1].log.executor == Some(Runner(c))
  {
    GoodRunIsGood(c, run, |run| - 1);
    RestIsExec(c, run[|run| - 1]);
  }

  // ---------- such runs exist ----------

  lemma Extend(c: Config, run: seq<State>, step: Step) returns (longer: seq<State>)
    requires IsGoodRun(c, run) && Succeeds(step) && Next(c, run[|run| - 1], step).Some?
    ensures IsGoodRun(c, longer) && longer[|longer| - 1] == Next(c, run[|run| - 1], step).value
  {
    var s, t := run[|run| - 1], Next(c, run[|run| - 1], step).value;
    assert GoodFollows(c, s, t);
    longer := run + [t];
    forall i: nat | i + 1 < |longer| ensures Runs.Linked(GoodSteps(c), longer, i) {
      if i + 1 < |run| {
        assert Runs.Linked(GoodSteps(c), run, i);
      } else {
        assert longer[i] == s && longer[i + 1] == t;
      }
    }
  }

  /** A step that can be taken now, if there is one. */
  function Pick(c: Config, s: State): Step {
    if Next(c, s, ParentStep(true)).Some? then ParentStep(true)
    else if Next(c, s, ChildStep(true)).Some? then ChildStep(true)
    else if Next(c, s, InitStep(true)).Some? then InitStep(true)
    else if Next(c, s, WorkStep(true)).Some? then WorkStep(true)
    else OpenFifo
  }

  lemma PickGoesOn(c: Config, s: State)
    requires CanStep(c, s) || !Started(c, s)
    ensures Succeeds(Pick(c, s)) && Next(c, s, Pick(c, s)).Some?
  {
  }

  lemma {:induction false} Finish(c: Config, run: seq<State>) returns (longer: seq<State>)
    requires IsGoodRun(c, run)
    ensures IsGoodRun(c, longer) && Started(c, longer[|longer| - 1]) && !CanStep(c, longer[|longer| - 1])
    decreases Measure(run[|run| - 1].at)
  {
    var s := run[|run| - 1];
    if CanStep(c, s) || !Started(c, s) {
      PickGoesOn(c, s);
      GoodRunIsGood(c, run, |run| - 1);
      StepsRunOut(c, s, Pick(c, s));
      longer := Extend(c, run, Pick(c, s));
      longer := Finish(c, longer);
    } else {
      longer := run;
    }
  }

  /** Every configuration has a run that ends with the container created and its workload, or runsc, exec'd. */
  lemma ExecIsReachable(c: Config) returns (run: seq<State>)
    ensures IsGoodRun(c, run)
    ensures run[|run| - 1].at.parent.PCreated? && run[|run| - 1].log.executor == Some(Runner(c))
  {
    run := Finish(c, [Start(c)]);
    GoodRunExecs(c, run);
  }
}
