/**
 The create phase when the child, PID 1 or the workload is killed from outside, any
 number of times and at any moments.  Safety survives it.  Progress survives it unless
 the child is killed between the birth of PID 1 and the report of its number: then the
 parent waits for a report that PID 1's inherited pipe end keeps open, and PID 1 waits
 for the parent, until PID 1 is killed as well.
 */
module HandshakeKills {
  import opened Common
  import opened Handshake
  import opened HandshakeProgress
  import Runs

  // ---------- runs with kills in them ----------

  datatype Move = Take(step: Step) | KillsChild | KillsInit | KillsWork

  function KillWork(s: State): State {
    if s.at.work.WUnborn? then s else s.WorkAt(WExited)
  }

  function Do(c: Config, s: State, move: Move): Option<State> {
    match move
    case Take(step) => Next(c, s, step)
    case KillsChild => Some(KillChild(s))
    case KillsInit => Some(KillInit(s))
    case KillsWork => Some(KillWork(s))
  }

  predicate Linked(c: Config, run: seq<State>, moves: seq<Move>, i: nat)
    requires i < |moves| && |run| == |moves| + 1
  {
    Do(c, run[i], moves[i]) == Some(run[i + 1])
  }

  /** Any interleaving of the processes' steps with kills from outside. */
  ghost predicate IsKilledRun(c: Config, run: seq<State>, moves: seq<Move>) {
    && |run| == |moves| + 1 && run[0] == Start(c)
    && forall i: nat :: i < |moves| ==> Linked(c, run, moves, i)
  }

  // ---------- safety ----------

  lemma KillChildKeepsSafe(c: Config, s: State)
    requires Safe(c, s)
    ensures Safe(c, KillChild(s))
  {
  }

  lemma KillInitKeepsSafe(c: Config, s: State)
    requires Safe(c, s)
    ensures Safe(c, KillInit(s))
  {
  }

  lemma KillsKeepSafe(c: Config, s: State)
    requires Safe(c, s)
    ensures Safe(c, KillChild(s)) && Safe(c, KillInit(s)) && Safe(c, KillWork(s))
  {
    KillChildKeepsSafe(c, s);
    KillInitKeepsSafe(c, s);
  }

  lemma MoveKeepsSafe(c: Config, s: State, move: Move)
    requires Safe(c, s) && Do(c, s, move).Some?
    ensures Safe(c, Do(c, s, move).value)
  {
    if move.Take? {
      StepKeepsSafe(c, s, move.step);
    } else {
      KillsKeepSafe(c, s);
    }
  }

  lemma {:induction false} KilledRunIsSafe(c: Config, run: seq<State>, moves: seq<Move>, i: nat)
    requires IsKilledRun(c, run, moves) && i < |run|
    ensures Safe(c, run[i])
  {
    if i == 0 {
      StartIsSafe(c);
    } else {
      KilledRunIsSafe(c, run, moves, i - 1);
      assert Linked(c, run, moves, i - 1);
      MoveKeepsSafe(c, run[i - 1], moves[i - 1]);
    }
  }

  lemma MoveIsCleared(c: Config, s: State, move: Move)
    requires Safe(c, s) && Do(c, s, move).Some?
    requires Do(c, s, move).value.log.executor != s.log.executor
    ensures s.log.executor.None?
    ensures Do(c, s, move).value.log.executor.Some?
    ensures Cleared(c, s, Do(c, s, move).value.log.executor.value)
  {
    match move {
      case Take(step) => ExecIsCleared(c, s, step);
      case KillsChild =>
      case KillsInit =>
      case KillsWork =>
    }
  }

  /** Whatever is killed, the workload is still exec'd once, and only by a process that is cleared beforehand. */
  lemma ExecOnlyAfterSetupDespiteKills(c: Config, run: seq<State>, moves: seq<Move>, i: nat)
    requires IsKilledRun(c, run, moves) && i < |moves|
    requires run[i + 1].log.executor != run[i].log.executor
    ensures run[i].log.executor.None?
    ensures run[i + 1].log.executor.Some?
    ensures Cleared(c, run[i], run[i + 1].log.executor.value)
  {
    KilledRunIsSafe(c, run, moves, i);
    assert Linked(c, run, moves, i);
    MoveIsCleared(c, run[i], moves[i]);
  }

  lemma MoveKeepsFailing(c: Config, s: State, move: Move)
    requires Do(c, s, move).Some? && Failing(s.at.parent)
    ensures Failing(Do(c, s, move).value.at.parent)
  {
    if move.Take? {
      FailingStays(c, s, move.step);
    }
  }

  lemma {:induction false} FailureOrExecLasts(c: Config, run: seq<State>, moves: seq<Move>, i: nat, j: nat)
    requires IsKilledRun(c, run, moves) && i <= j < |run|
    ensures Failing(run[i].at.parent) ==> Failing(run[j].at.parent)
    ensures run[i].log.executor.Some? ==> run[j].log.executor.Some?
  {
    if i < j {
      FailureOrExecLasts(c, run, moves, i, j - 1);
      assert Linked(c, run, moves, j - 1);
      if Failing(run[j - 1].at.parent) {
        MoveKeepsFailing(c, run[j - 1], moves[j - 1]);
      }
      if run[j].log.executor != run[j - 1].log.executor {
        ExecOnlyAfterSetupDespiteKills(c, run, moves, j - 1);
      }
    }
  }

  /** Whatever is killed, an error of the parent's setup still means that nothing is ever exec'd. */
  lemma FailureRunsNothingDespiteKills(c: Config, run: seq<State>, moves: seq<Move>, i: nat, j: nat)
    requires IsKilledRun(c, run, moves) && i < |run| && j < |run| && Failing(run[i].at.parent)
    ensures run[j].log.executor.None?
  {
    var k := if i < j then j else i;
    FailureOrExecLasts(c, run, moves, i, k);
    FailureOrExecLasts(c, run, moves, j, k);
    KilledRunIsSafe(c, run, moves, k);
  }

  // ---------- progress ----------

  /** What kills cannot break. */
  predicate Core(c: Config, s: State) {
    Safe(c, s) && HoldsEnds(s.at, s.held) && CoreMessages(c, s)
  }

  /** The parent waits, or is about to wait, for a report that nobody will send; PID 1 waits for the parent. */
  predicate Orphaned(c: Config, s: State) {
    && s.at.child.CExited? && s.at.init.IWaitRelease? && s.at.work.WUnborn?
    && (s.at.parent.PWaitReady? || (s.at.parent.PDrop? && !ParentMaps(c)))
    && s.log.readyPid.None?
    && s.unread.ready == 0 && s.held.init.readyWrite
    && s.unread.setup == 0 && s.held.parent.setupWrite
  }

  /** PID 1 is born and alive, but its PID has not been reported yet. */
  predicate Unannounced(c: Config, a: Control) {
    a.child.CNotify? && Target(c).Init? && a.init.IWaitRelease? && Unmet(a.parent)
  }

  /** The core fails to be live in this one way only. */
  lemma LiveOrOrphaned(c: Config, s: State)
    requires Core(c, s)
    ensures Live(c, s) <==> !Orphaned(c, s)
  {
  }

  lemma KillsKeepCore(c: Config, s: State)
    requires Core(c, s)
    ensures Core(c, KillChild(s)) && Core(c, KillInit(s)) && Core(c, KillWork(s))
  {
    KillsKeepSafe(c, s);
    KillsKeepEnds(s);
  }

  /** Killing the child orphans PID 1 exactly when it falls between birth and report; killing PID 1 ends the wait. */
  lemma KillOrphans(c: Config, s: State)
    requires Core(c, s)
    ensures Orphaned(c, KillChild(s)) <==> Orphaned(c, s) || Unannounced(c, s.at)
    ensures !Orphaned(c, KillInit(s))
    ensures Orphaned(c, KillWork(s)) <==> Orphaned(c, s)
  {
  }

  /** Nothing but the parent's last move and an idle FIFO reader is left to happen. */
  lemma OrphanedStays(c: Config, s: State, step: Step)
    requires Orphaned(c, s) && Next(c, s, step).Some?
    ensures Orphaned(c, Next(c, s, step).value)
    ensures step == OpenFifo || (step == ParentStep(true) && s.at.parent.PDrop?)
  {
    match step {
      case ParentStep(ok) =>
      case ChildStep(ok) =>
      case InitStep(ok) =>
      case WorkStep(ok) =>
      case OpenFifo =>
    }
  }

  lemma OrphanedKeepsCore(c: Config, s: State, step: Step)
    requires Core(c, s) && Orphaned(c, s) && Next(c, s, step).Some?
    ensures Core(c, Next(c, s, step).value)
  {
    StepKeepsSafe(c, s, step);
    OrphanedStays(c, s, step);
  }

  /** Steps of the processes neither orphan PID 1 nor end its wait. */
  lemma StepKeepsCore(c: Config, s: State, step: Step)
    requires Core(c, s) && Next(c, s, step).Some?
    ensures Core(c, Next(c, s, step).value)
    ensures Orphaned(c, Next(c, s, step).value) <==> Orphaned(c, s)
  {
    LiveOrOrphaned(c, s);
    if Orphaned(c, s) {
      OrphanedKeepsCore(c, s, step);
      OrphanedStays(c, s, step);
    } else {
      StepKeepsLive(c, s, step);
      LiveOrOrphaned(c, Next(c, s, step).value);
    }
  }

  lemma MoveKeepsCore(c: Config, s: State, move: Move)
    requires Core(c, s) && Do(c, s, move).Some?
    ensures Core(c, Do(c, s, move).value)
  {
    if move.Take? {
      StepKeepsCore(c, s, move.step);
    } else {
      KillsKeepCore(c, s);
    }
  }

  lemma {:induction false} KilledRunKeepsCore(c: Config, run: seq<State>, moves: seq<Move>, i: nat)
    requires IsKilledRun(c, run, moves) && i < |run|
    ensures Core(c, run[i])
  {
    if i == 0 {
      StartIsLive(c);
    } else {
      KilledRunKeepsCore(c, run, moves, i - 1);
      assert Linked(c, run, moves, i - 1);
      MoveKeepsCore(c, run[i - 1], moves[i - 1]);
    }
  }

  /** The kill at `i` fell on an unreported PID 1, which was not killed after that and before `n`. */
  predicate OrphaningKill(c: Config, run: seq<State>, moves: seq<Move>, i: nat, n: nat)
    requires i < n <= |moves| && |run| == |moves| + 1
  {
    && moves[i].KillsChild? && Unannounced(c, run[i].at)
    && forall j :: i < j < n ==> !moves[j].KillsInit?
  }

  ghost predicate WasOrphaned(c: Config, run: seq<State>, moves: seq<Move>, n: nat)
    requires n <= |moves| && |run| == |moves| + 1
  {
    exists i: nat :: i < n && OrphaningKill(c, run, moves, i, n)
  }

  lemma OneMoreMove(c: Config, run: seq<State>, moves: seq<Move>, n: nat)
    requires n < |moves| && |run| == |moves| + 1
    ensures WasOrphaned(c, run, moves, n + 1) <==>
            (moves[n].KillsChild? && Unannounced(c, run[n].at)) || (WasOrphaned(c, run, moves, n) && !moves[n].KillsInit?)
  {
    if moves[n].KillsChild? && Unannounced(c, run[n].at) {
      assert OrphaningKill(c, run, moves, n, n + 1);
    }
    if WasOrphaned(c, run, moves, n) && !moves[n].KillsInit? {
      var i: nat :| i < n && OrphaningKill(c, run, moves, i, n);
      assert OrphaningKill(c, run, moves, i, n + 1);
    }
    if WasOrphaned(c, run, moves, n + 1) {
      var i: nat :| i < n + 1 && OrphaningKill(c, run, moves, i, n + 1);
      if i < n {
        assert !moves[n].KillsInit?;
        assert OrphaningKill(c, run, moves, i, n);
      }
    }
  }

  lemma MoveOrphans(c: Config, s: State, move: Move)
    requires Core(c, s) && Do(c, s, move).Some?
    ensures Orphaned(c, Do(c, s, move).value) <==>
            (move.KillsChild? && Unannounced(c, s.at)) || (Orphaned(c, s) && !move.KillsInit?)
  {
    KillOrphans(c, s);
    if move.Take? {
      StepKeepsCore(c, s, move.step);
    }
  }

  /** The two wait for each other exactly after such a kill. */
  lemma {:induction false} OrphanedExactly(c: Config, run: seq<State>, moves: seq<Move>, n: nat)
    requires IsKilledRun(c, run, moves) && n < |run|
    ensures Orphaned(c, run[n]) <==> WasOrphaned(c, run, moves, n)
  {
    if n > 0 {
      OrphanedExactly(c, run, moves, n - 1);
      KilledRunKeepsCore(c, run, moves, n - 1);
      assert Linked(c, run, moves, n - 1);
      MoveOrphans(c, run[n - 1], moves[n - 1]);
      OneMoreMove(c, run, moves, n - 1);
    }
  }

  /** Once no process can go on, a run is at rest if and only if no kill has left PID 1 orphaned. */
  lemma KilledRunComesToRest(c: Config, run: seq<State>, moves: seq<Move>)
    requires IsKilledRun(c, run, moves) && !CanStep(c, run[|moves|])
    ensures AtRest(run[|moves|].at) <==> !WasOrphaned(c, run, moves, |moves|)
  {
    KilledRunKeepsCore(c, run, moves, |moves|);
    OrphanedExactly(c, run, moves, |moves|);
    LiveOrOrphaned(c, run[|moves|]);
    if !Orphaned(c, run[|moves|]) {
      NoDeadlock(c, run[|moves|]);
    }
  }

  /** The steps among the moves; kills take none. */
  function StepsIn(moves: seq<Move>): nat {
    if moves == [] then 0
    else StepsIn(moves[..|moves| - 1]) + if moves[|moves| - 1].Take? then 1 else 0
  }

  lemma MoveShrinks(c: Config, s: State, move: Move)
    requires Safe(c, s) && Do(c, s, move).Some?
    ensures Measure(Do(c, s, move).value.at) + (if move.Take? then 1 else 0) <= Measure(s.at)
  {
    if move.Take? {
      StepsRunOut(c, s, move.step);
    }
  }

  /** However often processes are killed, they take at most 44 steps. */
  lemma {:induction false} KilledRunIsBounded(c: Config, run: seq<State>, moves: seq<Move>, n: nat)
    requires IsKilledRun(c, run, moves) && n < |run|
    ensures StepsIn(moves[..n]) + Measure(run[n].at) <= 44
  {
    if n > 0 {
      KilledRunIsBounded(c, run, moves, n - 1);
      KilledRunIsSafe(c, run, moves, n - 1);
      assert Linked(c, run, moves, n - 1);
      MoveShrinks(c, run[n - 1], moves[n - 1]);
      assert moves[..n][..n - 1] == moves[..n - 1];
    } else {
      assert moves[..0] == [];
    }
  }

  /** An orphaned PID 1 is no rest, and the parent's next move at most is left before nobody can go on. */
  lemma OrphanedIsStuck(c: Config, s: State)
    requires Orphaned(c, s)
    ensures !AtRest(s.at)
    ensures s.at.parent.PWaitReady? ==> !CanStep(c, s)
    ensures s.at.parent.PDrop? ==> Next(c, s, ParentStep(true)).Some? && Next(c, s, ParentStep(true)).value.at.parent.PWaitReady?
  {
  }

  // ---------- the moment exists ----------

  lemma Extend(c: Config, run: seq<State>, step: Step) returns (longer: seq<State>)
    requires IsRun(c, run) && Next(c, run[|run| - 1], step).Some?
    ensures IsRun(c, longer) && longer[|longer| - 1] == Next(c, run[|run| - 1], step).value
  {
    longer := run + [Next(c, run[|run| - 1], step).value];
    forall i: nat | i + 1 < |longer| ensures Runs.Linked(Steps(c), longer, i) {
      if i + 1 < |run| {
        assert Runs.Linked(Steps(c), run, i);
      } else {
        assert Next(c, longer[i], step) == Some(longer[i + 1]);
      }
    }
  }

  lemma BothDrop(c: Config) returns (run: seq<State>)
    ensures IsRun(c, run)
    ensures var s := run[|run| - 1];
            && s.at == Control(if ParentMaps(c) then PWaitRequest else PWaitReady, CStart, IUnborn, WUnborn, false)
            && s.held == Holders(ParentKeeps(Start(c).held.parent), ChildKeeps(Start(c).held.child), CLOSED)
            && s.unread == Unread(0, 0, 0, 0)
  {
    run := [Start(c)];
    run := Extend(c, run, ParentStep(true));
    run := Extend(c, run, ChildStep(true));
  }

  lemma MapsAreExchanged(c: Config) returns (run: seq<State>)
    requires !c.gvisor && c.pidNs && c.userNs
    ensures IsRun(c, run) && run[|run| - 1].at == Control(PWaitReady, CFork, IUnborn, WUnborn, false)
  {
    run := BothDrop(c);
    run := Extend(c, run, ChildStep(true));
    run := Extend(c, run, ChildStep(true));
    run := Extend(c, run, ParentStep(true));
    run := Extend(c, run, ParentStep(true));
    run := Extend(c, run, ParentStep(true));
    run := Extend(c, run, ChildStep(true));
    run := Extend(c, run, ChildStep(true));
  }

  /** Every native configuration with a PID namespace has a run to that moment. */
  lemma UnannouncedIsReachable(c: Config) returns (run: seq<State>)
    ensures IsRun(c, run)
    ensures Unannounced(c, run[|run| - 1].at) <==> !c.gvisor && c.pidNs
  {
    run := BothDrop(c);
    if !c.gvisor && c.pidNs {
      if c.userNs {
        run := MapsAreExchanged(c);
      } else {
        run := Extend(c, run, ChildStep(true));
      }
      run := Extend(c, run, ChildStep(true));
    }
  }
}
