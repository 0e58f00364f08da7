/**
 Shutting down the signal-forwarding thread.  The thread takes blocked signals
 with sigwait, looks at a stop flag, and passes the signal on; the stopper sets
 the flag, sends that thread a wake-up signal of its own, and joins it.  Signals
 from outside may arrive at any moment, the wake-up signal's number among them.
 */
module SignalForwarding {
  import opened Common

  datatype Signal = SigTerm | SigInt | SigHup | SigQuit | SigUsr1 | SigUsr2 | SigWinch

  const WAKE_UP := SigUsr1

  /** A signal the thread has taken, and whether it was the stopper's. */
  datatype Taken = Taken(signal: Signal, fromStopper: bool)

  /** In sigwait; about to read the flag; about to call kill; ended. */
  datatype ThreadPc = Waiting | Checking(taken: Taken) | Forwarding(taken: Taken) | Ended

  /** Before stop(); after its store; after its wake-up; after its join. */
  datatype StopperPc = Idle | FlagStored | Woken | Joined

  /**
   `pending` holds the signals waiting for the process, of each number at most one, and
   `wake` the one waiting for the thread alone.  The rest is the history: what was sent
   from outside, what of it merged with a pending one, what was passed on to the child,
   and what the thread took but dropped.
   */
  datatype State = State(
    thread: ThreadPc, stopper: StopperPc, flag: bool, pending: set<Signal>, wake: bool,
    sent: multiset<Signal>, merged: multiset<Signal>, forwarded: seq<Taken>, dropped: Option<Taken>, late: nat)

  const START := State(Waiting, Idle, false, {}, false, multiset{}, multiset{}, [], None, 0)

  datatype Step =
    | Arrive(signal: Signal)
    | TakePending(signal: Signal) | TakeWake | Check | Forward
    | StoreFlag | SendWake | Join

  function Next(s: State, step: Step): Option<State> {
    match step
    case Arrive(signal) =>
      Some(s.(sent := s.sent + multiset{signal}, pending := s.pending + {signal},
              merged := if signal in s.pending then s.merged + multiset{signal} else s.merged))
    case TakePending(signal) =>
      if s.thread.Waiting? && signal in s.pending
      then Some(s.(thread := Checking(Taken(signal, false)), pending := s.pending - {signal}))
      else None
    case TakeWake =>
      if s.thread.Waiting? && s.wake then Some(s.(thread := Checking(Taken(WAKE_UP, true)), wake := false)) else None
    case Check =>
      if !s.thread.Checking? then None
      else if s.flag then Some(s.(thread := Ended, dropped := Some(s.thread.taken)))
      else Some(s.(thread := Forwarding(s.thread.taken)))
    case Forward =>
      if s.thread.Forwarding?
      then Some(s.(thread := Waiting, forwarded := s.forwarded + [s.thread.taken], late := if s.flag then s.late + 1 else s.late))
      else None
    case StoreFlag => if s.stopper.Idle? then Some(s.(stopper := FlagStored, flag := true)) else None
    case SendWake =>
      if s.stopper.FlagStored? then Some(s.(stopper := Woken, wake := !s.thread.Ended?)) else None
    case Join => if s.stopper.Woken? && s.thread.Ended? then Some(s.(stopper := Joined)) else None
  }

  /** The state after a list of steps, if each of them was possible. */
  function After(s: State, steps: seq<Step>): Option<State>
    decreases |steps|
  {
    if steps == [] then Some(s)
    else
      match Next(s, steps[0])
      case None => None
      case Some(t) => After(t, steps[1..])
  }

  // ---------- what every step keeps ----------

  function One(t: Taken, signal: Signal): nat {
    if t == Taken(signal, false) then 1 else 0
  }

  /** How many of a number the thread holds that came from outside. */
  function Held(t: ThreadPc, signal: Signal): nat {
    match t
    case Checking(taken) => One(taken, signal)
    case Forwarding(taken) => One(taken, signal)
    case _ => 0
  }

  function Count(taken: seq<Taken>, signal: Signal): nat {
    if taken == [] then 0 else Count(taken[..|taken| - 1], signal) + One(taken[|taken| - 1], signal)
  }

  function Lost(dropped: Option<Taken>, signal: Signal): nat {
    match dropped
    case None => 0
    case Some(taken) => One(taken, signal)
  }

  predicate StopOrder(s: State) {
    && (s.flag <==> !s.stopper.Idle?)
    && (s.wake ==> s.stopper.Woken? || s.stopper.Joined?)
    && (s.thread.Ended? ==> s.flag)
    && (s.stopper.Joined? ==> s.thread.Ended?)
    && (s.stopper.Woken? && s.thread.Waiting? ==> s.wake)
    && (s.stopper.Woken? && s.thread.Forwarding? ==> s.wake)
  }

  predicate WakeStaysHere(s: State) {
    && (s.thread.Checking? && s.thread.taken.fromStopper ==> s.flag)
    && (s.thread.Forwarding? ==> !s.thread.taken.fromStopper)
    && (forall t <- s.forwarded :: !t.fromStopper)
  }

  predicate FewLate(s: State) {
    && (!s.flag ==> s.late == 0)
    && s.late + (if s.thread.Forwarding? then 1 else 0) <= 1
    && (s.dropped.Some? <==> s.thread.Ended?)
  }

  /** Every signal from outside is waiting, in hand, passed on, merged or dropped. */
  predicate Accounted(s: State, signal: Signal) {
    s.sent[signal] ==
    s.merged[signal] + (if signal in s.pending then 1 else 0)
    + Held(s.thread, signal) + Count(s.forwarded, signal) + Lost(s.dropped, signal)
  }

  predicate NothingLost(s: State) {
    forall signal :: Accounted(s, signal)
  }

  predicate Controlled(s: State) {
    StopOrder(s) && WakeStaysHere(s) && FewLate(s)
  }

  /** A signal that was sent is still around in one way that is not merging. */
  predicate Around(s: State, signal: Signal) {
    s.sent[signal] > 0 ==>
      signal in s.pending || Held(s.thread, signal) > 0 || Count(s.forwarded, signal) > 0 || Lost(s.dropped, signal) > 0
  }

  predicate Invariant(s: State) {
    Controlled(s) && NothingLost(s) && forall signal :: Around(s, signal)
  }

  lemma StepKeepsControl(s: State, step: Step)
    requires Controlled(s) && Next(s, step).Some?
    ensures Controlled(Next(s, step).value)
  {
    match step {
      case Check =>
      case Forward =>
      case _ =>
    }
  }

  lemma CountAppend(ts: seq<Taken>, t: Taken, signal: Signal)
    ensures Count(ts + [t], signal) == Count(ts, signal) + One(t, signal)
  {
    assert (ts + [t])[..|ts|] == ts;
  }

  lemma ArrivalIsCounted(s: State, arrived: Signal, signal: Signal)
    requires Accounted(s, signal)
    ensures Accounted(Next(s, Arrive(arrived)).value, signal)
  {
  }

  lemma TakeIsCounted(s: State, taken: Signal, signal: Signal)
    requires Accounted(s, signal) && s.thread.Waiting? && taken in s.pending
    ensures Accounted(s.(thread := Checking(Taken(taken, false)), pending := s.pending - {taken}), signal)
  {
  }

  lemma CheckIsCounted(s: State, signal: Signal)
    requires Accounted(s, signal) && s.thread.Checking? && s.dropped.None?
    ensures Accounted(s.(thread := Ended, dropped := Some(s.thread.taken)), signal)
    ensures Accounted(s.(thread := Forwarding(s.thread.taken)), signal)
  {
  }

  lemma ForwardIsCounted(s: State, signal: Signal, late: nat)
    requires Accounted(s, signal) && s.thread.Forwarding?
    ensures Accounted(s.(thread := Waiting, forwarded := s.forwarded + [s.thread.taken], late := late), signal)
  {
    CountAppend(s.forwarded, s.thread.taken, signal);
  }

  lemma StepKeepsAccount(s: State, step: Step, signal: Signal)
    requires Controlled(s) && Accounted(s, signal) && Next(s, step).Some?
    ensures Accounted(Next(s, step).value, signal)
  {
    match step {
      case Arrive(arrived) => ArrivalIsCounted(s, arrived, signal);
      case TakePending(taken) => TakeIsCounted(s, taken, signal);
      case Check => CheckIsCounted(s, signal);
      case Forward => ForwardIsCounted(s, signal, if s.flag then s.late + 1 else s.late);
      case _ =>
    }
  }

  lemma StepKeepsAround(s: State, step: Step, signal: Signal)
    requires Controlled(s) && Around(s, signal) && Next(s, step).Some?
    ensures Around(Next(s, step).value, signal)
  {
    if step.Forward? && s.thread.Forwarding? {
      CountAppend(s.forwarded, s.thread.taken, signal);
    }
  }

  lemma {:induction false} RunKeepsInvariant(s: State, steps: seq<Step>)
    requires Invariant(s) && After(s, steps).Some?
    ensures Invariant(After(s, steps).value)
    decreases |steps|
  {
    if steps != [] {
      StepKeepsControl(s, steps[0]);
      forall signal ensures Accounted(Next(s, steps[0]).value, signal) {
        StepKeepsAccount(s, steps[0], signal);
      }
      forall signal ensures Around(Next(s, steps[0]).value, signal) {
        StepKeepsAround(s, steps[0], signal);
      }
      RunKeepsInvariant(Next(s, steps[0]).value, steps[1..]);
    }
  }

  // ---------- over every interleaving ----------

  /**
   The wake-up is never passed on to the child, at most one signal is after the flag is
   set, and each signal sent from outside is accounted for.
   */
  lemma ForwardingIsFaithful(steps: seq<Step>)
    requires After(START, steps).Some?
    ensures var s := After(START, steps).value;
            && (forall t <- s.forwarded :: !t.fromStopper)
            && s.late <= 1 && (s.dropped.Some? ==> s.flag)
            && NothingLost(s)
  {
    RunKeepsInvariant(START, steps);
  }

  /** A pending signal can be passed on as long as the flag is not set, and that is what its steps do. */
  lemma PendingIsPassedOn(s: State, signal: Signal)
    requires s.thread.Waiting? && signal in s.pending && !s.flag
    ensures var after := After(s, [TakePending(signal), Check, Forward]);
            && after.Some?
            && after.value.forwarded == s.forwarded + [Taken(signal, false)]
            && after.value.pending == s.pending - {signal} && after.value.thread.Waiting? && after.value.dropped == s.dropped
  {
    var one := Next(s, TakePending(signal)).value;
    var two := Next(one, Check).value;
    var three := Next(two, Forward).value;
    var steps := [TakePending(signal), Check, Forward];
    assert steps[1..] == [Check, Forward] && steps[1..][1..] == [Forward] && steps[1..][1..][1..] == [];
    assert After(three, []) == Some(three);
    assert After(two, [Forward]) == Some(three);
    assert After(one, [Check, Forward]) == Some(three);
  }

  /** Of the signals of one number that were sent, at least one is not merged away. */
  lemma OneIsNotMerged(steps: seq<Step>, signal: Signal)
    requires After(START, steps).Some?
    ensures var s := After(START, steps).value;
            s.sent[signal] > 0 ==> s.merged[signal] < s.sent[signal]
  {
    RunKeepsInvariant(START, steps);
    var s := After(START, steps).value;
    assert Accounted(s, signal) && Around(s, signal);
  }

  /** Once the thread waits with nothing pending, every number that was sent has been passed on to the child. */
  lemma WaitingMeansPassedOn(steps: seq<Step>, signal: Signal)
    requires After(START, steps).Some?
    requires After(START, steps).value.thread.Waiting? && signal !in After(START, steps).value.pending
    ensures var s := After(START, steps).value;
            && Count(s.forwarded, signal) + s.merged[signal] == s.sent[signal]
            && (s.sent[signal] > 0 ==> Taken(signal, false) in s.forwarded)
  {
    RunKeepsInvariant(START, steps);
    var s := After(START, steps).value;
    assert Accounted(s, signal) && Around(s, signal);
    CountedIsThere(s.forwarded, signal);
  }

  lemma {:induction false} CountedIsThere(taken: seq<Taken>, signal: Signal)
    ensures Count(taken, signal) > 0 ==> Taken(signal, false) in taken
  {
    if taken != [] {
      CountedIsThere(taken[..|taken| - 1], signal);
    }
  }

  /** Signals merge only with one of the same number that is already waiting. */
  lemma MergingMeans(s: State, step: Step)
    requires Next(s, step).Some?
    ensures Next(s, step).value.merged ==
            if step.Arrive? && step.signal in s.pending then s.merged + multiset{step.signal} else s.merged
    ensures Next(s, step).value.sent == if step.Arrive? then s.sent + multiset{step.signal} else s.sent
    ensures Next(s, step).value.late == s.late + if s.flag && |Next(s, step).value.forwarded| > |s.forwarded| then 1 else 0
  {
  }

  lemma {:induction false} EndedIsSilent(s: State, steps: seq<Step>)
    requires s.thread.Ended? && After(s, steps).Some?
    ensures After(s, steps).value.forwarded == s.forwarded
    decreases |steps|
  {
    if steps != [] {
      EndedIsSilent(Next(s, steps[0]).value, steps[1..]);
    }
  }

  lemma {:induction false} AfterAppend(s: State, steps: seq<Step>, more: seq<Step>)
    requires After(s, steps).Some?
    ensures After(s, steps + more) == After(After(s, steps).value, more)
    decreases |steps|
  {
    if steps == [] {
      assert steps + more == more;
    } else {
      assert (steps + more)[1..] == steps[1..] + more;
      AfterAppend(Next(s, steps[0]).value, steps[1..], more);
    }
  }

  /** Once stop() has returned, nothing more is passed on, whatever happens then. */
  lemma SilentAfterStop(steps: seq<Step>, more: seq<Step>)
    requires After(START, steps).Some? && After(START, steps).value.stopper.Joined?
    ensures After(START, steps + more).Some? ==>
              After(START, steps + more).value.forwarded == After(START, steps).value.forwarded
  {
    RunKeepsInvariant(START, steps);
    AfterAppend(START, steps, more);
    var s := After(START, steps).value;
    if After(s, more).Some? {
      EndedIsSilent(s, more);
    }
  }

  // ---------- stop() terminates ----------

  /** The steps of the thread and the stopper that stop() still has to wait for, at most. */
  function Remaining(s: State): nat {
    (match s.thread case Forwarding(_) => 3 case Waiting => 2 case Checking(_) => 1 case Ended => 0)
    + (match s.stopper case Idle => 3 case FlagStored => 2 case Woken => 1 case Joined => 0)
  }

  /** How many steps of a list are not arrivals. */
  function Own(steps: seq<Step>): nat {
    if steps == [] then 0 else (if steps[0].Arrive? then 0 else 1) + Own(steps[1..])
  }

  lemma StepUsesUp(s: State, step: Step)
    requires s.flag && Next(s, step).Some?
    ensures Next(s, step).value.flag
    ensures Remaining(Next(s, step).value) + Own([step]) <= Remaining(s)
  {
    assert Own([step]) == if step.Arrive? then 0 else 1;
    match step {
      case Arrive(_) =>
      case TakePending(_) =>
      case Check =>
      case _ =>
    }
  }

  /** After the flag is set, the steps left are bounded, however many signals arrive between them. */
  lemma {:induction false} StopIsBounded(s: State, steps: seq<Step>)
    requires s.flag && After(s, steps).Some?
    ensures Own(steps) + Remaining(After(s, steps).value) <= Remaining(s)
    decreases |steps|
  {
    if steps != [] {
      StepUsesUp(s, steps[0]);
      StopIsBounded(Next(s, steps[0]).value, steps[1..]);
    }
  }

  /** So from the store of the flag on, the thread and the stopper take at most five steps. */
  lemma StopTerminates(steps: seq<Step>, more: seq<Step>)
    requires After(START, steps).Some? && After(START, steps).value.flag
    requires After(START, steps + more).Some?
    ensures Own(more) <= 5
  {
    RunKeepsInvariant(START, steps);
    AfterAppend(START, steps, more);
    StopIsBounded(After(START, steps).value, more);
  }

  ghost predicate Working(s: State) {
    exists step: Step :: !step.Arrive? && Next(s, step).Some?
  }

  lemma ThreadOrStopperWorks(s: State)
    requires StopOrder(s) && s.flag && !s.stopper.Joined?
    ensures Working(s)
  {
    if s.stopper.FlagStored? {
      assert Next(s, SendWake).Some?;
    } else {
      match s.thread {
        case Waiting => assert Next(s, TakeWake).Some?;
        case Checking(_) => assert Next(s, Check).Some?;
        case Forwarding(_) => assert Next(s, Forward).Some?;
        case Ended => assert Next(s, Join).Some?;
      }
    }
  }

  /** Until stop() returns, the thread or the stopper can take one of them. */
  lemma StopIsNeverStuck(steps: seq<Step>)
    requires After(START, steps).Some? && After(START, steps).value.flag
    ensures After(START, steps).value.stopper.Joined? || Working(After(START, steps).value)
  {
    RunKeepsInvariant(START, steps);
    var s := After(START, steps).value;
    if !s.stopper.Joined? {
      ThreadOrStopperWorks(s);
    }
  }
}
