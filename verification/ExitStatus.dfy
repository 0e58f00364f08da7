/**
 How the workload's exit status travels up: through PID 1's reaper in production
 mode, through the process that waits for the PID namespace, and through the
 outer wait, each a loop over whatever waitpid returns.
 */
module ExitStatus {
  import opened Common

  type Pid = nat

  type Byte = n: nat | n < 256

  type SignalNumber = n: nat | 1 <= n <= 64 witness 1

  datatype Status = Code(code: Byte) | Killed(signal: SignalNumber)

  /** What one call of waitpid finds. */
  datatype Event =
    | Report(pid: Pid, status: Status)
    | Interrupted
    | NoChildren
    | Refused
    | NotAnEnd

  /** Real-time signals have no name in the signal type, so their report comes back as an error. */
  predicate Unnamed(e: Event) {
    e.Report? && e.status.Killed? && e.status.signal > 31
  }

  /** What a shell would show. */
  function Shown(s: Status): nat {
    match s
    case Code(c) => c
    case Killed(n) => 128 + n
  }

  /** exit(2) keeps the low byte. */
  function ExitWith(code: nat): Status {
    Code(code % 256)
  }

  // ---------- the three loops ----------

  /** The first decision made on a list of events, if any is. */
  function First<R>(events: seq<Event>, decide: Event -> Option<R>): Option<R> {
    if events == [] then None
    else if decide(events[0]).Some? then decide(events[0])
    else First(events[1..], decide)
  }

  function ReaperDecides(child: Pid): Event -> Option<nat> {
    (e: Event) =>
      if Unnamed(e) then Some(1)
      else match e
           case Report(pid, status) => if pid == child then Some(Shown(status)) else None
           case Interrupted => None
           case NoChildren => Some(1)
           case Refused => Some(1)
           case NotAnEnd => None
  }

  function NamespaceDecides(): Event -> Option<nat> {
    (e: Event) =>
      if Unnamed(e) then Some(1)
      else match e
           case Report(_, status) => Some(Shown(status))
           case Interrupted => None
           case NoChildren => Some(1)
           case Refused => Some(1)
           case NotAnEnd => None
  }

  datatype Result = Ok(code: nat) | WaitError | SyncError

  function OuterDecides(): Event -> Option<Result> {
    (e: Event) =>
      if Unnamed(e) then Some(WaitError)
      else match e
           case Report(_, status) => Some(Ok(Shown(status)))
           case Interrupted => None
           case NoChildren => Some(WaitError)
           case Refused => Some(WaitError)
           case NotAnEnd => None
  }

  /** PID 1 reaps every process of its namespace and ends with its own child; None means still waiting. */
  method ReapUntilWorkloadEnds(events: seq<Event>, child: Pid) returns (code: Option<nat>)
    ensures code == First(events, ReaperDecides(child))
  {
    for i := 0 to |events|
      invariant First(events, ReaperDecides(child)) == First(events[i..], ReaperDecides(child))
    {
      assert events[i..][1..] == events[i + 1..];
      if Unnamed(events[i]) {
        return Some(1);
      }
      match events[i] {
        case Report(pid, Code(c)) =>
          if pid == child {
            return Some(c);
          }
        case Report(pid, Killed(n)) =>
          if pid == child {
            return Some(128 + n);
          }
        case NoChildren => return Some(1);
        case Interrupted =>
        case Refused => return Some(1);
        case NotAnEnd =>
      }
    }
    code := None;
  }

  method WaitForPidNamespaceChild(events: seq<Event>) returns (code: Option<nat>)
    ensures code == First(events, NamespaceDecides())
  {
    for i := 0 to |events|
      invariant First(events, NamespaceDecides()) == First(events[i..], NamespaceDecides())
    {
      assert events[i..][1..] == events[i + 1..];
      if Unnamed(events[i]) {
        return Some(1);
      }
      match events[i] {
        case Report(_, Code(c)) => return Some(c);
        case Report(_, Killed(n)) => return Some(128 + n);
        case Interrupted =>
        case NoChildren => return Some(1);
        case Refused => return Some(1);
        case NotAnEnd =>
      }
    }
    code := None;
  }

  method WaitForChild(events: seq<Event>) returns (r: Option<Result>)
    ensures r == First(events, OuterDecides())
  {
    for i := 0 to |events|
      invariant First(events, OuterDecides()) == First(events[i..], OuterDecides())
    {
      assert events[i..][1..] == events[i + 1..];
      if Unnamed(events[i]) {
        return Some(WaitError);
      }
      match events[i] {
        case Report(_, Code(c)) => return Some(Ok(c));
        case Report(_, Killed(n)) => return Some(Ok(128 + n));
        case Interrupted =>
        case NoChildren => return Some(WaitError);
        case Refused => return Some(WaitError);
        case NotAnEnd =>
      }
    }
    r := None;
  }

  /** Teardown: the workspace is synced out either way, and its failure shows only over a good result. */
  method FinishRun(events: seq<Event>, syncOk: bool) returns (r: Option<Result>)
    ensures var waited: Option<Result> := First(events, OuterDecides());
            r == if waited.Some? && waited.value.Ok? && !syncOk then Some(SyncError) else waited
  {
    r := WaitForChild(events);
    if r.Some? && r.value.Ok? && !syncOk {
      r := Some(SyncError);
    }
  }

  // ---------- what the kernel delivers ----------

  /** Neither an end of `child` nor an error, which the kernel does not report while it has a child to wait for. */
  predicate Passing(e: Event, child: Pid) {
    (e.Report? && e.pid != child) || e.Interrupted? || e.NotAnEnd?
  }

  /** The end of `child` is the event at `k`; what comes after it is anything. */
  predicate Delivers(events: seq<Event>, child: Pid, status: Status, k: nat) {
    k < |events| && events[k] == Report(child, status) && forall j :: 0 <= j < k ==> Passing(events[j], child)
  }

  /** A wait for one process hears of no other. */
  predicate HearsOnly(events: seq<Event>, child: Pid) {
    forall e <- events :: e.Report? ==> e.pid == child
  }

  /** Up to position `k`, nothing ended by a real-time signal. */
  predicate AllNamed(events: seq<Event>, k: nat) {
    forall j :: 0 <= j <= k && j < |events| ==> !Unnamed(events[j])
  }

  // ---------- each layer ----------

  lemma {:induction false} FirstAt<R>(events: seq<Event>, decide: Event -> Option<R>, k: nat)
    requires k < |events| && decide(events[k]).Some?
    requires forall j :: 0 <= j < k ==> decide(events[j]).None?
    ensures First(events, decide) == decide(events[k])
  {
    if k > 0 {
      FirstAt(events[1..], decide, k - 1);
    }
  }

  lemma {:induction false} FirstUnnamed(events: seq<Event>, k: nat) returns (m: nat)
    requires !AllNamed(events, k)
    ensures m <= k && m < |events| && Unnamed(events[m]) && forall j :: 0 <= j < m ==> !Unnamed(events[j])
  {
    m := 0;
    while !Unnamed(events[m])
      invariant m <= k && m < |events| && forall j :: 0 <= j < m ==> !Unnamed(events[j])
      decreases |events| - m
    {
      assert exists j :: 0 <= j <= k && j < |events| && Unnamed(events[j]);
      m := m + 1;
    }
  }

  /** PID 1 ends with the workload's status, whatever orphans end before it, but a real-time signal turns it into 1. */
  lemma ReaperRelays(events: seq<Event>, child: Pid, status: Status, k: nat)
    requires Delivers(events, child, status, k)
    ensures First(events, ReaperDecides(child)) == Some(if AllNamed(events, k) then Shown(status) else 1)
  {
    if AllNamed(events, k) {
      FirstAt(events, ReaperDecides(child), k);
    } else {
      var m := FirstUnnamed(events, k);
      FirstAt(events, ReaperDecides(child), m);
    }
  }

  lemma NamespaceRelays(events: seq<Event>, child: Pid, status: Status, k: nat)
    requires Delivers(events, child, status, k) && HearsOnly(events, child)
    ensures First(events, NamespaceDecides()) == Some(if Unnamed(events[k]) then 1 else Shown(status))
  {
    forall j | 0 <= j < k ensures !events[j].Report? {
      assert events[j] in events;
    }
    FirstAt(events, NamespaceDecides(), k);
  }

  lemma OuterRelays(events: seq<Event>, child: Pid, status: Status, k: nat)
    requires Delivers(events, child, status, k) && HearsOnly(events, child)
    ensures First(events, OuterDecides()) == Some(if Unnamed(events[k]) then WaitError else Ok(Shown(status)))
  {
    forall j | 0 <= j < k ensures !events[j].Report? {
      assert events[j] in events;
    }
    FirstAt(events, OuterDecides(), k);
  }

  /** The first error decides while nothing else has; a wait that hears neither goes on. */
  lemma ErrorsDecide(events: seq<Event>, child: Pid, k: nat)
    requires k <= |events| && forall j :: 0 <= j < k ==> Passing(events[j], child) && !events[j].Report?
    ensures k == |events| ==> First(events, ReaperDecides(child)).None?
    ensures k == |events| ==> First(events, NamespaceDecides()).None? && First(events, OuterDecides()).None?
    ensures k < |events| && (events[k].NoChildren? || events[k].Refused?) ==>
              && First(events, ReaperDecides(child)) == Some(1)
              && First(events, NamespaceDecides()) == Some(1)
              && First(events, OuterDecides()) == Some(WaitError)
  {
    if k == |events| {
      FirstNowhere(events, ReaperDecides(child));
      FirstNowhere(events, NamespaceDecides());
      FirstNowhere(events, OuterDecides());
    } else if events[k].NoChildren? || events[k].Refused? {
      FirstAt(events, ReaperDecides(child), k);
      FirstAt(events, NamespaceDecides(), k);
      FirstAt(events, OuterDecides(), k);
    }
  }

  lemma {:induction false} FirstNowhere<R>(events: seq<Event>, decide: Event -> Option<R>)
    requires forall j :: 0 <= j < |events| ==> decide(events[j]).None?
    ensures First(events, decide).None?
  {
    if events != [] {
      FirstNowhere(events[1..], decide);
    }
  }

  // ---------- all layers together ----------

  /** One wait of a run: what it hears, of whom, and where in it the end is. */
  datatype Wait = Wait(events: seq<Event>, pid: Pid, k: nat)

  predicate HearsEnd(w: Wait, status: Status) {
    Delivers(w.events, w.pid, status, w.k) && HearsOnly(w.events, w.pid)
  }

  /**
   Without a PID namespace the forked child runs the workload; with one, its own child does,
   or in production mode supervises it.  `init` is what a supervisor ends with.
   */
  predicate Connected(pidNs: bool, production: bool, status: Status, reaper: Wait, namespace: Wait, outer: Wait) {
    if !pidNs then HearsEnd(outer, status)
    else
      && (production ==> Delivers(reaper.events, reaper.pid, status, reaper.k))
      && var first := if production then First(reaper.events, ReaperDecides(reaper.pid)) else None;
      && (production ==> first.Some?)
      && HearsEnd(namespace, if production then ExitWith(first.value) else status)
      && var second := First(namespace.events, NamespaceDecides());
      && second.Some?
      && HearsEnd(outer, ExitWith(second.value))
  }

  /** The workload, and every orphan PID 1 reaped before it, ended in a way the signal type can name. */
  predicate Nameable(pidNs: bool, production: bool, status: Status, reaper: Wait) {
    && (status.Killed? ==> status.signal <= 31)
    && (pidNs && production ==> AllNamed(reaper.events, reaper.k))
  }

  /**
   Through every layer and any schedule the run ends with the workload's code, or 128
   plus its signal, exactly if all ends are nameable; the code 1 survives even then.
   */
  lemma ExitStatusSurvives(pidNs: bool, production: bool, status: Status, reaper: Wait, namespace: Wait, outer: Wait)
    requires Connected(pidNs, production, status, reaper, namespace, outer)
    ensures First(outer.events, OuterDecides()) == Some(Ok(if status.Code? then status.code else 128 + status.signal)) <==>
              Nameable(pidNs, production, status, reaper) || status == Code(1)
  {
    if !pidNs {
      OuterRelays(outer.events, outer.pid, status, outer.k);
    } else {
      var inner := status;
      if production {
        ReaperRelays(reaper.events, reaper.pid, status, reaper.k);
        inner := ExitWith(First(reaper.events, ReaperDecides(reaper.pid)).value);
        assert status.Killed? && status.signal > 31 ==> !AllNamed(reaper.events, reaper.k);
      }
      NamespaceRelays(namespace.events, namespace.pid, inner, namespace.k);
      var second := First(namespace.events, NamespaceDecides()).value;
      OuterRelays(outer.events, outer.pid, ExitWith(second), outer.k);
    }
  }

  /** A workload ended by a real-time signal: without a PID namespace the run is an error, not 128 plus the signal. */
  lemma RealTimeSignalIsAnError(child: Pid)
    ensures var outer := Wait([Report(child, Killed(34))], child, 0);
            && Connected(false, false, Killed(34), outer, outer, outer)
            && First(outer.events, OuterDecides()) == Some(WaitError)
  {
    FirstAt([Report(child, Killed(34))], OuterDecides(), 0);
  }

  /** An orphan ended by one takes the place of a workload that ends well: PID 1 ends with 1. */
  lemma OrphanEndsTheRun(child: Pid, orphan: Pid)
    requires orphan != child
    ensures var events := [Report(orphan, Killed(34)), Report(child, Code(0))];
            && Delivers(events, child, Code(0), 1)
            && First(events, ReaperDecides(child)) == Some(1)
  {
    FirstAt([Report(orphan, Killed(34)), Report(child, Code(0))], ReaperDecides(child), 0);
  }

  /** And that is what the caller gets, unless syncing the workspace out fails. */
  method RunResult(pidNs: bool, production: bool, status: Status, reaper: Wait, namespace: Wait, outer: Wait, syncOk: bool)
    returns (r: Option<Result>)
    requires Connected(pidNs, production, status, reaper, namespace, outer)
    requires Nameable(pidNs, production, status, reaper)
    ensures !syncOk ==> r == Some(SyncError)
    ensures syncOk && status.Code? ==> r == Some(Ok(status.code))
    ensures syncOk && status.Killed? ==> r == Some(Ok(128 + status.signal))
  {
    ExitStatusSurvives(pidNs, production, status, reaper, namespace, outer);
    r := FinishRun(outer.events, syncOk);
  }
}
