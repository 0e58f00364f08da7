/**
 Telling a container's process from a later one that reuses its PID, by the start
 time in /proc/<pid>/stat.  The command name in that line is free text, so it may
 hold spaces and parentheses of its own.
 */
module PidIdentity {
  import opened Common

  // ---------- reading numbers ----------

  const U64_MAX: nat := 0xFFFF_FFFF_FFFF_FFFF

  predicate IsDigit(c: char) {
    '0' <= c <= '9'
  }

  function DigitValue(c: char): nat
    requires IsDigit(c)
  {
    (c - '0') as nat
  }

  /** The number a digit string denotes, if it is one and fits. */
  function ParseDigits(s: string, acc: nat): Option<nat> {
    if s == [] then Some(acc)
    else if !IsDigit(s[0]) || acc * 10 + DigitValue(s[0]) > U64_MAX then None
    else ParseDigits(s[1..], acc * 10 + DigitValue(s[0]))
  }

  /** A decimal 64-bit number, with an optional plus sign. */
  function ParseU64(s: string): Option<nat> {
    var digits := if s != [] && s[0] == '+' then s[1..] else s;
    if digits == [] then None else ParseDigits(digits, 0)
  }

  function Decimal(n: nat): (s: string)
    ensures s != [] && forall c <- s :: IsDigit(c)
  {
    if n < 10 then ['0' + n as char] else Decimal(n / 10) + ['0' + (n % 10) as char]
  }

  lemma {:induction false} ParseDigitsAppend(s: string, d: string, acc: nat)
    ensures ParseDigits(s + d, acc) == match ParseDigits(s, acc) case None => None case Some(n) => ParseDigits(d, n)
  {
    if s == [] {
      assert s + d == d;
    } else {
      assert (s + d)[1..] == s[1..] + d;
      if IsDigit(s[0]) && acc * 10 + DigitValue(s[0]) <= U64_MAX {
        ParseDigitsAppend(s[1..], d, acc * 10 + DigitValue(s[0]));
      }
    }
  }

  lemma {:induction false} DecimalReadsBack(n: nat)
    requires n <= U64_MAX
    ensures ParseDigits(Decimal(n), 0) == Some(n)
  {
    if n < 10 {
      assert Decimal(n)[1..] == [];
    } else {
      var last := ['0' + (n % 10) as char];
      DecimalReadsBack(n / 10);
      ParseDigitsAppend(Decimal(n / 10), last, 0);
      assert last[1..] == [];
    }
  }

  lemma ParseDecimal(n: nat)
    requires n <= U64_MAX
    ensures ParseU64(Decimal(n)) == Some(n)
  {
    DecimalReadsBack(n);
    assert IsDigit(Decimal(n)[0]);
  }

  predicate AllDigits(s: string) {
    forall i :: 0 <= i < |s| ==> '0' <= s[i] <= '9'
  }

  /** The number a text of decimal digits denotes. */
  function Value(s: string): int {
    if s == [] then 0 else 10 * Value(s[..|s| - 1]) + (s[|s| - 1] as int - '0' as int)
  }

  lemma {:induction false} DigitsHaveValue(s: string)
    requires AllDigits(s)
    ensures Value(s) >= 0
    ensures ParseDigits(s, 0) == if Value(s) <= U64_MAX then Some(Value(s)) else None
  {
    if s != [] {
      var front, last := s[..|s| - 1], s[|s| - 1..];
      DigitsHaveValue(front);
      assert s == front + last;
      ParseDigitsAppend(front, last, 0);
      assert last[0] == s[|s| - 1] && last[1..] == [];
    }
  }

  lemma {:induction false} NotADigit(s: string, acc: nat)
    requires !AllDigits(s)
    ensures ParseDigits(s, acc).None?
  {
    if IsDigit(s[0]) && acc * 10 + DigitValue(s[0]) <= U64_MAX {
      assert !AllDigits(s[1..]) by {
        var i :| 0 <= i < |s| && !('0' <= s[i] <= '9');
        assert s[1..][i - 1] == s[i];
      }
      NotADigit(s[1..], acc * 10 + DigitValue(s[0]));
    }
  }

  /** A number is read exactly from digits, after at most one plus sign, whose value fits 64 bits. */
  lemma ParseExactly(s: string)
    ensures var digits := if s != [] && s[0] == '+' then s[1..] else s;
            ParseU64(s) ==
            if digits != [] && AllDigits(digits) && Value(digits) <= 0xFFFF_FFFF_FFFF_FFFF then Some(Value(digits)) else None
  {
    var digits := if s != [] && s[0] == '+' then s[1..] else s;
    if AllDigits(digits) {
      DigitsHaveValue(digits);
    } else {
      NotADigit(digits, 0);
    }
  }

  // ---------- splitting at white space ----------

  predicate IsWhite(c: char) {
    IsWhiteSpace(c as int)
  }

  function TokenLength(s: string): (n: nat)
    ensures n <= |s| && forall i :: 0 <= i < n ==> !IsWhite(s[i])
    ensures n < |s| ==> IsWhite(s[n])
  {
    if s == [] || IsWhite(s[0]) then 0 else 1 + TokenLength(s[1..])
  }

  function SplitWhitespace(s: string): seq<string> {
    if s == [] then []
    else if IsWhite(s[0]) then SplitWhitespace(s[1..])
    else
      var n := TokenLength(s);
      [s[..n]] + SplitWhitespace(s[n..])
  }

  predicate IsToken(s: string) {
    s != [] && forall i :: 0 <= i < |s| ==> !IsWhite(s[i])
  }

  lemma SplitToken(t: string, rest: string)
    requires IsToken(t) && (rest == [] || IsWhite(rest[0]))
    ensures SplitWhitespace(t + rest) == [t] + SplitWhitespace(rest)
  {
    var s := t + rest;
    var n := TokenLength(s);
    assert s[0] == t[0];
    assert forall i :: 0 <= i < |t| ==> s[i] == t[i];
    assert rest != [] ==> s[|t|] == rest[0];
    assert n == |t|;
    assert s[..n] == t && s[n..] == rest;
  }

  function Spaced(fields: seq<string>): string
    requires fields != []
  {
    if |fields| == 1 then fields[0] else fields[0] + [' '] + Spaced(fields[1..])
  }

  lemma SplitField(f: string, sep: char, rest: string)
    requires IsToken(f) && IsWhite(sep)
    ensures SplitWhitespace(f + ([sep] + rest)) == [f] + SplitWhitespace(rest)
  {
    var spaced := [sep] + rest;
    SplitToken(f, spaced);
    assert spaced[1..] == rest;
  }

  lemma {:induction false} SplitSpaced(fields: seq<string>)
    requires fields != [] && forall f <- fields :: IsToken(f)
    ensures SplitWhitespace(Spaced(fields) + ['\n']) == fields
  {
    if |fields| == 1 {
      SplitField(fields[0], '\n', []);
      assert fields[0] + ['\n'] == fields[0] + (['\n'] + []);
      assert fields == [fields[0]] + [];
    } else {
      var rest := Spaced(fields[1..]) + ['\n'];
      SplitField(fields[0], ' ', rest);
      assert Spaced(fields) + ['\n'] == fields[0] + ([' '] + rest);
      SplitSpaced(fields[1..]);
      assert fields == [fields[0]] + fields[1..];
    }
  }

  // ---------- the parser ----------

  function LastIndex(s: string, c: char): (r: Option<nat>)
    ensures r.Some? ==> r.value < |s| && s[r.value] == c
    ensures forall i :: 0 <= i < |s| && s[i] == c ==> r.Some? && i <= r.value
  {
    if s == [] then None
    else if s[|s| - 1] == c then Some(|s| - 1)
    else LastIndex(s[..|s| - 1], c)
  }

  lemma LastIndexAt(s: string, c: char, k: nat)
    requires k < |s| && s[k] == c && c !in s[k + 1..]
    ensures LastIndex(s, c) == Some(k)
  {
    forall i | k < i < |s| ensures s[i] != c {
      assert s[i] == s[k + 1..][i - k - 1];
    }
  }

  lemma LastIndexIs(head: string, c: char, tail: string)
    requires c !in tail
    ensures LastIndex(head + [c] + tail, c) == Some(|head|)
  {
    var s := head + [c] + tail;
    assert s[|head| + 1..] == tail;
    LastIndexAt(s, c, |head|);
  }

  /** Slicing a string off a character boundary panics. */
  datatype Parsed = Ticks(ticks: nat) | NoTicks | Panics

  function ParseStartTicks(content: string): Parsed {
    match LastIndex(content, ')')
    case None => NoTicks
    case Some(p) =>
      // two bytes further, which must exist and must not split a character
      if p + 1 == |content| || content[p + 1] as int >= 0x80 then Panics
      else
        FieldTicks(SplitWhitespace(content[p + 2..]))
  }

  /** The twentieth field after the command name, as a number. */
  function FieldTicks(fields: seq<string>): Parsed {
    if |fields| <= 19 then NoTicks
    else
      match ParseU64(fields[19])
      case None => NoTicks
      case Some(n) => Ticks(n)
  }

  /** What the parser reads: the fields after the last parenthesis and the one character that follows it. */
  lemma ParsesAfterName(head: string, sep: char, tail: string)
    requires ')' !in tail && sep != ')' && sep as int < 0x80
    ensures ParseStartTicks(head + [')'] + ([sep] + tail)) == FieldTicks(SplitWhitespace(tail))
  {
    var line := head + [')'] + ([sep] + tail);
    LastIndexIs(head, ')', [sep] + tail);
    assert line[|head| + 1] == sep;
    assert line[|head| + 2..] == tail;
  }

  predicate IsField(f: string) {
    IsToken(f) && ')' !in f
  }

  /** A line as the kernel prints it: `fields` are the third to the last. */
  function StatLine(pid: nat, comm: string, fields: seq<string>): string
    requires fields != []
  {
    Decimal(pid) + [' ', '('] + comm + [')', ' '] + Spaced(fields) + ['\n']
  }

  lemma {:induction false} SpacedAvoids(fields: seq<string>, c: char)
    requires fields != [] && c != ' ' && forall f <- fields :: c !in f
    ensures c !in Spaced(fields)
  {
    if |fields| > 1 {
      SpacedAvoids(fields[1..], c);
    }
  }

  /** Whatever the command name holds, the parser returns field 22 of the line. */
  lemma ParserFindsField22(pid: nat, comm: string, fields: seq<string>, ticks: nat)
    requires |fields| >= 20 && forall f <- fields :: IsField(f)
    requires fields[19] == Decimal(ticks) && ticks <= U64_MAX
    ensures ParseStartTicks(StatLine(pid, comm, fields)) == Ticks(ticks)
  {
    var head := Decimal(pid) + [' ', '('] + comm;
    var tail := Spaced(fields) + ['\n'];
    SpacedAvoids(fields, ')');
    assert StatLine(pid, comm, fields) == head + [')'] + ([' '] + tail);
    ParsesAfterName(head, ' ', tail);
    SplitSpaced(fields);
    ParseDecimal(ticks);
  }

  // ---------- when the parser panics ----------

  /** The parser panics exactly when the last parenthesis ends the text or stands before a character beyond ASCII. */
  lemma PanicsExactly(head: string, tail: string)
    requires ')' !in tail
    ensures ParseStartTicks(head + [')'] + tail).Panics? <==> tail == [] || tail[0] as int >= 0x80
  {
    LastIndexIs(head, ')', tail);
    var s := head + [')'] + tail;
    assert tail != [] ==> s[|head| + 1] == tail[0];
  }

  /** A text without a parenthesis never makes it panic. */
  lemma NoParenthesisNoPanic(s: string)
    requires ')' !in s
    ensures ParseStartTicks(s) == NoTicks
  {
  }

  /** A truncated line does. */
  lemma TruncatedLinePanics()
    ensures ParseStartTicks("1 (x)").Panics?
  {
    var head, tail: string := "1 (x", "";
    assert "1 (x)" == head + [')'] + tail;
    PanicsExactly(head, tail);
  }

  /** A line as the kernel prints it does not, whatever its fields. */
  lemma KernelLineNeverPanics(pid: nat, comm: string, fields: seq<string>)
    requires fields != [] && forall f <- fields :: ')' !in f
    ensures !ParseStartTicks(StatLine(pid, comm, fields)).Panics?
  {
    var head, tail := Decimal(pid) + [' ', '('] + comm, [' '] + Spaced(fields) + ['\n'];
    assert StatLine(pid, comm, fields) == head + [')'] + tail;
    SpacedAvoids(fields, ')');
    PanicsExactly(head, tail);
  }

  // ---------- recording the start time ----------

  /** The first of five readings that parses; 0 if none does. */
  function FirstTicks(readings: seq<Option<string>>): Parsed {
    if readings == [] then Ticks(0)
    else if readings[0].None? then FirstTicks(readings[1..])
    else
      match ParseStartTicks(readings[0].value)
      case NoTicks => FirstTicks(readings[1..])
      case other => other
  }

  /** The first reading that parses decides; those before it are missing or yield nothing. */
  lemma {:induction false} FirstTicksMeans(readings: seq<Option<string>>, k: nat)
    requires k < |readings| && readings[k].Some?
    requires forall j :: 0 <= j < k ==> readings[j].None? || ParseStartTicks(readings[j].value).NoTicks?
    ensures !ParseStartTicks(readings[k].value).NoTicks? ==> FirstTicks(readings) == ParseStartTicks(readings[k].value)
  {
    if k > 0 {
      FirstTicksMeans(readings[1..], k - 1);
    }
  }

  method ReadStartTicks(readings: seq<Option<string>>) returns (r: Parsed)
    requires |readings| == 5
    ensures r == FirstTicks(readings)
  {
    for attempt := 0 to 5
      invariant FirstTicks(readings) == FirstTicks(readings[attempt..])
    {
      assert readings[attempt..][1..] == readings[attempt + 1..];
      if readings[attempt].Some? {
        var parsed := ParseStartTicks(readings[attempt].value);
        if !parsed.NoTicks? {
          return parsed;
        }
      }
    }
    r := Ticks(0);
  }

  // ---------- process histories ----------

  datatype Event = Spawn(pid: nat, ticks: nat) | Reap(pid: nat)

  /** A process, named by the position of its birth in the history. */
  datatype Process = Process(birth: nat, ticks: nat)

  /** The processes not yet reaped after a history; a PID is free only once its holder is reaped. */
  function Table(h: seq<Event>): map<nat, Process> {
    if h == [] then map[]
    else
      var before := Table(h[..|h| - 1]);
      match h[|h| - 1]
      case Spawn(pid, ticks) => if pid in before then before else before[pid := Process(|h| - 1, ticks)]
      case Reap(pid) => before - {pid}
  }

  /** Every start time is a nonzero 64-bit number, and no two holders of a PID share one. */
  predicate DistinctStarts(h: seq<Event>) {
    && (forall i :: 0 <= i < |h| && h[i].Spawn? ==> 0 < h[i].ticks <= U64_MAX)
    && (forall i, j :: 0 <= i < j < |h| && h[i].Spawn? && h[j].Spawn? && h[i].pid == h[j].pid ==> h[i].ticks != h[j].ticks)
  }

  lemma {:induction false} TableComesFromSpawns(h: seq<Event>, pid: nat)
    requires pid in Table(h)
    ensures Table(h)[pid].birth < |h| && h[Table(h)[pid].birth] == Spawn(pid, Table(h)[pid].ticks)
  {
    var shorter := h[..|h| - 1];
    if pid in Table(shorter) {
      TableComesFromSpawns(shorter, pid);
    }
  }

  /** What a read of /proc/<pid>/stat may return: only the start time is fixed. */
  ghost predicate Shows(table: map<nat, Process>, pid: nat, content: Option<string>) {
    content.Some? ==> pid in table && IsLineOf(pid, table[pid].ticks, content.value)
  }

  ghost predicate IsLineOf(pid: nat, ticks: nat, line: string) {
    exists comm, fields ::
      && |fields| >= 20 && (forall f <- fields :: IsField(f)) && fields[19] == Decimal(ticks)
      && line == StatLine(pid, comm, fields)
  }

  lemma LineGivesTicks(pid: nat, ticks: nat, line: string)
    requires IsLineOf(pid, ticks, line) && ticks <= U64_MAX
    ensures ParseStartTicks(line) == Ticks(ticks)
  {
    var comm, fields :|
      && |fields| >= 20 && (forall f <- fields :: IsField(f)) && fields[19] == Decimal(ticks)
      && line == StatLine(pid, comm, fields);
    ParserFindsField22(pid, comm, fields, ticks);
  }

  datatype Answer = Running | NotRunning | Aborts

  /** Whether a container whose recorded start time is `start` counts as running; a panic ends the program. */
  function IsRunning(stopped: bool, start: nat, content: Option<string>): Answer {
    if stopped || content.None? || start == 0 then NotRunning
    else match ParseStartTicks(content.value)
      case Ticks(ticks) => if ticks == start then Running else NotRunning
      case NoTicks => NotRunning
      case Panics => Aborts
  }

  /** Reading `k` is the first that could be read, and shows the holder of the PID. */
  ghost predicate RecordedAt(table: map<nat, Process>, pid: nat, readings: seq<Option<string>>, k: nat) {
    && k < |readings| && readings[k].Some? && Shows(table, pid, readings[k])
    && forall j :: 0 <= j < k ==> readings[j].None?
  }

  /**
   The process recorded after history `h`, from readings the last of which could be read, is
   judged after a longer history `g` by what its PID shows then: with a readable line the
   answer is yes exactly if that very process is not yet reaped, and without one it is no.
   */
  lemma IsRunningMeansSameProcess(
    h: seq<Event>, g: seq<Event>, pid: nat, readings: seq<Option<string>>, k: nat, stopped: bool, content: Option<string>)
    requires DistinctStarts(g) && h <= g
    requires RecordedAt(Table(h), pid, readings, k) && Shows(Table(g), pid, content)
    ensures FirstTicks(readings) == Ticks(Table(h)[pid].ticks)
    ensures IsRunning(stopped, FirstTicks(readings).ticks, content) ==
            if !stopped && content.Some? && Table(g)[pid].birth == Table(h)[pid].birth then Running else NotRunning
  {
    TableComesFromSpawns(h, pid);
    LineGivesTicks(pid, Table(h)[pid].ticks, readings[k].value);
    FirstTicksMeans(readings, k);
    if content.Some? {
      TableComesFromSpawns(g, pid);
      LineGivesTicks(pid, Table(g)[pid].ticks, content.value);
    }
  }

  /** A start time that could not be recorded never counts as running. */
  lemma UnrecordedIsNotRunning(readings: seq<Option<string>>, stopped: bool, content: Option<string>)
    requires forall r <- readings :: r.Some? ==> ParseStartTicks(r.value).NoTicks?
    ensures FirstTicks(readings) == Ticks(0) && IsRunning(stopped, FirstTicks(readings).ticks, content) == NotRunning
  {
    if readings != [] {
      UnrecordedIsNotRunning(readings[1..], stopped, content);
    }
  }
}
