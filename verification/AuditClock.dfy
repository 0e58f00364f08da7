/**
 Timestamps of audit events: a branch-light conversion from days since
 1970-01-01 to a Gregorian date, and the text printed for it (section 5.6 of
 RFC 3339).
 */
module AuditClock {
  import opened Lexicographic

  datatype Date = Date(year: int, month: int, day: int)

  // ---------- the calendar everyone knows ----------

  predicate Leap(y: int) {
    y % 4 == 0 && (y % 100 != 0 || y % 400 == 0)
  }

  function MonthLength(y: int, m: int): int {
    if m == 2 then (if Leap(y) then 29 else 28)
    else if m == 4 || m == 6 || m == 9 || m == 11 then 30
    else 31
  }

  predicate Valid(d: Date) {
    1 <= d.month <= 12 && 1 <= d.day <= MonthLength(d.year, d.month)
  }

  function Tomorrow(d: Date): Date {
    if d.day < MonthLength(d.year, d.month) then Date(d.year, d.month, d.day + 1)
    else if d.month < 12 then Date(d.year, d.month + 1, 1)
    else Date(d.year + 1, 1, 1)
  }

  const EPOCH := Date(1970, 1, 1)

  /** The date `n` days after the epoch, one day at a time. */
  function Step(n: nat): Date {
    if n == 0 then EPOCH else Tomorrow(Step(n - 1))
  }

  // ---------- the conversion ----------

  const DAYS_PER_ERA := 146097  // 400 Gregorian years

  /** Division rounding toward zero, as machine integers divide. */
  function TruncDiv(a: int, b: int): int
    requires b > 0
  {
    if a >= 0 then a / b else -((-a) / b)
  }

  function YearOfEra(doe: int): int {
    (doe - doe / 1460 + doe / 36524 - doe / 146096) / 365
  }

  function YearStart(yoe: int): int {
    365 * yoe + yoe / 4 - yoe / 100
  }

  /** Years count from March, so that the leap day comes last. */
  function FromMarch(year: int, doy: int): Date {
    var mp := (5 * doy + 2) / 153;
    var d := doy - (153 * mp + 2) / 5 + 1;
    var m := if mp < 10 then mp + 3 else mp - 9;
    Date(if m <= 2 then year + 1 else year, m, d)
  }

  function Era(z: int): int {
    TruncDiv(if z >= 0 then z else z - 146096, DAYS_PER_ERA)
  }

  function CivilInEra(era: int, doe: int): Date {
    var yoe := YearOfEra(doe);
    FromMarch(yoe + era * 400, doe - YearStart(yoe))
  }

  function DayOfEra(z: int): int {
    z - Era(z) * DAYS_PER_ERA
  }

  function CivilFromDays(days: int): Date {
    var z := days + 719468;
    CivilInEra(Era(z), DayOfEra(z))
  }

  // ---------- correctness ----------

  lemma EraIsFloor(z: int)
    ensures Era(z) == z / DAYS_PER_ERA
    ensures 0 <= z - Era(z) * DAYS_PER_ERA < DAYS_PER_ERA
  {
  }

  /** Length of the year that starts on the first of March of `yoe` (400 years repeat). */
  function YearLength(yoe: int): int {
    if Leap(yoe + 1) then 366 else 365
  }

  lemma QuarterStep(y: int)
    ensures (y + 1) / 4 == y / 4 + if (y + 1) % 4 == 0 then 1 else 0
  {
  }

  lemma CenturyStep(y: int)
    ensures (y + 1) / 100 == y / 100 + if (y + 1) % 100 == 0 then 1 else 0
  {
  }

  lemma YearStartStep(y: int)
    requires 0 <= y < 400
    ensures y < 399 ==> YearStart(y + 1) == YearStart(y) + YearLength(y)
    ensures y == 399 ==> YearStart(y) + YearLength(y) == DAYS_PER_ERA
  {
    QuarterStep(y);
    CenturyStep(y);
    assert y < 399 ==> (y + 1) % 400 != 0;
    assert (y + 1) % 100 == 0 ==> (y + 1) % 4 == 0;
  }

  /** Centuries before `doe`, for a day split into century, four-year cycle, year and day. */
  lemma CenturyQuotient(c: int, b: int, a: int, k: int, doe: int)
    requires 0 <= c < 4 && 0 <= b < 25 && 0 <= a < 4 && 0 <= k < 366
    requires k == 365 ==> a == 3 && (b == 24 ==> c == 3)
    requires doe == 36524 * c + 1461 * b + 365 * a + k
    ensures doe / 36524 - doe / 146096 == c
  {
    if k == 365 && b == 24 {
      assert doe == 146096;
    } else {
      assert 0 <= 1461 * b + 365 * a + k < 36524;
    }
  }

  /** One day in the quotient by 1460 makes up for the leap day. */
  lemma CycleQuotient(c: int, b: int, a: int, k: int, doe: int) returns (late: int)
    requires 0 <= c < 4 && 0 <= b < 25 && 0 <= a < 4 && 0 <= k < 366
    requires k == 365 ==> a == 3
    requires doe == 36524 * c + 1461 * b + 365 * a + k
    ensures doe / 1460 == 25 * c + b + late
    ensures 0 <= k - late < 365
  {
    late := if 24 * c + b + 365 * a + k >= 1460 then 1 else 0;
    assert doe == 1460 * (25 * c + b) + (24 * c + b + 365 * a + k);
  }

  /** The closed formula gives the year whose days include `doe`. */
  lemma YearOfEraIs(doe: int, y: int)
    requires 0 <= y < 400 && 0 <= doe - YearStart(y) < YearLength(y)
    ensures YearOfEra(doe) == y
  {
    var c, b, a := y / 100, y % 100 / 4, y % 4;
    var k := doe - YearStart(y);
    assert y == 100 * c + 4 * b + a;
    assert YearStart(y) == 36524 * c + 1461 * b + 365 * a;
    assert k == 365 ==> a == 3 && (b == 24 ==> c == 3);
    CenturyQuotient(c, b, a, k, doe);
    var late := CycleQuotient(c, b, a, k, doe);
    assert doe - doe / 1460 + c == 365 * y + (k - late);
  }

  /** Every day of an era lies in one of its years. */
  lemma {:induction false} SomeYear(doe: int, y: nat) returns (r: int)
    requires y < 400 && 0 <= doe < YearStart(y) + YearLength(y)
    ensures 0 <= r <= y && 0 <= doe - YearStart(r) < YearLength(r)
  {
    if YearStart(y) <= doe {
      r := y;
    } else {
      YearStartStep(y - 1);
      r := SomeYear(doe, y - 1);
    }
  }

  lemma Multiples(n: int, m: int, q: int, r: int)
    requires m > 0 && n == m * q + r && 0 <= r < m
    ensures n % m == r
  {
    var d := n / m - q;
    assert m * d == r - n % m;
    assert d >= 1 ==> m * d >= m;
    assert d <= -1 ==> m * d <= -m;
    assert d == 0;
  }

  /** Remainders by 4 and 100 depend on the remainder by 400 only. */
  lemma SameRemainder(n: int, q: int, r: int, m: int, k: int)
    requires n == 400 * q + r && m > 0 && m * k == 400
    ensures n % m == r % m
  {
    assert r == m * (r / m) + r % m;
    assert m * (k * q + r / m) == m * k * q + m * (r / m);
    Multiples(n, m, k * q + r / m, r % m);
  }

  lemma LeapByRemainder(n: int, q: int, r: int)
    requires n == 400 * q + r && 0 <= r < 400
    ensures Leap(n) <==> Leap(r)
  {
    SameRemainder(n, q, r, 4, 100);
    SameRemainder(n, q, r, 100, 4);
    SameRemainder(n, q, r, 400, 1);
  }

  /** Leap years repeat every era. */
  lemma LeapRepeats(y: int, era: int)
    ensures Leap(y + era * 400) <==> Leap(y)
  {
    LeapByRemainder(y, y / 400, y % 400);
    LeapByRemainder(y + era * 400, y / 400 + era, y % 400);
  }

  lemma FromMarchIsValid(year: int, doy: int, length: int)
    requires length == if Leap(year + 1) then 366 else 365
    requires 0 <= doy < length
    ensures Valid(FromMarch(year, doy))
  {
  }

  /** The day of a March-based year at which its month `mp` starts. */
  function MonthStart(mp: int): int {
    (153 * mp + 2) / 5
  }

  lemma MonthOf(doy: int, mp: int)
    requires 0 <= mp <= 11 && MonthStart(mp) <= doy < MonthStart(mp + 1)
    ensures (5 * doy + 2) / 153 == mp
  {
  }

  lemma {:induction false} SomeMonth(doy: int, mp: nat) returns (r: int)
    requires mp <= 11 && 0 <= doy < MonthStart(mp + 1)
    ensures 0 <= r <= mp && MonthStart(r) <= doy < MonthStart(r + 1)
  {
    if MonthStart(mp) <= doy {
      r := mp;
    } else {
      r := SomeMonth(doy, mp - 1);
    }
  }

  lemma FromMarchIs(year: int, doy: int, mp: int)
    requires 0 <= mp <= 11 && MonthStart(mp) <= doy < MonthStart(mp + 1)
    ensures FromMarch(year, doy) ==
            Date(if mp >= 10 then year + 1 else year, if mp < 10 then mp + 3 else mp - 9, doy - MonthStart(mp) + 1)
  {
    MonthOf(doy, mp);
  }

  /** Every month but the last is as long as the calendar says. */
  lemma MonthLengths(year: int, mp: int)
    requires 0 <= mp <= 10
    ensures MonthLength(if mp >= 10 then year + 1 else year, if mp < 10 then mp + 3 else mp - 9) ==
            MonthStart(mp + 1) - MonthStart(mp)
  {
  }

  /** Within a March-based year, the day after is the next day of the year. */
  lemma FromMarchNext(year: int, doy: int, next: int, length: int)
    requires length == if Leap(year + 1) then 366 else 365
    requires 0 <= doy && next == doy + 1 && next < length
    ensures FromMarch(year, next) == Tomorrow(FromMarch(year, doy))
  {
    var mp := SomeMonth(doy, 11);
    FromMarchIs(year, doy, mp);
    if mp <= 10 {
      MonthLengths(year, mp);
    }
    if next < MonthStart(mp + 1) {
      FromMarchIs(year, next, mp);
    } else {
      FromMarchIs(year, next, mp + 1);
    }
  }

  /** The day after the last of February is the first of March. */
  lemma FromMarchLast(year: int, next: int, last: int)
    requires last == if Leap(year + 1) then 365 else 364
    requires next == year + 1
    ensures FromMarch(next, 0) == Tomorrow(FromMarch(year, last))
  {
  }

  // The remaining lemmas name every intermediate quantity, so that the steps
  // fit together without further arithmetic.

  lemma InEraIs(era: int, doe: int, y: int, doy: int, year: int)
    requires 0 <= y < 400 && doe == YearStart(y) + doy && 0 <= doy < YearLength(y)
    requires year == y + era * 400
    ensures CivilInEra(era, doe) == FromMarch(year, doy)
  {
    YearOfEraIs(doe, y);
  }

  lemma LengthInEra(era: int, y: int, year: int)
    requires year == y + era * 400
    ensures YearLength(y) == if Leap(year + 1) then 366 else 365
  {
    LeapRepeats(y + 1, era);
  }

  lemma SameYear(era: int, doe: int, next: int, y: int, doy: int)
    requires 0 <= y < 400 && doe == YearStart(y) + doy && 0 <= doy && doy + 1 < YearLength(y)
    requires next == doe + 1
    ensures CivilInEra(era, next) == Tomorrow(CivilInEra(era, doe))
  {
    var year, doy' := y + era * 400, doy + 1;
    InEraIs(era, doe, y, doy, year);
    InEraIs(era, next, y, doy', year);
    LengthInEra(era, y, year);
    FromMarchNext(year, doy, doy', YearLength(y));
  }

  lemma NextYear(era: int, doe: int, next: int, y: int, doy: int)
    requires 0 <= y < 399 && doe == YearStart(y) + doy && 0 <= doy && doy + 1 == YearLength(y)
    requires next == doe + 1
    ensures CivilInEra(era, next) == Tomorrow(CivilInEra(era, doe))
  {
    var year, y' := y + era * 400, y + 1;
    var year' := y' + era * 400;
    InEraIs(era, doe, y, doy, year);
    YearStartStep(y);
    InEraIs(era, next, y', 0, year');
    LengthInEra(era, y, year);
    FromMarchLast(year, year', doy);
  }

  lemma NextEra(era: int, era': int, doe: int, doy: int)
    requires doe == YearStart(399) + doy && doy + 1 == YearLength(399) && era' == era + 1
    ensures CivilInEra(era', 0) == Tomorrow(CivilInEra(era, doe))
  {
    var year, year' := 399 + era * 400, 0 + era' * 400;
    InEraIs(era, doe, 399, doy, year);
    InEraIs(era', 0, 0, 0, year');
    LengthInEra(era, 399, year);
    FromMarchLast(year, year', doy);
  }

  lemma EraIsValid(era: int, doe: int)
    requires 0 <= doe < DAYS_PER_ERA
    ensures Valid(CivilInEra(era, doe))
  {
    YearStartStep(399);
    var y := SomeYear(doe, 399);
    var doy, year := doe - YearStart(y), y + era * 400;
    InEraIs(era, doe, y, doy, year);
    LengthInEra(era, y, year);
    FromMarchIsValid(year, doy, YearLength(y));
  }

  /** The day after, within an era. */
  lemma EraAdvances(era: int, doe: int, next: int)
    requires 0 <= doe && next == doe + 1 < DAYS_PER_ERA
    ensures CivilInEra(era, next) == Tomorrow(CivilInEra(era, doe))
  {
    YearStartStep(399);
    var y := SomeYear(doe, 399);
    var doy := doe - YearStart(y);
    YearStartStep(y);
    if doy + 1 < YearLength(y) {
      SameYear(era, doe, next, y, doy);
    } else {
      NextYear(era, doe, next, y, doy);
    }
  }

  /** The day after the last of an era. */
  lemma EraTurns(era: int, era': int, doe: int)
    requires doe == DAYS_PER_ERA - 1 && era' == era + 1
    ensures CivilInEra(era', 0) == Tomorrow(CivilInEra(era, doe))
  {
    YearStartStep(399);
    NextEra(era, era', doe, doe - YearStart(399));
  }

  lemma EraIs(z: int, era: int, doe: int)
    requires z == era * DAYS_PER_ERA + doe && 0 <= doe < DAYS_PER_ERA
    ensures Era(z) == era && DayOfEra(z) == doe
  {
    EraIsFloor(z);
  }

  lemma CivilIs(days: int, era: int, doe: int)
    requires days + 719468 == era * DAYS_PER_ERA + doe && 0 <= doe < DAYS_PER_ERA
    ensures CivilFromDays(days) == CivilInEra(era, doe)
  {
    EraIs(days + 719468, era, doe);
  }

  /** The conversion yields a real date, before and after the epoch. */
  lemma CivilIsValid(days: int)
    ensures Valid(CivilFromDays(days))
  {
    var z := days + 719468;
    var era, doe := z / DAYS_PER_ERA, z % DAYS_PER_ERA;
    CivilIs(days, era, doe);
    EraIsValid(era, doe);
  }

  /** The conversion advances exactly as the calendar does, before and after the epoch. */
  lemma CivilAdvances(days: int, next: int)
    requires next == days + 1
    ensures CivilFromDays(next) == Tomorrow(CivilFromDays(days))
  {
    var z := days + 719468;
    var era, doe := z / DAYS_PER_ERA, z % DAYS_PER_ERA;
    CivilIs(days, era, doe);
    if doe + 1 < DAYS_PER_ERA {
      var doe' := doe + 1;
      CivilIs(next, era, doe');
      EraAdvances(era, doe, doe');
    } else {
      var era' := era + 1;
      CivilIs(next, era', 0);
      EraTurns(era, era', doe);
    }
  }

  lemma CivilAtEpoch()
    ensures CivilFromDays(0) == EPOCH
  {
    CivilIs(0, 4, 135080);
    InEraIs(4, 135080, 369, 306, 1969);
  }

  // ---------- any conversion that advances like the calendar ----------

  ghost predicate AdvancesAt(f: int -> Date, n: int, next: int) {
    next == n + 1 ==> Valid(f(n)) && f(next) == Tomorrow(f(n))
  }

  ghost predicate Advances(f: int -> Date) {
    forall n, next :: AdvancesAt(f, n, next)
  }

  lemma {:induction false} AdvancingIsStep(f: int -> Date, n: nat)
    requires Advances(f) && f(0) == EPOCH
    ensures f(n) == Step(n)
  {
    if n > 0 {
      AdvancingIsStep(f, n - 1);
      assert AdvancesAt(f, n - 1, n);
    }
  }

  lemma TomorrowIsLater(d: Date)
    requires Valid(d)
    ensures DateLess(d, Tomorrow(d))
  {
  }

  lemma {:induction false} AdvancingIsMonotone(f: int -> Date, n: int, m: int)
    requires Advances(f) && n < m
    ensures DateLess(f(n), f(m))
    decreases m - n
  {
    assert AdvancesAt(f, m - 1, m);
    TomorrowIsLater(f(m - 1));
    if n < m - 1 {
      AdvancingIsMonotone(f, n, m - 1);
    }
  }

  lemma CivilAdvancesThroughout()
    ensures Advances(CivilFromDays)
  {
    forall n: int, next: int
      ensures AdvancesAt(CivilFromDays, n, next)
    {
      if next == n + 1 {
        CivilIsValid(n);
        CivilAdvances(n, next);
      }
    }
  }

  /** The conversion is the calendar stepped day by day. */
  lemma CivilIsStep(n: nat)
    ensures CivilFromDays(n) == Step(n)
  {
    CivilAdvancesThroughout();
    CivilAtEpoch();
    AdvancingIsStep(CivilFromDays, n);
  }

  lemma LaterDayLaterDate(n: int, m: int)
    requires n < m
    ensures DateLess(CivilFromDays(n), CivilFromDays(m))
  {
    CivilAdvancesThroughout();
    AdvancingIsMonotone(CivilFromDays, n, m);
  }

  // ---------- timestamps ----------

  datatype Stamp = Stamp(date: Date, hour: int, minute: int, second: int, milli: int)

  /** The moment `t` milliseconds after the epoch, without leap seconds. */
  function FromMillis(t: nat): Stamp {
    var secs := t / 1000;
    Clock(CivilFromDays(secs / 86400), secs % 86400, t % 1000)
  }

  function Clock(date: Date, daySecs: nat, milli: nat): Stamp {
    Stamp(date, daySecs / 3600, daySecs % 3600 / 60, daySecs % 60, milli)
  }

  function Digit(n: nat): char
    requires n < 10
  {
    '0' + n as char
  }

  /** Decimal digits, zero-padded on the left to at least `w` of them. */
  function Pad(n: nat, w: nat): string
    decreases n + w
  {
    if n == 0 && w == 0 then ""
    else Pad(n / 10, if w == 0 then 0 else w - 1) + [Digit(n % 10)]
  }

  function ClockText(s: Stamp): string
    requires s.hour >= 0 && s.minute >= 0 && s.second >= 0 && s.milli >= 0
  {
    Pad(s.hour, 2) + ([':'] + (Pad(s.minute, 2) + ([':'] + (Pad(s.second, 2) + (['.'] + (Pad(s.milli, 3) + ['Z']))))))
  }

  function Text(s: Stamp): string
    requires s.date.year >= 0 && s.date.month >= 0 && s.date.day >= 0
    requires s.hour >= 0 && s.minute >= 0 && s.second >= 0 && s.milli >= 0
  {
    Pad(s.date.year, 4) + (['-'] + (Pad(s.date.month, 2) + (['-'] + (Pad(s.date.day, 2) + (['T'] + ClockText(s))))))
  }

  function CharBelow(): (char, char) -> bool {
    (x, y) => x < y
  }

  /** String order, character by character. */
  predicate Before(a: string, b: string) {
    Less(CharBelow(), a, b)
  }

  function Power10(w: nat): nat {
    if w == 0 then 1 else 10 * Power10(w - 1)
  }

  lemma {:induction false} PadWidth(n: nat, w: nat)
    requires n < Power10(w)
    ensures |Pad(n, w)| == w
    decreases w
  {
    if w > 0 {
      PadWidth(n / 10, w - 1);
    }
  }

  /** Among numbers that fit the field, printed order is numeric order. */
  lemma {:induction false} PadOrder(n: nat, m: nat, w: nat)
    requires n < m < Power10(w)
    ensures |Pad(n, w)| == w && |Pad(m, w)| == w
    ensures Before(Pad(n, w), Pad(m, w))
    decreases w
  {
    PadWidth(n, w);
    PadWidth(m, w);
    var a, b := Pad(n / 10, w - 1), Pad(m / 10, w - 1);
    if n / 10 < m / 10 {
      PadOrder(n / 10, m / 10, w - 1);
      LessByPrefix(CharBelow(), a, b, [Digit(n % 10)], [Digit(m % 10)]);
    } else {
      LessAfterPrefix(CharBelow(), a, [Digit(n % 10)], [Digit(m % 10)]);
    }
  }

  /** A field decides the order of two texts, or passes the decision on. */
  lemma FieldDecides(n: nat, m: nat, w: nat, sep: string, x: string, y: string)
    requires n < Power10(w) && m < Power10(w)
    requires n < m || (n == m && Before(x, y))
    ensures Before(Pad(n, w) + (sep + x), Pad(m, w) + (sep + y))
  {
    if n < m {
      PadOrder(n, m, w);
      LessByPrefix(CharBelow(), Pad(n, w), Pad(m, w), sep + x, sep + y);
    } else {
      LessAfterPrefix(CharBelow(), sep, x, y);
      LessAfterPrefix(CharBelow(), Pad(n, w), sep + x, sep + y);
    }
  }

  predicate DateLess(a: Date, b: Date) {
    a.year < b.year || (a.year == b.year && (a.month < b.month || (a.month == b.month && a.day < b.day)))
  }

  predicate ClockLess(a: Stamp, b: Stamp) {
    || a.hour < b.hour
    || (a.hour == b.hour && (a.minute < b.minute
    || (a.minute == b.minute && (a.second < b.second
    || (a.second == b.second && a.milli < b.milli)))))
  }

  predicate Proper(s: Stamp) {
    Valid(s.date) && 0 <= s.hour < 24 && 0 <= s.minute < 60 && 0 <= s.second < 60 && 0 <= s.milli < 1000
  }

  lemma ClockTextOrder(a: Stamp, b: Stamp)
    requires Proper(a) && Proper(b) && ClockLess(a, b)
    ensures Before(ClockText(a), ClockText(b))
  {
    assert Power10(2) == 100 && Power10(3) == 1000;
    var xs, ys := Pad(a.milli, 3) + ['Z'], Pad(b.milli, 3) + ['Z'];
    if a.milli < b.milli {
      PadOrder(a.milli, b.milli, 3);
      LessByPrefix(CharBelow(), Pad(a.milli, 3), Pad(b.milli, 3), ['Z'], ['Z']);
    }
    var xm, ym := Pad(a.second, 2) + (['.'] + xs), Pad(b.second, 2) + (['.'] + ys);
    if a.second < b.second || (a.second == b.second && a.milli < b.milli) {
      FieldDecides(a.second, b.second, 2, ['.'], xs, ys);
    }
    var xh, yh := Pad(a.minute, 2) + ([':'] + xm), Pad(b.minute, 2) + ([':'] + ym);
    if a.hour == b.hour {
      FieldDecides(a.minute, b.minute, 2, [':'], xm, ym);
    }
    FieldDecides(a.hour, b.hour, 2, [':'], xh, yh);
  }

  lemma TextOrder(a: Stamp, b: Stamp)
    requires Proper(a) && Proper(b) && 0 <= a.date.year <= 9999 && 0 <= b.date.year <= 9999
    requires DateLess(a.date, b.date) || (a.date == b.date && ClockLess(a, b))
    ensures Before(Text(a), Text(b))
  {
    assert Power10(2) == 100 && Power10(4) == 10000;
    if a.date == b.date {
      ClockTextOrder(a, b);
    }
    var xs, ys := ClockText(a), ClockText(b);
    var xd, yd := Pad(a.date.day, 2) + (['T'] + xs), Pad(b.date.day, 2) + (['T'] + ys);
    if a.date.year == b.date.year && a.date.month == b.date.month {
      FieldDecides(a.date.day, b.date.day, 2, ['T'], xs, ys);
    }
    var xm, ym := Pad(a.date.month, 2) + (['-'] + xd), Pad(b.date.month, 2) + (['-'] + yd);
    if a.date.year == b.date.year {
      FieldDecides(a.date.month, b.date.month, 2, ['-'], xd, yd);
    }
    FieldDecides(a.date.year, b.date.year, 4, ['-'], xm, ym);
  }

  // ---------- order of timestamps ----------

  lemma ClockParts(s: nat, hour: nat, minute: nat, second: nat)
    requires hour == s / 3600 && minute == s % 3600 / 60 && second == s % 60
    ensures s == 3600 * hour + 60 * minute + second && minute < 60 && second < 60
  {
    var rest := s % 3600;
    assert rest == 60 * (rest / 60) + rest % 60;
    assert s % 60 == rest % 60;
  }

  lemma ClockOrder(d: Date, e: Date, s: nat, r: nat, a: nat, b: nat)
    requires s < r || (s == r && a < b)
    ensures ClockLess(Clock(d, s, a), Clock(e, r, b))
  {
    ClockParts(s, s / 3600, s % 3600 / 60, s % 60);
    ClockParts(r, r / 3600, r % 3600 / 60, r % 60);
  }

  lemma SplitTime(t: nat, u: nat)
    requires t < u
    ensures t / 1000 / 86400 <= u / 1000 / 86400
    ensures t / 1000 / 86400 == u / 1000 / 86400 ==>
      t / 1000 % 86400 < u / 1000 % 86400 || (t / 1000 % 86400 == u / 1000 % 86400 && t % 1000 < u % 1000)
  {
    var a, b := t / 1000, u / 1000;
    assert a < b || (a == b && t % 1000 < u % 1000);
  }

  lemma ClockIsProper(date: Date, daySecs: nat, milli: nat)
    requires Valid(date) && daySecs < 86400 && milli < 1000
    ensures Proper(Clock(date, daySecs, milli))
  {
  }

  lemma NotBeforeEpoch(n: nat)
    ensures CivilFromDays(n).year >= 1970
  {
    CivilAtEpoch();
    if n > 0 {
      LaterDayLaterDate(0, n);
    }
  }

  lemma MillisAreProper(t: nat)
    ensures Proper(FromMillis(t)) && FromMillis(t).date.year >= 1970
  {
    var secs := t / 1000;
    var n := secs / 86400;
    CivilIsValid(n);
    NotBeforeEpoch(n);
    ClockIsProper(CivilFromDays(n), secs % 86400, t % 1000);
  }

  // ---------- the text reads back ----------

  /** The number a text of decimal digits denotes. */
  function Value(s: string): int {
    if s == [] then 0 else 10 * Value(s[..|s| - 1]) + (s[|s| - 1] as int - '0' as int)
  }

  lemma {:induction false} PadReadsBack(n: nat, w: nat)
    requires n < Power10(w)
    ensures |Pad(n, w)| == w && Value(Pad(n, w)) == n
    ensures forall c <- Pad(n, w) :: '0' <= c <= '9'
    decreases w
  {
    if w > 0 {
      PadReadsBack(n / 10, w - 1);
      var front := Pad(n / 10, w - 1);
      assert Pad(n, w) == front + [Digit(n % 10)];
      assert Pad(n, w)[..w - 1] == front;
    }
  }

  /** A field of a text, and what follows it and its separator. */
  lemma Field(n: nat, w: nat, sep: char, rest: string)
    requires n < Power10(w)
    ensures var t := Pad(n, w) + ([sep] + rest);
            |t| == w + 1 + |rest| && Value(t[..w]) == n && t[w] == sep && t[w + 1..] == rest
  {
    PadReadsBack(n, w);
    var t := Pad(n, w) + ([sep] + rest);
    assert t[..w] == Pad(n, w);
  }

  lemma SecondFields(second: nat, milli: nat)
    requires second <= 99 && milli <= 999
    ensures var t := Pad(second, 2) + (['.'] + (Pad(milli, 3) + ['Z']));
            && |t| == 7 && t[2] == '.' && t[6] == 'Z' && Value(t[0..2]) == second && Value(t[3..6]) == milli
  {
    assert Power10(2) == 100 && Power10(3) == 1000;
    var c := Pad(milli, 3) + ['Z'];
    var t := Pad(second, 2) + (['.'] + c);
    PadReadsBack(milli, 3);
    assert c[..3] == Pad(milli, 3);
    Field(second, 2, '.', c);
    assert t[0..2] == t[..2] && t[3..6] == c[..3] && t[6] == c[3];
  }

  lemma HourFields(hour: nat, minute: nat, rest: string)
    requires hour <= 99 && minute <= 99
    ensures var t := Pad(hour, 2) + ([':'] + (Pad(minute, 2) + ([':'] + rest)));
            && |t| == 6 + |rest| && t[2] == ':' && t[5] == ':' && t[6..] == rest
            && Value(t[0..2]) == hour && Value(t[3..5]) == minute
  {
    assert Power10(2) == 100;
    var a := Pad(minute, 2) + ([':'] + rest);
    var t := Pad(hour, 2) + ([':'] + a);
    Field(minute, 2, ':', rest);
    Field(hour, 2, ':', a);
    assert t[0..2] == t[..2] && t[3..5] == a[..2] && t[6..] == rest && t[5] == a[2];
  }

  lemma ClockReadsBack(s: Stamp)
    requires Proper(s)
    ensures var t := ClockText(s);
            && |t| == 13 && t[2] == ':' && t[5] == ':' && t[8] == '.' && t[12] == 'Z'
            && Value(t[0..2]) == s.hour && Value(t[3..5]) == s.minute && Value(t[6..8]) == s.second && Value(t[9..12]) == s.milli
  {
    var rest := Pad(s.second, 2) + (['.'] + (Pad(s.milli, 3) + ['Z']));
    var t := ClockText(s);
    SecondFields(s.second, s.milli);
    HourFields(s.hour, s.minute, rest);
    assert t[6..] == rest;
    assert t[6..8] == rest[0..2] && t[9..12] == rest[3..6] && t[8] == rest[2] && t[12] == rest[6];
  }

  lemma DateFields(year: nat, month: nat, day: nat, rest: string)
    requires year <= 9999 && month <= 99 && day <= 99
    ensures var t := Pad(year, 4) + (['-'] + (Pad(month, 2) + (['-'] + (Pad(day, 2) + (['T'] + rest)))));
            && |t| == 11 + |rest| && t[4] == '-' && t[7] == '-' && t[10] == 'T' && t[11..] == rest
            && Value(t[0..4]) == year && Value(t[5..7]) == month && Value(t[8..10]) == day
  {
    assert Power10(2) == 100 && Power10(4) == 10000;
    var b := Pad(day, 2) + (['T'] + rest);
    var a := Pad(month, 2) + (['-'] + b);
    var t := Pad(year, 4) + (['-'] + a);
    Field(day, 2, 'T', rest);
    Field(month, 2, '-', b);
    Field(year, 4, '-', a);
    assert t[0..4] == t[..4] && t[5..7] == a[..2] && t[8..10] == b[..2] && t[11..] == rest;
    assert t[7] == a[2] && t[10] == b[2];
  }

  /** Year, month, day and time of day stand where section 5.6 of RFC 3339 puts them. */
  lemma TextReadsBack(s: Stamp)
    requires Proper(s) && 0 <= s.date.year <= 9999
    ensures var t := Text(s);
            && |t| == 24 && t[4] == '-' && t[7] == '-' && t[10] == 'T' && t[11..] == ClockText(s)
            && Value(t[0..4]) == s.date.year && Value(t[5..7]) == s.date.month && Value(t[8..10]) == s.date.day
  {
    ClockReadsBack(s);
    DateFields(s.date.year, s.date.month, s.date.day, ClockText(s));
  }

  /** The stamp is the moment: a date counted from the epoch, and the time that is left of the day. */
  lemma StampMeans(t: nat)
    ensures var s := FromMillis(t);
            exists n: nat ::
              s.date == Step(n) && t == 86400000 * n + 3600000 * s.hour + 60000 * s.minute + 1000 * s.second + s.milli
  {
    var secs := t / 1000;
    var n, rest := secs / 86400, secs % 86400;
    var s := FromMillis(t);
    CivilIsStep(n);
    ClockParts(rest, rest / 3600, rest % 3600 / 60, rest % 60);
    MillisAdd(t, secs, n, rest, s.hour, s.minute, s.second, s.milli);
    assert s.date == Step(n);
  }

  lemma MillisAdd(t: nat, secs: nat, n: nat, rest: nat, hour: int, minute: int, second: int, milli: int)
    requires t == 1000 * secs + milli && secs == 86400 * n + rest && rest == 3600 * hour + 60 * minute + second
    ensures t == 86400000 * n + 3600000 * hour + 60000 * minute + 1000 * second + milli
  {
  }

  predicate StampLess(a: Stamp, b: Stamp) {
    DateLess(a.date, b.date) || (a.date == b.date && ClockLess(a, b))
  }

  lemma LaterIsLater(t: nat, u: nat)
    requires t < u
    ensures StampLess(FromMillis(t), FromMillis(u))
  {
    SplitTime(t, u);
    var n, m := t / 1000 / 86400, u / 1000 / 86400;
    if n < m {
      LaterDayLaterDate(n, m);
    } else {
      var d := CivilFromDays(n);
      ClockOrder(d, d, t / 1000 % 86400, u / 1000 % 86400, t % 1000, u % 1000);
    }
  }

  function Timestamp(t: nat): string {
    MillisAreProper(t);
    Text(FromMillis(t))
  }

  lemma StampTextOrder(a: Stamp, b: Stamp)
    requires Proper(a) && Proper(b) && StampLess(a, b) && 0 <= a.date.year && b.date.year <= 9999
    ensures Before(Text(a), Text(b))
  {
    TextOrder(a, b);
  }

  /** For years of four digits, the printed order of two timestamps is their order in time. */
  lemma TimestampOrder(t: nat, u: nat)
    requires t < u && FromMillis(u).date.year <= 9999
    ensures Before(Timestamp(t), Timestamp(u))
  {
    MillisAreProper(t);
    MillisAreProper(u);
    LaterIsLater(t, u);
    StampTextOrder(FromMillis(t), FromMillis(u));
  }

  // The first millisecond of the year 10000.
  const FIVE_DIGITS := 253402300800000

  lemma TurnOfYear10000()
    ensures CivilFromDays(2932896) == Date(9999, 12, 31)
    ensures CivilFromDays(2932897) == Date(10000, 1, 1)
  {
    CivilIs(2932896, 24, 146036);
    InEraIs(24, 146036, 399, 305, 9999);
    CivilAdvances(2932896, 2932897);
  }

  lemma FourDigitsUntil(t: nat)
    ensures FromMillis(t).date.year <= 9999 <==> t < FIVE_DIGITS
  {
    TurnOfYear10000();
    var n := t / 1000 / 86400;
    assert t < FIVE_DIGITS <==> n <= 2932896;
    if n < 2932896 {
      LaterDayLaterDate(n, 2932896);
    } else if 2932897 < n {
      LaterDayLaterDate(2932897, n);
    }
  }

  /** A number with `k + 1` digits starts with its leading one, if the field is no wider. */
  lemma {:induction false} LeadingDigit(n: nat, w: nat, d: nat, k: nat, unit: nat)
    requires 0 < d < 10 && w <= k + 1 && unit == Power10(k) && unit * d <= n < unit * d + unit
    ensures Pad(n, w) != [] && Pad(n, w)[0] == Digit(d)
    decreases k
  {
    if k == 0 {
      assert n / 10 == 0;
    } else {
      var tenth := Power10(k - 1);
      assert unit == 10 * tenth;
      assert unit * d == 10 * (tenth * d);
      LeadingDigit(n / 10, if w == 0 then 0 else w - 1, d, k - 1, tenth);
    }
  }

  lemma FiveDigitsFirst(a: Stamp, b: Stamp)
    requires Proper(a) && Proper(b) && a.date.year == 9999 && b.date.year == 10000
    ensures !Before(Text(a), Text(b))
  {
    assert Power10(3) == 1000 && Power10(4) == 10000;
    LeadingDigit(9999, 4, 9, 3, 1000);
    LeadingDigit(10000, 4, 1, 4, 10000);
    assert Text(a)[0] == '9' && Text(b)[0] == '1';
  }

  /** Five-digit years sort before the four-digit years they follow. */
  lemma OrderBreaks(t: nat, u: nat)
    requires FromMillis(t).date.year == 9999 && FromMillis(u).date.year == 10000
    ensures !Before(Timestamp(t), Timestamp(u))
  {
    MillisAreProper(t);
    MillisAreProper(u);
    FiveDigitsFirst(FromMillis(t), FromMillis(u));
  }

  /** The two timestamps on either side of the turn of the year 10000 are out of order. */
  lemma OrderBreaksAt10000()
    ensures !Before(Timestamp(FIVE_DIGITS - 1), Timestamp(FIVE_DIGITS))
  {
    TurnOfYear10000();
    var t, u: nat := FIVE_DIGITS - 1, FIVE_DIGITS;
    assert t / 1000 / 86400 == 2932896 && u / 1000 / 86400 == 2932897;
    OrderBreaks(t, u);
  }

  ghost predicate FaithfulUpTo(end: nat) {
    forall t: nat, u: nat :: t < u <= end ==> Before(Timestamp(t), Timestamp(u))
  }

  /** Printed order is time order up to a moment exactly when that moment's year has four digits. */
  lemma OrderIsFaithful(end: nat)
    ensures FaithfulUpTo(end) <==> FromMillis(end).date.year <= 9999
  {
    FourDigitsUntil(end);
    if end < FIVE_DIGITS {
      forall t: nat, u: nat | t < u <= end
        ensures Before(Timestamp(t), Timestamp(u))
      {
        FourDigitsUntil(u);
        TimestampOrder(t, u);
      }
    } else {
      OrderBreaksAt10000();
    }
  }
}
