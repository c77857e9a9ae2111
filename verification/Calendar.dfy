// UTC instants, civil time, and the RFC 3339 text that the database stores and compares.
module Calendar {
  import opened Text

  /** Nanoseconds since 0000-01-01T00:00:00Z on the proleptic Gregorian calendar. */
  type Instant = int
  type Duration = int

  // ---------- Years and months ----------

  predicate IsLeap(y: int) { y % 4 == 0 && (y % 100 != 0 || y % 400 == 0) }

  function YearLength(y: int): int { if IsLeap(y) then 366 else 365 }

  /** Days from 0000-01-01 to the first day of year `y`, for any `y`. */
  function YearStart(y: int): int { 365 * y + (y + 3) / 4 - (y + 99) / 100 + (y + 399) / 400 }

  lemma CeilStep(y: int, n: int)
    requires n == 4 || n == 100 || n == 400
    ensures (y + n) / n == (y + n - 1) / n + if y % n == 0 then 1 else 0
  {
  }

  lemma Multiples(y: int)
    ensures (y % 400 == 0 ==> y % 100 == 0) && (y % 100 == 0 ==> y % 4 == 0)
  {
    var q, r := y / 400, y / 100;
    if y % 400 == 0 { assert y == 400 * q; }
    if y % 100 == 0 { assert y == 100 * r; }
  }

  lemma YearStartStep(y: int)
    ensures YearStart(y + 1) == YearStart(y) + YearLength(y)
  {
    CeilStep(y, 4);
    CeilStep(y, 100);
    CeilStep(y, 400);
    Multiples(y);
  }

  lemma {:induction false} YearStartMonotone(y: int, z: int)
    requires y <= z
    ensures YearStart(y) + 365 * (z - y) <= YearStart(z)
    decreases z - y
  {
    if y < z {
      YearStartStep(z - 1);
      YearStartMonotone(y, z - 1);
    }
  }

  function YearFrom(y: int, day: int): (r: int)
    requires YearStart(y) <= day
    ensures YearStart(r) <= day < YearStart(r + 1)
    decreases day - YearStart(y)
  {
    YearStartStep(y);
    if day < YearStart(y + 1) then y else YearFrom(y + 1, day)
  }

  function YearOf(day: int): (r: int)
    ensures YearStart(r) <= day < YearStart(r + 1)
  {
    YearFrom(if day >= 0 then 0 else day, day)
  }

  function MonthLength(m: int, leap: bool): int
    requires 1 <= m <= 12
  {
    if m == 2 then (if leap then 29 else 28) else if m == 4 || m == 6 || m == 9 || m == 11 then 30 else 31
  }

  /** Days from the start of the year to the start of month `m`. */
  function MonthStart(m: int, leap: bool): (d: int)
    requires 1 <= m <= 12
    ensures d >= 0
  {
    if m == 1 then 0 else MonthStart(m - 1, leap) + MonthLength(m - 1, leap)
  }

  lemma MonthStarts(leap: bool)
    ensures var n := if leap then 1 else 0;
      var starts := [0, 31, 59 + n, 90 + n, 120 + n, 151 + n, 181 + n, 212 + n, 243 + n, 273 + n, 304 + n, 334 + n];
      forall m :: 1 <= m <= 12 ==> MonthStart(m, leap) == starts[m - 1]
  {
    var leapDay := if leap then 1 else 0;
    assert MonthStart(2, leap) == 31;
    assert MonthStart(3, leap) == 59 + leapDay;
    assert MonthStart(5, leap) == 120 + leapDay;
    assert MonthStart(7, leap) == 181 + leapDay;
    assert MonthStart(9, leap) == 243 + leapDay;
    assert MonthStart(11, leap) == 304 + leapDay;
  }

  lemma DaysInYear(leap: bool)
    ensures MonthStart(12, leap) + 31 == if leap then 366 else 365
  {
    MonthStarts(leap);
  }

  /** Month of the zero-based day `d` of the year, searching from month `m`. */
  function MonthFrom(m: int, d: int, leap: bool): (r: int)
    requires 1 <= m <= 12 && MonthStart(m, leap) <= d < MonthStart(12, leap) + 31
    ensures m <= r <= 12 && MonthStart(r, leap) <= d < MonthStart(r, leap) + MonthLength(r, leap)
    decreases 12 - m
  {
    if d < MonthStart(m, leap) + MonthLength(m, leap) then m else MonthFrom(m + 1, d, leap)
  }

  lemma {:induction false} MonthStartMonotone(m: int, n: int, leap: bool)
    requires 1 <= m < n <= 12
    ensures MonthStart(m, leap) + MonthLength(m, leap) <= MonthStart(n, leap)
    decreases n - m
  {
    if m + 1 < n { MonthStartMonotone(m, n - 1, leap); }
  }

  // ---------- Civil time ----------

  datatype Date = Date(year: int, month: int, day: int)
  datatype Time = Time(hour: int, minute: int, second: int, nano: int)
  datatype Civil = Civil(date: Date, time: Time)

  predicate InRange(c: Civil) {
    && 1 <= c.date.month <= 12 && 1 <= c.date.day <= 31
    && 0 <= c.time.hour < 24 && 0 <= c.time.minute < 60 && 0 <= c.time.second < 60
    && 0 <= c.time.nano < 1_000_000_000
  }

  /** Date of the day numbered from 0000-01-01. */
  function DateOf(day: int): (d: Date)
    ensures 1 <= d.month <= 12 && 1 <= d.day <= 31
  {
    var year := YearOf(day);
    YearStartStep(year);
    DaysInYear(IsLeap(year));
    var d := day - YearStart(year);
    var month := MonthFrom(1, d, IsLeap(year));
    Date(year, month, d - MonthStart(month, IsLeap(year)) + 1)
  }

  /** Time of day, from nanoseconds after midnight. */
  function TimeOf(rest: int): Time
    requires 0 <= rest < 86_400_000_000_000
  {
    var secs := rest / 1_000_000_000;
    Time(secs / 3600, secs / 60 % 60, secs % 60, rest % 1_000_000_000)
  }

  function CivilOf(t: Instant): (c: Civil)
    ensures InRange(c)
  {
    Civil(DateOf(t / 86_400_000_000_000), TimeOf(t % 86_400_000_000_000))
  }

  function Year(t: Instant): int { CivilOf(t).date.year }

  predicate DayBefore(a: Date, b: Date) {
    a.month < b.month || (a.month == b.month && a.day < b.day)
  }

  predicate DateBefore(a: Date, b: Date) { a.year < b.year || (a.year == b.year && DayBefore(a, b)) }

  predicate TimeBefore(a: Time, b: Time) {
    a.hour < b.hour || (a.hour == b.hour && (
    a.minute < b.minute || (a.minute == b.minute && (
    a.second < b.second || (a.second == b.second && a.nano < b.nano)))))
  }

  /** Order of everything below the year. */
  predicate RestBefore(a: Civil, b: Civil) {
    DayBefore(a.date, b.date)
    || (a.date.month == b.date.month && a.date.day == b.date.day && TimeBefore(a.time, b.time))
  }

  predicate Before(a: Civil, b: Civil) {
    a.date.year < b.date.year || (a.date.year == b.date.year && RestBefore(a, b))
  }

  lemma SecondsOrder(s: int, r: int)
    requires 0 <= s <= r
    ensures s / 3600 <= r / 3600
    ensures s / 3600 == r / 3600 ==> s / 60 % 60 <= r / 60 % 60
    ensures s / 3600 == r / 3600 && s / 60 % 60 == r / 60 % 60 ==> s - s % 60 == r - r % 60
  {
    var i, j := s / 60, r / 60;
    assert s == 60 * i + s % 60 && r == 60 * j + r % 60;
    assert s / 3600 == i / 60 && r / 3600 == j / 60;
    assert i == 60 * (i / 60) + i % 60 && j == 60 * (j / 60) + j % 60;
  }

  lemma TimeOrder(x: int, y: int)
    requires 0 <= x < y < 86_400_000_000_000
    ensures TimeBefore(TimeOf(x), TimeOf(y))
  {
    var s, r := x / 1_000_000_000, y / 1_000_000_000;
    assert s <= r && (s == r ==> x % 1_000_000_000 < y % 1_000_000_000);
    SecondsOrder(s, r);
  }

  lemma MonthOrder(y: int, d: int, e: int)
    requires YearOf(d) == YearOf(e) == y && d < e
    ensures DayBefore(DateOf(d), DateOf(e))
  {
    var m, n := DateOf(d).month, DateOf(e).month;
    if n < m { MonthStartMonotone(n, m, IsLeap(y)); }
  }

  lemma YearOrder(d: int, e: int)
    requires d < e
    ensures YearOf(d) <= YearOf(e)
  {
    if YearOf(e) < YearOf(d) { YearStartMonotone(YearOf(e) + 1, YearOf(d)); }
  }

  lemma DateOrder(d: int, e: int)
    requires d < e
    ensures DateBefore(DateOf(d), DateOf(e))
  {
    YearOrder(d, e);
    if YearOf(d) == YearOf(e) { MonthOrder(YearOf(d), d, e); }
  }

  lemma EarlierIsBefore(a: Instant, b: Instant)
    requires a < b
    ensures Before(CivilOf(a), CivilOf(b))
  {
    var d, e := a / 86_400_000_000_000, b / 86_400_000_000_000;
    if d == e {
      TimeOrder(a % 86_400_000_000_000, b % 86_400_000_000_000);
    } else {
      DateOrder(d, e);
    }
  }

  lemma BeforeIsAsymmetric(c: Civil, d: Civil)
    ensures !(Before(c, d) && Before(d, c)) && (c == d ==> !Before(c, d))
  {
  }

  /** Civil fields, most significant first, order instants exactly as time does. */
  lemma CivilOrder(a: Instant, b: Instant)
    ensures a < b <==> Before(CivilOf(a), CivilOf(b))
    ensures a == b <==> CivilOf(a) == CivilOf(b)
  {
    BeforeIsAsymmetric(CivilOf(a), CivilOf(b));
    if a < b {
      EarlierIsBefore(a, b);
    } else if b < a {
      EarlierIsBefore(b, a);
    }
  }

  lemma YearIs(y: int, day: int)
    requires YearStart(y) <= day < YearStart(y + 1)
    ensures YearOf(day) == y
  {
    var z := YearOf(day);
    if z < y { YearStartMonotone(z + 1, y); }
    if y < z { YearStartMonotone(y + 1, z); }
  }

  lemma MonthIs(m: int, d: int, leap: bool)
    requires 1 <= m <= 12 && MonthStart(m, leap) <= d < MonthStart(m, leap) + MonthLength(m, leap)
    ensures 0 <= d < MonthStart(12, leap) + 31 && MonthStart(1, leap) == 0 && MonthFrom(1, d, leap) == m
  {
    if m < 12 { MonthStartMonotone(m, 12, leap); }
    var n := MonthFrom(1, d, leap);
    if n < m { MonthStartMonotone(n, m, leap); }
    if m < n { MonthStartMonotone(m, n, leap); }
  }

  /** Every date of the calendar is the date of its own day. */
  lemma DateIs(y: int, m: int, d: int)
    requires 1 <= m <= 12 && 1 <= d <= MonthLength(m, IsLeap(y))
    ensures DateOf(YearStart(y) + MonthStart(m, IsLeap(y)) + d - 1) == Date(y, m, d)
  {
    var leap := IsLeap(y);
    hide YearStart, IsLeap, MonthStart, MonthLength, YearOf, MonthFrom;
    MonthIs(m, MonthStart(m, leap) + d - 1, leap);
    DaysInYear(leap);
    YearStartStep(y);
    YearIs(y, YearStart(y) + MonthStart(m, leap) + d - 1);
  }

  /** Days are counted as everyone counts them: 719528 days before the Unix epoch; 2000 is a leap year, 1900
      and 2100 are not; and the months have their lengths. */
  lemma KnownDates()
    ensures DateOf(719_528) == Date(1970, 1, 1)
    ensures DateOf(694_020) == Date(1900, 3, 1) && DateOf(694_019) == Date(1900, 2, 28)
    ensures DateOf(730_544) == Date(2000, 2, 29) && DateOf(767_069) == Date(2100, 3, 1)
    ensures forall m :: 1 <= m <= 12 ==>
      DateOf(739_982 + [0, 31, 59, 90, 120, 151, 181, 212, 243, 273, 304, 334][m - 1]) == Date(2026, m, 1)
  {
    MonthStarts(false);
    MonthStarts(true);
    hide DateOf, MonthStart;
    DateIs(1970, 1, 1);
    DateIs(1900, 3, 1);
    DateIs(1900, 2, 28);
    DateIs(2000, 2, 29);
    DateIs(2100, 3, 1);
    forall m | 1 <= m <= 12 { DateIs(2026, m, 1); }
  }

  // ---------- RFC 3339 text ----------

  /** Four digits for years 0-9999, otherwise an explicit sign and at least four digits. */
  function YearText(y: int): string {
    if 0 <= y <= 9999 then Pad(4, y)
    else (if y < 0 then "-" else "+") + var n := if y < 0 then -y else y; if n <= 9999 then Pad(4, n) else Decimal(n)
  }

  predicate AllZero(groups: seq<nat>) { groups == [] || (groups[0] == 0 && AllZero(groups[1..])) }

  /** The zone, preceded by the shortest of 0, 3, 6 or 9 fraction digits that is exact; the groups
      still to print are milliseconds, microseconds and nanoseconds. */
  function FractionTail(groups: seq<nat>): string {
    if AllZero(groups) then "+00:00" else Pad(3, groups[0]) + FractionTail(groups[1..])
  }

  function FractionGroups(nano: int): (gs: seq<nat>)
    requires 0 <= nano < 1_000_000_000
    ensures |gs| == 3 && forall i :: 0 <= i < 3 ==> gs[i] < 1000
  {
    [nano / 1_000_000, nano / 1000 % 1000, nano % 1000]
  }

  function FractionText(nano: int): string
    requires 0 <= nano < 1_000_000_000
  {
    (if nano == 0 then "" else ".") + FractionTail(FractionGroups(nano))
  }

  function TimeText(t: Time): string
    requires 0 <= t.hour < 24 && 0 <= t.minute < 60 && 0 <= t.second < 60 && 0 <= t.nano < 1_000_000_000
  {
    Pad(2, t.hour) + (":" + (Pad(2, t.minute) + (":" + (Pad(2, t.second) + FractionText(t.nano)))))
  }

  /** Everything after the year. */
  function RestText(c: Civil): string
    requires InRange(c)
  {
    "-" + (Pad(2, c.date.month) + ("-" + (Pad(2, c.date.day) + ("T" + TimeText(c.time)))))
  }

  function CivilText(c: Civil): string
    requires InRange(c)
  {
    YearText(c.date.year) + RestText(c)
  }

  /** `DateTime<Utc>::to_rfc3339`. */
  function Rfc3339(t: Instant): string { CivilText(CivilOf(t)) }

  predicate GroupsBefore(a: seq<nat>, b: seq<nat>)
    requires |a| == |b|
  {
    a != [] && (a[0] < b[0] || (a[0] == b[0] && GroupsBefore(a[1..], b[1..])))
  }

  lemma {:induction false} ZeroGroups(a: seq<nat>, b: seq<nat>)
    requires |a| == |b|
    ensures AllZero(a) ==> (GroupsBefore(a, b) <==> !AllZero(b))
    ensures AllZero(b) ==> !GroupsBefore(a, b)
  {
    if a != [] { ZeroGroups(a[1..], b[1..]); }
  }

  lemma {:induction false} FractionTailOrder(a: seq<nat>, b: seq<nat>)
    requires |a| == |b|
    requires forall i :: 0 <= i < |a| ==> a[i] < 1000 && b[i] < 1000
    ensures Less(FractionTail(a), FractionTail(b)) <==> GroupsBefore(a, b)
  {
    LessIsIrreflexive("+00:00");
    if a != [] {
      FractionTailOrder(a[1..], b[1..]);
      assert Pow10(3) == 1000;
      ZeroGroups(a, b);
      if !AllZero(a) && !AllZero(b) {
        FieldOrder(3, a[0], FractionTail(a[1..]), b[0], FractionTail(b[1..]));
      } else {
        assert !AllZero(a) ==> IsDigit(FractionTail(a)[0]);
        assert !AllZero(b) ==> IsDigit(FractionTail(b)[0]);
      }
    }
  }

  lemma GroupsSum(m: int)
    requires 0 <= m < 1_000_000_000
    ensures m == 1_000_000 * (m / 1_000_000) + 1000 * (m / 1000 % 1000) + m % 1000
  {
    var k := m / 1000;
    assert m == 1000 * k + m % 1000 && k == 1000 * (k / 1000) + k % 1000 && m / 1_000_000 == k / 1000;
  }

  lemma GroupsOrder(m: int, n: int)
    requires 0 <= m < 1_000_000_000 && 0 <= n < 1_000_000_000
    ensures GroupsBefore(FractionGroups(m), FractionGroups(n)) <==> m < n
    ensures AllZero(FractionGroups(m)) <==> m == 0
  {
    var a, b := FractionGroups(m), FractionGroups(n);
    var a1, b1 := a[1..], b[1..];
    assert GroupsBefore(a1[1..], b1[1..]) <==> a[2] < b[2];
    assert GroupsBefore(a1, b1) <==> a[1] < b[1] || (a[1] == b[1] && a[2] < b[2]);
    assert m == 1_000_000 * a[0] + 1000 * a[1] + a[2] by { GroupsSum(m); }
    assert n == 1_000_000 * b[0] + 1000 * b[1] + b[2] by { GroupsSum(n); }
    assert AllZero(a1[1..]) <==> a[2] == 0;
  }

  lemma LiteralFirst(c: string, x: string, y: string)
    requires |c| == 1
    ensures Less(c + x, c + y) <==> Less(x, y)
  {
    LessByField(c, x, c, y);
    LessIsIrreflexive(c);
  }

  lemma FractionOrder(m: int, n: int)
    requires 0 <= m < 1_000_000_000 && 0 <= n < 1_000_000_000
    ensures Less(FractionText(m), FractionText(n)) <==> m < n
  {
    var a, b := FractionGroups(m), FractionGroups(n);
    GroupsOrder(m, n);
    GroupsOrder(n, m);
    FractionTailOrder(a, b);
    LiteralFirst(".", FractionTail(a), FractionTail(b));
    assert m == 0 ==> FractionText(m) == "+00:00";
    assert n == 0 ==> FractionText(n) == "+00:00";
    assert m != 0 ==> FractionText(m)[0] == '.';
    assert n != 0 ==> FractionText(n)[0] == '.';
    LessIsIrreflexive("+00:00");
  }

  lemma TimeTextOrder(a: Time, b: Time)
    requires 0 <= a.hour < 24 && 0 <= a.minute < 60 && 0 <= a.second < 60 && 0 <= a.nano < 1_000_000_000
    requires 0 <= b.hour < 24 && 0 <= b.minute < 60 && 0 <= b.second < 60 && 0 <= b.nano < 1_000_000_000
    ensures Less(TimeText(a), TimeText(b)) <==> TimeBefore(a, b)
  {
    assert Pow10(2) == 100;
    var a2, b2 := Pad(2, a.second) + FractionText(a.nano), Pad(2, b.second) + FractionText(b.nano);
    FractionOrder(a.nano, b.nano);
    FieldOrder(2, a.second, FractionText(a.nano), b.second, FractionText(b.nano));
    LiteralFirst(":", a2, b2);
    FieldOrder(2, a.minute, ":" + a2, b.minute, ":" + b2);
    var a1, b1 := Pad(2, a.minute) + (":" + a2), Pad(2, b.minute) + (":" + b2);
    LiteralFirst(":", a1, b1);
    FieldOrder(2, a.hour, ":" + a1, b.hour, ":" + b1);
  }

  lemma RestOrder(a: Civil, b: Civil)
    requires InRange(a) && InRange(b)
    ensures Less(RestText(a), RestText(b)) <==> RestBefore(a, b)
  {
    assert Pow10(2) == 100;
    TimeTextOrder(a.time, b.time);
    var a2, b2 := "T" + TimeText(a.time), "T" + TimeText(b.time);
    LiteralFirst("T", TimeText(a.time), TimeText(b.time));
    FieldOrder(2, a.date.day, a2, b.date.day, b2);
    var a1, b1 := Pad(2, a.date.day) + a2, Pad(2, b.date.day) + b2;
    LiteralFirst("-", a1, b1);
    FieldOrder(2, a.date.month, "-" + a1, b.date.month, "-" + b1);
    LiteralFirst("-", Pad(2, a.date.month) + ("-" + a1), Pad(2, b.date.month) + ("-" + b1));
  }

  lemma TailIs(a: nat, rest: seq<nat>)
    ensures AllZero([a] + rest) <==> a == 0 && AllZero(rest)
    ensures FractionTail([]) == "+00:00"
    ensures FractionTail([a] + rest) == if AllZero([a] + rest) then "+00:00" else Pad(3, a) + FractionTail(rest)
  {
    assert ([a] + rest)[1..] == rest;
  }

  /** The time zone, after a fraction in groups of three digits, as many as it takes. */
  lemma FractionLayout(nano: int)
    requires 0 <= nano < 1_000_000_000
    ensures var ms, us, ns := Pad(3, nano / 1_000_000), Pad(3, nano / 1000 % 1000), Pad(3, nano % 1000);
      FractionText(nano) ==
        if nano == 0 then "+00:00"
        else if nano / 1000 % 1000 == 0 && nano % 1000 == 0 then "." + (ms + "+00:00")
        else if nano % 1000 == 0 then "." + (ms + (us + "+00:00"))
        else "." + (ms + (us + (ns + "+00:00")))
  {
    var gs := FractionGroups(nano);
    GroupsOrder(nano, 0);
    assert gs == [gs[0]] + ([gs[1]] + ([gs[2]] + []));
    TailIs(gs[2], []);
    TailIs(gs[1], [gs[2]] + []);
    TailIs(gs[0], [gs[1]] + ([gs[2]] + []));
    assert AllZero([]);
    hide Pad, AllZero, FractionTail;
  }

  /** From 0000-01-01 up to, not including, 10000-01-01. */
  predicate FourDigitYear(t: Instant) { 0 <= t < 315_569_520_000_000_000_000 }

  lemma FourDigitYearRange(t: Instant)
    ensures FourDigitYear(t) <==> 0 <= Year(t) <= 9999
  {
    var day := t / 86_400_000_000_000;
    var y := YearOf(day);
    assert Year(t) == y;
    assert FourDigitYear(t) <==> YearStart(0) <= day < YearStart(10000);
    hide YearOf, CivilOf, YearStart;
    if y < 0 { YearStartMonotone(y + 1, 0); }
    if 0 <= y { YearStartMonotone(0, y); }
    if y < 10000 { YearStartMonotone(y + 1, 10000); }
    if 10000 <= y { YearStartMonotone(10000, y); }
  }

  lemma FieldThen(w: nat, n: nat, c: char, rest: string)
    ensures var s := Pad(w, n) + ([c] + rest); s[..w] == Pad(w, n) && s[w] == c && s[w + 1..] == rest
  {
  }

  /** Where the fields are in the text of an instant with a four-digit year. */
  lemma TextColumns(t: Instant)
    requires FourDigitYear(t)
    ensures var s, c := Rfc3339(t), CivilOf(t);
      && |s| >= 19 && s[..4] == Pad(4, c.date.year) && s[4] == '-'
      && s[5..][..2] == Pad(2, c.date.month) && s[7] == '-' && s[8..][..2] == Pad(2, c.date.day) && s[10] == 'T'
      && s[11..][..2] == Pad(2, c.time.hour) && s[13] == ':' && s[14..][..2] == Pad(2, c.time.minute) && s[16] == ':'
      && s[17..][..2] == Pad(2, c.time.second) && s[19..] == FractionText(c.time.nano)
  {
    FourDigitYearRange(t);
    var c := CivilOf(t);
    var s5 := Pad(2, c.time.second) + FractionText(c.time.nano);
    var s4 := Pad(2, c.time.minute) + (":" + s5);
    var s3 := Pad(2, c.time.hour) + (":" + s4);
    var s2 := Pad(2, c.date.day) + ("T" + s3);
    var s1 := Pad(2, c.date.month) + ("-" + s2);
    assert Rfc3339(t) == Pad(4, c.date.year) + ("-" + s1);
    hide CivilOf, FractionText, Rfc3339, FourDigitYear, Pad;
    FieldThen(2, c.time.minute, ':', s5);
    FieldThen(2, c.time.hour, ':', s4);
    FieldThen(2, c.date.day, 'T', s3);
    FieldThen(2, c.date.month, '-', s2);
    FieldThen(4, c.date.year, '-', s1);
    var s := Rfc3339(t);
    assert s[5..] == s1 && s[8..] == s2 && s[11..] == s3 && s[14..] == s4 && s[17..] == s5;
  }

  lemma CivilTextOrder(c: Civil, d: Civil)
    requires InRange(c) && InRange(d) && 0 <= c.date.year <= 9999 && 0 <= d.date.year <= 9999
    ensures Less(CivilText(c), CivilText(d)) <==> Before(c, d)
  {
    RestOrder(c, d);
    assert Pow10(4) == 10000;
    FieldOrder(4, c.date.year, RestText(c), d.date.year, RestText(d));
  }

  lemma YearTextShape(y: int)
    ensures |YearText(y)| >= 2 && AllDigits(YearText(y)[1..])
  {
    if !(0 <= y <= 9999) {
      var n := if y < 0 then -y else y;
      if n > 9999 {
        assert YearText(y)[1..] == Decimal(n);
      } else {
        assert YearText(y)[1..] == Pad(4, n);
      }
    }
  }

  /** The number printed: all of a four-digit year, and what follows the sign of any other. */
  lemma YearDigits(y: int)
    ensures 0 <= y <= 9999 ==> AllDigits(YearText(y)) && DigitsValue(YearText(y)) == y
    ensures !(0 <= y <= 9999) ==> YearText(y)[0] == if y < 0 then '-' else '+'
    ensures !(0 <= y <= 9999) ==> DigitsValue(YearText(y)[1..]) == if y < 0 then -y else y
  {
    assert Pow10(4) == 10000;
    YearTextShape(y);
    var n := if y < 0 then -y else y;
    if n <= 9999 { PadValue(4, n); } else { DecimalValue(n); }
    if !(0 <= y <= 9999) { assert YearText(y)[1..] == if n <= 9999 then Pad(4, n) else Decimal(n); }
  }

  lemma YearTextInjective(y: int, z: int)
    requires YearText(y) == YearText(z)
    ensures y == z
  {
    YearTextShape(y);
    YearDigits(y);
    YearDigits(z);
    hide YearText;
    assert 0 <= y <= 9999 ==> IsDigit(YearText(y)[0]);
    assert 0 <= z <= 9999 ==> IsDigit(YearText(z)[0]);
  }

  /** The year's text ends at the first `-` after its first character. */
  lemma YearSplit(y: int, x: string, z: int, w: string)
    requires x != "" && x[0] == '-' && YearText(y) + x == YearText(z) + w
    ensures |YearText(z)| <= |YearText(y)|
  {
    YearTextShape(y);
    YearTextShape(z);
    var k := |YearText(y)|;
    assert (YearText(y) + x)[k] == '-';
    assert forall i :: 1 <= i < |YearText(z)| ==> IsDigit((YearText(z) + w)[i]) by {
      forall i | 1 <= i < |YearText(z)| ensures IsDigit((YearText(z) + w)[i]) {
        assert YearText(z)[1..][i - 1] == (YearText(z) + w)[i];
      }
    }
  }

  lemma CivilTextInjective(c: Civil, d: Civil)
    requires InRange(c) && InRange(d) && CivilText(c) == CivilText(d)
    ensures c.date.year == d.date.year && RestText(c) == RestText(d)
  {
    YearSplit(c.date.year, RestText(c), d.date.year, RestText(d));
    YearSplit(d.date.year, RestText(d), c.date.year, RestText(c));
    var k := |YearText(c.date.year)|;
    assert CivilText(c)[..k] == YearText(c.date.year) && CivilText(d)[..k] == YearText(d.date.year);
    assert CivilText(c)[k..] == RestText(c) && CivilText(d)[k..] == RestText(d);
    YearTextInjective(c.date.year, d.date.year);
  }

  /** The text of an instant determines the instant, in every year. */
  lemma TextInjective(a: Instant, b: Instant)
    requires Rfc3339(a) == Rfc3339(b)
    ensures a == b
  {
    var c, d := CivilOf(a), CivilOf(b);
    CivilTextInjective(c, d);
    RestOrder(c, d);
    RestOrder(d, c);
    LessIsIrreflexive(RestText(c));
    CivilOrder(a, b);
    CivilOrder(b, a);
  }

  /** Comparing the stored texts is comparing the times, for years 0000-9999. */
  lemma TextOrderIsTimeOrder(a: Instant, b: Instant)
    requires FourDigitYear(a) && FourDigitYear(b)
    ensures Less(Rfc3339(a), Rfc3339(b)) <==> a < b
    ensures Rfc3339(a) == Rfc3339(b) <==> a == b
  {
    FourDigitYearRange(a);
    FourDigitYearRange(b);
    CivilTextOrder(CivilOf(a), CivilOf(b));
    CivilOrder(a, b);
    if Rfc3339(a) == Rfc3339(b) { TextInjective(a, b); }
  }

  /** Past the year 9999 the leading sign breaks the order: a later instant has the smaller text. */
  lemma TextOrderNeedsFourDigitYears(a: Instant, b: Instant)
    requires FourDigitYear(a) && b >= 315_569_520_000_000_000_000
    ensures a < b && Less(Rfc3339(b), Rfc3339(a))
  {
    FourDigitYearRange(a);
    FourDigitYearRange(b);
    CivilOrder(a, b);
    assert Rfc3339(b)[0] == '+';
    assert IsDigit(Rfc3339(a)[0]);
  }

  // ---------- Text order in every year ----------

  function DecimalOfMany(n: nat): (s: string)
    requires n > 9999
    ensures s == Decimal(n) && |s| >= 4
  {
    var tens, hundreds, thousands := n / 10, n / 10 / 10, n / 10 / 10 / 10;
    assert thousands >= 1;
    assert |Decimal(hundreds)| == |Decimal(thousands)| + 1;
    assert |Decimal(tens)| == |Decimal(hundreds)| + 1;
    Decimal(n)
  }

  /** The digits of a year's text, without its sign: the year's absolute value. */
  function Magnitude(n: nat): (s: string)
    ensures |s| >= 4 && AllDigits(s)
  {
    if n <= 9999 then Pad(4, n) else DecimalOfMany(n)
  }

  lemma {:induction false} DecimalIsPad(n: nat)
    ensures Decimal(n) == Pad(|Decimal(n)|, n) && n < Pow10(|Decimal(n)|)
  {
    if n < 10 {
      assert Pad(1, n) == Pad(0, n / 10) + [Digit(n % 10)];
      assert Pow10(1) == 10;
    } else {
      DecimalIsPad(n / 10);
    }
  }

  lemma MagnitudeIsPad(n: nat)
    ensures Magnitude(n) == Pad(|Magnitude(n)|, n) && n < Pow10(|Magnitude(n)|)
  {
    assert Pow10(4) == 10000;
    if n > 9999 { DecimalIsPad(n); }
  }

  /** The number without its last `k` decimal digits. */
  function Lead(n: nat, k: nat): nat { if k == 0 then n else Lead(n / 10, k - 1) }

  /** The first `w` of `w + k` digits are those of the number without its last `k`. */
  lemma {:induction false} PadPrefix(w: nat, k: nat, n: nat) returns (rest: string)
    requires n < Pow10(w + k)
    ensures Lead(n, k) < Pow10(w)
    ensures |rest| == k && AllDigits(rest) && Pad(w + k, n) == Pad(w, Lead(n, k)) + rest
    decreases k
  {
    if k == 0 {
      rest := "";
    } else {
      var before := PadPrefix(w, k - 1, n / 10);
      rest := before + [Digit(n % 10)];
    }
  }

  /** Digits in front of texts that begin with a hyphen, the first no longer than the second. */
  lemma ShorterFirst(m: nat, x: string, n: nat, y: string)
    requires |Magnitude(m)| <= |Magnitude(n)| && x != "" && x[0] == '-'
    ensures var k := |Magnitude(n)| - |Magnitude(m)|;
      Less(Magnitude(m) + x, Magnitude(n) + y) <==> m < Lead(n, k) || (m == Lead(n, k) && (k > 0 || Less(x, y)))
  {
    MagnitudeIsPad(m);
    MagnitudeIsPad(n);
    var w, k := |Magnitude(m)|, |Magnitude(n)| - |Magnitude(m)|;
    var rest := PadPrefix(w, k, n);
    hide Magnitude, Pad, Lead;
    assert Magnitude(n) + y == Pad(w, Lead(n, k)) + (rest + y);
    FieldOrder(w, m, x, Lead(n, k), rest + y);
    if k > 0 {
      assert (rest + y)[0] == rest[0] && IsDigit(rest[0]);
    } else {
      assert rest + y == y;
    }
  }

  lemma LongerFirst(m: nat, x: string, n: nat, y: string)
    requires |Magnitude(m)| > |Magnitude(n)| && x != "" && x[0] == '-' && y != "" && y[0] == '-'
    ensures Less(Magnitude(m) + x, Magnitude(n) + y) <==> Lead(m, |Magnitude(m)| - |Magnitude(n)|) < n
  {
    var a, b := Magnitude(m) + x, Magnitude(n) + y;
    ShorterFirst(n, y, m, x);
    assert a != b by { assert b[|Magnitude(n)|] == '-' && a[|Magnitude(n)|] == Magnitude(m)[|Magnitude(n)|]; }
    hide Magnitude, Lead;
    LessIsTotal(a, b);
    if Less(a, b) { LessIsAsymmetric(a, b); }
  }

  lemma {:induction false} DecimalGrows(m: nat, n: nat)
    requires m <= n
    ensures |Decimal(m)| <= |Decimal(n)|
  {
    if m >= 10 { DecimalGrows(m / 10, n / 10); }
  }

  lemma {:induction false} MagnitudeGrows(m: nat, n: nat)
    requires m <= n
    ensures |Magnitude(m)| <= |Magnitude(n)|
  {
    if m > 9999 { DecimalGrows(m, n); }
  }

  /** Of two times in different years, the earlier in `y`: does its text come first? From the year 10000 on,
      when its number is at most the leading digits of the other; before the year 0, when the leading digits
      of its own number are fewer than the other. */
  predicate EarlierTextFirst(y: int, z: int)
    requires y < z
  {
    if 0 <= z <= 9999 then true
    else if z > 9999 then y > 9999 && (MagnitudeGrows(y, z); y <= Lead(z, |Magnitude(z)| - |Magnitude(y)|))
    else |Magnitude(-y)| > |Magnitude(-z)| && Lead(-y, |Magnitude(-y)| - |Magnitude(-z)|) < -z
  }

  lemma SignedYear(y: int, x: string)
    requires !(0 <= y <= 9999)
    ensures YearText(y) + x == (if y < 0 then "-" else "+") + (Magnitude(if y < 0 then -y else y) + x)
  {
  }

  lemma LeadOfNothing(n: nat)
    ensures Lead(n, 0) == n
  {
  }

  lemma LaterYearsOrder(y: int, x: string, z: int, w: string)
    requires 9999 < y < z && x != "" && x[0] == '-'
    ensures Less(YearText(y) + x, YearText(z) + w) <==> EarlierTextFirst(y, z)
  {
    hide YearText, Magnitude, Lead;
    SignedYear(y, x);
    SignedYear(z, w);
    LiteralFirst("+", Magnitude(y) + x, Magnitude(z) + w);
    MagnitudeGrows(y, z);
    ShorterFirst(y, x, z, w);
    LeadOfNothing(z);
  }

  lemma GreaterFirst(m: nat, x: string, n: nat, w: string)
    requires m > n && x != "" && x[0] == '-' && w != "" && w[0] == '-'
    ensures Less(Magnitude(m) + x, Magnitude(n) + w)
      <==> |Magnitude(m)| > |Magnitude(n)| && Lead(m, |Magnitude(m)| - |Magnitude(n)|) < n
  {
    hide Magnitude, Lead, Less;
    MagnitudeGrows(n, m);
    if |Magnitude(m)| > |Magnitude(n)| {
      LongerFirst(m, x, n, w);
    } else {
      ShorterFirst(m, x, n, w);
      LeadOfNothing(n);
    }
  }

  lemma NegativeYearsOrder(y: int, x: string, z: int, w: string)
    requires y < z < 0 && x != "" && x[0] == '-' && w != "" && w[0] == '-'
    ensures Less(YearText(y) + x, YearText(z) + w) <==> EarlierTextFirst(y, z)
  {
    hide YearText, Magnitude, Lead, Less;
    SignedYear(y, x);
    SignedYear(z, w);
    LiteralFirst("-", Magnitude(-y) + x, Magnitude(-z) + w);
    GreaterFirst(-y, x, -z, w);
  }

  /** Years of different kinds are told apart by their first character: plus, minus, or a digit. */
  lemma OtherKindOrder(y: int, x: string, z: int, w: string)
    requires (y < 0 && z >= 0) || (0 <= y <= 9999 < z)
    ensures Less(YearText(y) + x, YearText(z) + w) <==> z <= 9999
  {
    YearTextShape(y);
    YearTextShape(z);
    YearDigits(y);
    YearDigits(z);
    hide YearText, DigitsValue;
    assert (YearText(y) + x)[0] == YearText(y)[0] && (YearText(z) + w)[0] == YearText(z)[0];
    assert 0 <= y <= 9999 ==> IsDigit(YearText(y)[0]);
    assert 0 <= z <= 9999 ==> IsDigit(YearText(z)[0]);
  }

  lemma FarYearsOrder(y: int, x: string, z: int, w: string)
    requires y < z && x != "" && x[0] == '-' && w != "" && w[0] == '-'
    ensures Less(YearText(y) + x, YearText(z) + w) <==> EarlierTextFirst(y, z)
  {
    if 0 <= y && z <= 9999 {
      assert Pow10(4) == 10000;
      hide Pad, Pow10;
      FieldOrder(4, y, x, z, w);
    } else {
      hide YearText, Magnitude, Lead;
      if y > 9999 { LaterYearsOrder(y, x, z, w); }
      else if z < 0 { NegativeYearsOrder(y, x, z, w); }
      else { OtherKindOrder(y, x, z, w); }
    }
  }

  /** For every two instants, in whatever years: the text of the earlier one is the smaller exactly when they
      fall in the same year, or the texts of their years are in order. So the order holds up to 9999, with
      negative years before the others; it is lost between negative years of equal width, and whenever only
      the later year is past 9999. */
  lemma TextOrderKeptIff(a: Instant, b: Instant)
    requires a < b
    ensures Year(a) <= Year(b)
    ensures Less(Rfc3339(a), Rfc3339(b)) <==> Year(a) == Year(b) || EarlierTextFirst(Year(a), Year(b))
  {
    var c, d := CivilOf(a), CivilOf(b);
    EarlierIsBefore(a, b);
    hide CivilOf, YearText, EarlierTextFirst;
    if c.date.year == d.date.year {
      RestOrder(c, d);
      LessByField(YearText(c.date.year), RestText(c), YearText(d.date.year), RestText(d));
    } else {
      FarYearsOrder(c.date.year, RestText(c), d.date.year, RestText(d));
    }
  }
}
