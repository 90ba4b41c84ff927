/**
 UTC instants and the text Python's `datetime.now(UTC).isoformat()` gives them. Event replay
 and reset-token expiry compare these texts as strings.
 */
module IsoTimestamps {
  import opened Text

  // ---------------------------------------------------------------- the calendar

  datatype DateTime = DateTime(
    year: nat, month: nat, day: nat, hour: nat, minute: nat, second: nat, micro: nat)

  predicate Leap(y: nat) {
    y % 4 == 0 && (y % 100 != 0 || y % 400 == 0)
  }

  function DaysInMonth(y: nat, m: nat): (n: nat)
    ensures n > 0
  {
    if m == 2 then (if Leap(y) then 29 else 28)
    else if m == 4 || m == 6 || m == 9 || m == 11 then 30
    else 31
  }

  predicate Valid(d: DateTime) {
    1 <= d.year <= 9999 && 1 <= d.month <= 12 && 1 <= d.day <= DaysInMonth(d.year, d.month)
    && d.hour < 24 && d.minute < 60 && d.second < 60 && d.micro < 1_000_000
  }

  type Moment = d: DateTime | Valid(d) witness DateTime(1970, 1, 1, 0, 0, 0, 0)

  /** Days in all years before y, year 1 being the first. */
  function DaysBeforeYear(y: nat): int
    requires y > 0
  {
    (y - 1) * 365 + (y - 1) / 4 - (y - 1) / 100 + (y - 1) / 400
  }

  function DaysBeforeMonth(y: nat, m: nat): nat
    requires m > 0
  {
    if m == 1 then 0 else DaysBeforeMonth(y, m - 1) + DaysInMonth(y, m - 1)
  }

  /** Proleptic Gregorian day number. */
  function DayNumber(y: nat, m: nat, d: nat): int
    requires y > 0 && m > 0
  {
    DaysBeforeYear(y) + DaysBeforeMonth(y, m) + d
  }

  /** Microseconds since the start of day 0. */
  function Instant(d: DateTime): int
    requires Valid(d)
  {
    (((DayNumber(d.year, d.month, d.day) * 24 + d.hour) * 60 + d.minute) * 60 + d.second) * 1_000_000 + d.micro
  }

  /** The lengths of the months, one by one. */
  ghost function MonthLengths(y: nat): (lengths: seq<nat>)
    ensures |lengths| == 12
  {
    [31, if y % 4 == 0 && (y % 100 != 0 || y % 400 == 0) then 29 else 28, 31, 30, 31, 30, 31, 31, 30, 31, 30, 31]
  }

  /** e stands one microsecond after d in the calendar and on the clock. */
  ghost predicate Follows(d: DateTime, e: DateTime)
    requires 1 <= d.month <= 12
  {
    e == if d.micro < 999_999 then d.(micro := d.micro + 1)
         else if d.second < 59 then d.(second := d.second + 1, micro := 0)
         else if d.minute < 59 then d.(minute := d.minute + 1, second := 0, micro := 0)
         else if d.hour < 23 then DateTime(d.year, d.month, d.day, d.hour + 1, 0, 0, 0)
         else if d.day < MonthLengths(d.year)[d.month - 1] then DateTime(d.year, d.month, d.day + 1, 0, 0, 0, 0)
         else if d.month < 12 then DateTime(d.year, d.month + 1, 1, 0, 0, 0, 0)
         else DateTime(d.year + 1, 1, 1, 0, 0, 0, 0)
  }

  lemma {:induction false} MonthIsAsLong(y: nat, m: nat)
    requires 1 <= m <= 12
    ensures DaysInMonth(y, m) == MonthLengths(y)[m - 1]
  {
  }

  /** From the first moment of year 1 on, the next moment of the calendar is the next instant. */
  lemma {:induction false} InstantCountsMoments(d: DateTime, e: DateTime)
    requires Valid(d) && Follows(d, e) && e.year <= 9999
    ensures Valid(e) && Instant(e) == Instant(d) + 1
  {
    MonthIsAsLong(d.year, d.month);
    MonthIsAsLong(e.year, e.month);
    if e.year > d.year {
      YearOfMonths(d.year);
      YearLength(d.year);
    }
  }

  lemma {:induction false} FirstMoment()
    ensures Valid(DateTime(1, 1, 1, 0, 0, 0, 0)) && Instant(DateTime(1, 1, 1, 0, 0, 0, 0)) == 86_400_000_000
  {
  }

  // ---------------------------------------------------------------- the text

  /** `%0wd` */
  function Pad(n: nat, w: nat): (s: string)
    ensures |s| == w
  {
    if w == 0 then "" else Pad(n / 10, w - 1) + [DigitChar(n % 10)]
  }

  /** The fraction is left out when there are no microseconds. */
  function Fraction(micro: nat): string {
    if micro == 0 then "" else "." + Pad(micro, 6)
  }

  function IsoFormat(d: DateTime): string {
    Pad(d.year, 4) + "-" + Pad(d.month, 2) + "-" + Pad(d.day, 2)
    + "T" + Pad(d.hour, 2) + ":" + Pad(d.minute, 2) + ":" + Pad(d.second, 2)
    + Fraction(d.micro) + "+00:00"
  }

  // ---------------------------------------------------------------- text order of fixed-width numbers

  function Pow10(w: nat): nat {
    if w == 0 then 1 else 10 * Pow10(w - 1)
  }

  lemma {:induction false} PadOrder(n: nat, m: nat, w: nat, s: string, t: string)
    requires n < Pow10(w) && m < Pow10(w)
    ensures StrLess(Pad(n, w) + s, Pad(m, w) + t) <==> n < m || (n == m && StrLess(s, t))
  {
    if w == 0 {
      assert Pad(n, 0) + s == s && Pad(m, 0) + t == t;
    } else {
      var s', t' := [DigitChar(n % 10)] + s, [DigitChar(m % 10)] + t;
      assert Pad(n, w) + s == Pad(n / 10, w - 1) + s';
      assert Pad(m, w) + t == Pad(m / 10, w - 1) + t';
      PadOrder(n / 10, m / 10, w - 1, s', t');
      assert s'[1..] == s && t'[1..] == t;
    }
  }

  /** The same with a separator behind the number. */
  lemma {:induction false} FieldOrder(n: nat, m: nat, w: nat, sep: char, s: string, t: string)
    requires n < Pow10(w) && m < Pow10(w)
    ensures StrLess(Pad(n, w) + ([sep] + s), Pad(m, w) + ([sep] + t)) <==> n < m || (n == m && StrLess(s, t))
  {
    PadOrder(n, m, w, [sep] + s, [sep] + t);
    StrLessPrefix([sep], s, t);
  }

  /** `+` sorts before `.`, so a text without a fraction sorts before every text with one. */
  lemma {:induction false} FractionOrder(n: nat, m: nat)
    requires n < 1_000_000 && m < 1_000_000
    ensures StrLess(Fraction(n) + "+00:00", Fraction(m) + "+00:00") <==> n < m
  {
    var zone := "+00:00";
    assert Pow10(6) == 1_000_000 by {
      assert Pow10(2) == 100 && Pow10(4) == 10_000;
    }
    StrLessIrreflexive(zone);
    if n > 0 && m > 0 {
      PadOrder(n, m, 6, zone, zone);
      assert Fraction(n) + zone == "." + (Pad(n, 6) + zone);
      assert Fraction(m) + zone == "." + (Pad(m, 6) + zone);
      StrLessPrefix(".", Pad(n, 6) + zone, Pad(m, 6) + zone);
    } else if n > 0 {
      assert (Fraction(n) + zone)[0] == '.' && Fraction(m) + zone == zone;
    } else if m > 0 {
      assert (Fraction(m) + zone)[0] == '.' && Fraction(n) + zone == zone;
    } else {
      assert Fraction(n) + zone == zone && Fraction(m) + zone == zone;
    }
  }

  /** Field by field, most significant first. */
  predicate Before(a: DateTime, b: DateTime) {
    a.year < b.year || (a.year == b.year && (
      a.month < b.month || (a.month == b.month && (
        a.day < b.day || (a.day == b.day && TimeBefore(a, b))))))
  }

  predicate TimeBefore(a: DateTime, b: DateTime) {
    a.hour < b.hour || (a.hour == b.hour && (
      a.minute < b.minute || (a.minute == b.minute && (
        a.second < b.second || (a.second == b.second && a.micro < b.micro)))))
  }

  function Zone(d: DateTime): string {
    Fraction(d.micro) + "+00:00"
  }

  function TimeText(d: DateTime): string {
    Pad(d.hour, 2) + ([':'] + (Pad(d.minute, 2) + ([':'] + (Pad(d.second, 2) + Zone(d)))))
  }

  lemma {:induction false} IsoFormatFields(d: DateTime)
    ensures IsoFormat(d)
         == Pad(d.year, 4) + (['-'] + (Pad(d.month, 2) + (['-'] + (Pad(d.day, 2) + (['T'] + TimeText(d))))))
  {
  }

  lemma {:induction false} TextIsFieldOrder(a: DateTime, b: DateTime)
    requires Valid(a) && Valid(b)
    ensures StrLess(IsoFormat(a), IsoFormat(b)) <==> Before(a, b)
  {
    assert Pow10(2) == 100 && Pow10(4) == 10_000;
    var secA, secB := Pad(a.second, 2) + Zone(a), Pad(b.second, 2) + Zone(b);
    var minA, minB := Pad(a.minute, 2) + ([':'] + secA), Pad(b.minute, 2) + ([':'] + secB);
    var timeA, timeB := TimeText(a), TimeText(b);
    var dayA, dayB := Pad(a.day, 2) + (['T'] + timeA), Pad(b.day, 2) + (['T'] + timeB);
    var monA, monB := Pad(a.month, 2) + (['-'] + dayA), Pad(b.month, 2) + (['-'] + dayB);
    IsoFormatFields(a);
    IsoFormatFields(b);
    FractionOrder(a.micro, b.micro);
    PadOrder(a.second, b.second, 2, Zone(a), Zone(b));
    FieldOrder(a.minute, b.minute, 2, ':', secA, secB);
    FieldOrder(a.hour, b.hour, 2, ':', minA, minB);
    FieldOrder(a.day, b.day, 2, 'T', timeA, timeB);
    FieldOrder(a.month, b.month, 2, '-', dayA, dayB);
    FieldOrder(a.year, b.year, 4, '-', monA, monB);
  }

  // ---------------------------------------------------------------- instant order is field order

  lemma {:induction false} Century(y: nat)
    requires y > 0
    ensures y / 100 == (y - 1) / 100 + if y % 100 == 0 then 1 else 0
  {
  }

  lemma {:induction false} FourTimes(k: nat)
    ensures (4 * k) % 4 == 0
  {
  }

  lemma {:induction false} HundredTimes(k: nat)
    ensures (100 * k) % 100 == 0
  {
  }

  lemma {:induction false} CenturyIsFourYears(y: nat, q: nat)
    requires y == 100 * q
    ensures y % 4 == 0
  {
    FourTimes(25 * q);
    assert y == 4 * (25 * q);
  }

  lemma {:induction false} FourCenturiesIsCentury(y: nat, q: nat)
    requires y == 400 * q
    ensures y % 100 == 0
  {
    HundredTimes(4 * q);
    assert y == 100 * (4 * q);
  }

  lemma {:induction false} FourYears(y: nat)
    requires y > 0
    ensures y / 4 == (y - 1) / 4 + if y % 4 == 0 then 1 else 0
  {
  }

  lemma {:induction false} FourCenturies(y: nat)
    requires y > 0
    ensures y / 400 == (y - 1) / 400 + if y % 400 == 0 then 1 else 0
  {
  }

  /** How often each rule of the calendar has applied, before and after a year it may apply to. */
  lemma {:induction false} RulesAddUp(y: int, by4: bool, by100: bool, by400: bool, fours: int, hundreds: int, rest: int,
                                      fours': int, hundreds': int, rest': int)
    requires (by400 ==> by100) && (by100 ==> by4)
    requires fours' == fours + (if by4 then 1 else 0) && hundreds' == hundreds + (if by100 then 1 else 0)
    requires rest' == rest + if by400 then 1 else 0
    ensures y * 365 + fours' - hundreds' + rest'
         == (y - 1) * 365 + fours - hundreds + rest + if by4 && (!by100 || by400) then 366 else 365
  {
  }

  lemma {:induction false} YearLength(y: nat)
    requires y > 0
    ensures DaysBeforeYear(y + 1) == DaysBeforeYear(y) + (if Leap(y) then 366 else 365)
  {
    FourYears(y);
    Century(y);
    FourCenturies(y);
    if y % 100 == 0 {
      CenturyIsFourYears(y, y / 100);
    }
    if y % 400 == 0 {
      FourCenturiesIsCentury(y, y / 400);
    }
    RulesAddUp(y, y % 4 == 0, y % 100 == 0, y % 400 == 0, (y - 1) / 4, (y - 1) / 100, (y - 1) / 400,
               y / 4, y / 100, y / 400);
  }

  lemma {:induction false} YearsApart(y: nat, y': nat)
    requires 0 < y < y'
    ensures DaysBeforeYear(y) + (if Leap(y) then 366 else 365) <= DaysBeforeYear(y')
    decreases y'
  {
    YearLength(y' - 1);
    if y < y' - 1 {
      YearsApart(y, y' - 1);
    } else {
      YearLength(y);
    }
  }

  lemma {:induction false} MonthsApart(y: nat, m: nat, m': nat)
    requires 0 < m < m'
    ensures DaysBeforeMonth(y, m) + DaysInMonth(y, m) <= DaysBeforeMonth(y, m')
  {
    if m == m' - 1 {
    } else {
      MonthsApart(y, m, m' - 1);
    }
  }

  lemma {:induction false} YearOfMonths(y: nat)
    ensures DaysBeforeMonth(y, 13) == if Leap(y) then 366 else 365
  {
    var feb := DaysInMonth(y, 2);
    assert DaysBeforeMonth(y, 2) == 31;
    assert DaysBeforeMonth(y, 3) == 31 + feb;
    assert DaysBeforeMonth(y, 5) == 92 + feb;
    assert DaysBeforeMonth(y, 7) == 153 + feb;
    assert DaysBeforeMonth(y, 9) == 215 + feb;
    assert DaysBeforeMonth(y, 11) == 276 + feb;
  }

  lemma {:induction false} DayNumberIncreases(a: DateTime, b: DateTime)
    requires Valid(a) && Valid(b)
    requires a.year < b.year || (a.year == b.year && (a.month < b.month || (a.month == b.month && a.day < b.day)))
    ensures DayNumber(a.year, a.month, a.day) < DayNumber(b.year, b.month, b.day)
  {
    if a.year < b.year {
      YearsApart(a.year, b.year);
      YearOfMonths(a.year);
      MonthsApart(a.year, a.month, 13);
    } else if a.month < b.month {
      MonthsApart(a.year, a.month, b.month);
    }
  }

  lemma {:induction false} BeforeIsEarlier(a: DateTime, b: DateTime)
    requires Valid(a) && Valid(b) && Before(a, b)
    ensures Instant(a) < Instant(b)
  {
    if a.year != b.year || a.month != b.month || a.day != b.day {
      DayNumberIncreases(a, b);
    }
  }

  /** Comparing the texts is comparing the instants, whether or not either text carries a fraction. */
  lemma {:induction false} TextOrderIsInstantOrder(a: DateTime, b: DateTime)
    requires Valid(a) && Valid(b)
    ensures StrLess(IsoFormat(a), IsoFormat(b)) <==> Instant(a) < Instant(b)
  {
    TextIsFieldOrder(a, b);
    if Before(a, b) {
      BeforeIsEarlier(a, b);
    } else if Before(b, a) {
      BeforeIsEarlier(b, a);
    } else {
      assert a == b;
    }
  }

  /** Different instants have different texts. */
  lemma {:induction false} TextIsInjective(a: DateTime, b: DateTime)
    requires Valid(a) && Valid(b)
    ensures IsoFormat(a) == IsoFormat(b) ==> a == b
  {
    StrLessIrreflexive(IsoFormat(a));
    TextIsFieldOrder(a, b);
    TextIsFieldOrder(b, a);
  }

  ghost predicate Reads(text: string, w: nat, n: nat) {
    |text| == w && (forall i :: 0 <= i < w ==> IsDigit(text[i])) && NumberOf(text) == n
  }

  lemma {:induction false} PadReads(n: nat, w: nat)
    requires n < Pow10(w)
    ensures Reads(Pad(n, w), w, n)
  {
    if w == 0 {
    } else {
      PadReads(n / 10, w - 1);
      var s := Pad(n, w);
      assert s[..w - 1] == Pad(n / 10, w - 1) && s[w - 1] == DigitChar(n % 10);
    }
  }

  /** The text reads year-month-day, T, hour:minute:second, the fraction unless it is zero, and the offset of UTC. */
  lemma {:induction false} TextReads(d: DateTime)
    requires Valid(d)
    ensures exists year, month, day, hour, minute, second, micro ::
              && Reads(year, 4, d.year) && Reads(month, 2, d.month) && Reads(day, 2, d.day)
              && Reads(hour, 2, d.hour) && Reads(minute, 2, d.minute) && Reads(second, 2, d.second)
              && Reads(micro, 6, d.micro)
              && IsoFormat(d) == year + "-" + month + "-" + day + "T" + hour + ":" + minute + ":" + second
                                 + (if d.micro == 0 then "" else "." + micro) + "+00:00"
  {
    assert Pow10(2) == 100 && Pow10(4) == 10_000 && Pow10(6) == 1_000_000;
    PadReads(d.year, 4);
    PadReads(d.month, 2);
    PadReads(d.day, 2);
    PadReads(d.hour, 2);
    PadReads(d.minute, 2);
    PadReads(d.second, 2);
    PadReads(d.micro, 6);
  }

  /** The fraction makes the texts differ in length, so the common-length premise for sorting timestamps fails. */
  lemma {:induction false} TextLengthVaries(d: DateTime)
    requires Valid(d)
    ensures |IsoFormat(d)| == if d.micro == 0 then 25 else 32
  {
  }
}
