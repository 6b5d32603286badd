/** Database datetimes, their printed form, and why comparing the printed forms
    as strings compares the instants. */
module Timestamps {
  import Text

  datatype Stamp = Stamp(year: nat, month: nat, day: nat, hour: nat, minute: nat, second: nat, micro: nat)

  predicate Leap(year: nat) {
    year % 4 == 0 && (year % 100 != 0 || year % 400 == 0)
  }

  function MonthLength(year: nat, month: nat): nat {
    if month == 2 then if Leap(year) then 29 else 28
    else if month in {4, 6, 9, 11} then 30
    else 31
  }

  /** A datetime Python can hold. */
  predicate Valid(t: Stamp) {
    && 1 <= t.year <= 9999 && 1 <= t.month <= 12 && 1 <= t.day <= MonthLength(t.year, t.month)
    && t.hour < 24 && t.minute < 60 && t.second < 60 && t.micro < 1_000_000
  }

  function DaysBeforeMonth(year: nat, month: nat): nat {
    if month <= 1 then 0 else DaysBeforeMonth(year, month - 1) + MonthLength(year, month - 1)
  }

  function DaysBeforeYear(year: nat): nat {
    if year <= 1 then 0 else DaysBeforeYear(year - 1) + DaysBeforeMonth(year - 1, 13)
  }

  function DayNumber(t: Stamp): nat {
    DaysBeforeYear(t.year) + DaysBeforeMonth(t.year, t.month) + t.day
  }

  function MicrosOfDay(t: Stamp): nat {
    ((t.hour * 60 + t.minute) * 60 + t.second) * 1_000_000 + t.micro
  }

  const DAY := 86_400_000_000

  /** Microseconds on the time line. */
  function Instant(t: Stamp): nat {
    DayNumber(t) * DAY + MicrosOfDay(t)
  }

  // ── The calendar ─────────────────────────────────────────────────────────

  /** A year has 366 days exactly when it is divisible by 4, but by 100 only when
      by 400 too. */
  lemma YearLength(year: nat)
    ensures DaysBeforeMonth(year, 13)
      == if (year % 4 == 0 && year % 100 != 0) || year % 400 == 0 then 366 else 365
  {
    assert DaysBeforeMonth(year, 3) == 31 + MonthLength(year, 2) by {
      assert DaysBeforeMonth(year, 2) == 31;
    }
    assert DaysBeforeMonth(year, 5) == DaysBeforeMonth(year, 3) + 61 by {
      assert DaysBeforeMonth(year, 4) == DaysBeforeMonth(year, 3) + 31;
    }
    assert DaysBeforeMonth(year, 7) == DaysBeforeMonth(year, 5) + 61 by {
      assert DaysBeforeMonth(year, 6) == DaysBeforeMonth(year, 5) + 31;
    }
    assert DaysBeforeMonth(year, 9) == DaysBeforeMonth(year, 7) + 62 by {
      assert DaysBeforeMonth(year, 8) == DaysBeforeMonth(year, 7) + 31;
    }
    assert DaysBeforeMonth(year, 11) == DaysBeforeMonth(year, 9) + 61 by {
      assert DaysBeforeMonth(year, 10) == DaysBeforeMonth(year, 9) + 30;
    }
    assert DaysBeforeMonth(year, 13) == DaysBeforeMonth(year, 11) + 61 by {
      assert DaysBeforeMonth(year, 12) == DaysBeforeMonth(year, 11) + 30;
    }
  }

  lemma DivIs(y: nat, k: nat, q: nat, r: nat)
    requires k >= 1 && r < k && y == q * k + r
    ensures y / k == q && y % k == r
  {
    var d := y / k - q;
    assert y == y / k * k + y % k;
    assert d * k == r - y % k;
    assert d >= 1 ==> d * k >= k;
    assert d <= -1 ==> d * k + k <= 0;
  }

  lemma DivStep(y: nat, k: nat)
    requires y >= 1 && k >= 1
    ensures y / k == (y - 1) / k + if y % k == 0 then 1 else 0
  {
    var q, r := (y - 1) / k, (y - 1) % k;
    assert y == q * k + (r + 1) && r + 1 <= k;
    if r + 1 == k {
      assert y == (q + 1) * k;
      DivIs(y, k, q + 1, 0);
    } else {
      DivIs(y, k, q, r + 1);
    }
  }

  lemma Multiples(y: nat)
    ensures y % 100 == 0 ==> y % 4 == 0
    ensures y % 400 == 0 ==> y % 100 == 0
  {
    if y % 100 == 0 {
      DivIs(y, 4, 25 * (y / 100), 0);
    }
    if y % 400 == 0 {
      DivIs(y, 100, 4 * (y / 400), 0);
    }
  }

  /** The days before a year of the proleptic Gregorian calendar, in closed form. */
  lemma {:induction false} DaysInClosedForm(year: nat)
    requires year >= 1
    ensures var y := year - 1; DaysBeforeYear(year) == 365 * y + y / 4 - y / 100 + y / 400
  {
    hide DaysBeforeMonth;
    if year == 1 {
    } else {
      var y := year - 1;
      DaysInClosedForm(y);
      YearLength(y);
      DivStep(y, 4);
      DivStep(y, 100);
      DivStep(y, 400);
      Multiples(y);
    }
  }

  /** The first of January 1970 is day 719163. */
  lemma EpochDay()
    ensures DayNumber(Stamp(1970, 1, 1, 0, 0, 0, 0)) == 719163
  {
    hide DaysBeforeYear;
    DaysInClosedForm(1970);
  }

  // ── Field by field is chronological ──────────────────────────────────────

  predicate DateEarlier(a: Stamp, b: Stamp) {
    a.year < b.year || (a.year == b.year && (a.month < b.month || (a.month == b.month && a.day < b.day)))
  }

  predicate TimeEarlier(a: Stamp, b: Stamp) {
    a.hour < b.hour || (a.hour == b.hour && (a.minute < b.minute
      || (a.minute == b.minute && (a.second < b.second || (a.second == b.second && a.micro < b.micro)))))
  }

  predicate SameDate(a: Stamp, b: Stamp) {
    a.year == b.year && a.month == b.month && a.day == b.day
  }

  predicate Earlier(a: Stamp, b: Stamp) {
    DateEarlier(a, b) || (SameDate(a, b) && TimeEarlier(a, b))
  }

  lemma {:induction false} MonthsAscend(year: nat, m: nat, n: nat)
    requires 1 <= m < n <= 13
    ensures DaysBeforeMonth(year, m) + MonthLength(year, m) <= DaysBeforeMonth(year, n)
  {
    if m == n - 1 {
    } else {
      MonthsAscend(year, m, n - 1);
    }
  }

  lemma {:induction false} YearsAscend(y: nat, z: nat)
    requires 1 <= y < z
    ensures DaysBeforeYear(y) + DaysBeforeMonth(y, 13) <= DaysBeforeYear(z)
  {
    hide DaysBeforeMonth;
    if y == z - 1 {
    } else {
      YearsAscend(y, z - 1);
    }
  }

  lemma DaysAscend(a: Stamp, b: Stamp)
    requires Valid(a) && Valid(b) && DateEarlier(a, b)
    ensures DayNumber(a) < DayNumber(b)
  {
    hide DaysBeforeMonth, DaysBeforeYear, MonthLength;
    if a.year < b.year {
      YearsAscend(a.year, b.year);
      MonthsAscend(a.year, a.month, 13);
    } else if a.month < b.month {
      MonthsAscend(a.year, a.month, b.month);
    }
  }

  lemma SameDay(a: Stamp, b: Stamp)
    requires SameDate(a, b)
    ensures DayNumber(a) == DayNumber(b)
  {
  }

  lemma EarlierInstant(a: Stamp, b: Stamp)
    requires Valid(a) && Valid(b) && Earlier(a, b)
    ensures Instant(a) < Instant(b)
  {
    hide DayNumber, MonthLength;
    assert MicrosOfDay(a) < DAY;
    if DateEarlier(a, b) {
      DaysAscend(a, b);
    } else {
      SameDay(a, b);
    }
  }

  /** Comparing datetimes field by field compares the instants. */
  lemma EarlierIsBefore(a: Stamp, b: Stamp)
    requires Valid(a) && Valid(b)
    ensures Earlier(a, b) <==> Instant(a) < Instant(b)
    ensures a == b <==> Instant(a) == Instant(b)
  {
    hide Instant, Valid;
    if Earlier(a, b) {
      EarlierInstant(a, b);
    } else if Earlier(b, a) {
      EarlierInstant(b, a);
    } else {
      assert a == b;
    }
  }

  // ── The printed form ─────────────────────────────────────────────────────

  function Fraction(micro: nat): string {
    if micro == 0 then "" else "." + Text.Pad(micro, 6)
  }

  function Clock(t: Stamp): string {
    Text.Pad(t.hour, 2) + ([':'] + (Text.Pad(t.minute, 2) + ([':'] + (Text.Pad(t.second, 2) + Fraction(t.micro)))))
  }

  /** `datetime.isoformat()`: no fraction when the microseconds are zero. */
  function Iso(t: Stamp): string {
    Text.Pad(t.year, 4) + (['-'] + (Text.Pad(t.month, 2) + (['-'] + (Text.Pad(t.day, 2) + (['T'] + Clock(t))))))
  }

  lemma Powers()
    ensures Text.Pow10(2) == 100 && Text.Pow10(4) == 10_000 && Text.Pow10(6) == 1_000_000
  {
    assert Text.Pow10(1) == 10 && Text.Pow10(3) == 1000 && Text.Pow10(5) == 100_000;
  }

  /** No fraction sorts before any fraction; two fractions sort by value. */
  lemma FractionOrder(n: nat, m: nat)
    requires n < 1_000_000 && m < 1_000_000
    ensures Text.Before(Fraction(n), Fraction(m)) <==> n < m
  {
    Powers();
    if n != 0 && m != 0 {
      Text.BeforeAfterSame('.', Text.Pad(n, 6), Text.Pad(m, 6));
      Text.PadOrder(n, m, 6, "", "");
      assert Text.Pad(n, 6) + "" == Text.Pad(n, 6) && Text.Pad(m, 6) + "" == Text.Pad(m, 6);
      assert !Text.Before("", "");
    }
  }

  /** A two-digit field and a separator defer to what follows when equal. */
  lemma FieldOrder(n: nat, m: nat, w: nat, c: char, x: string, y: string)
    requires n < Text.Pow10(w) && m < Text.Pow10(w)
    ensures Text.Before(Text.Pad(n, w) + ([c] + x), Text.Pad(m, w) + ([c] + y))
      <==> n < m || (n == m && Text.Before(x, y))
  {
    Text.PadOrder(n, m, w, [c] + x, [c] + y);
    Text.BeforeAfterSame(c, x, y);
  }

  lemma ClockOrder(a: Stamp, b: Stamp)
    requires Valid(a) && Valid(b)
    ensures Text.Before(Clock(a), Clock(b)) <==> TimeEarlier(a, b)
  {
    Powers();
    hide Text.Before, Text.Pad, Fraction, Text.Pow10, MonthLength;
    FractionOrder(a.micro, b.micro);
    Text.PadOrder(a.second, b.second, 2, Fraction(a.micro), Fraction(b.micro));
    var sa, sb := Text.Pad(a.second, 2) + Fraction(a.micro), Text.Pad(b.second, 2) + Fraction(b.micro);
    FieldOrder(a.minute, b.minute, 2, ':', sa, sb);
    FieldOrder(a.hour, b.hour, 2, ':', Text.Pad(a.minute, 2) + ([':'] + sa), Text.Pad(b.minute, 2) + ([':'] + sb));
  }

  lemma IsoEarlier(a: Stamp, b: Stamp)
    requires Valid(a) && Valid(b)
    ensures Text.Before(Iso(a), Iso(b)) <==> Earlier(a, b)
  {
    Powers();
    hide Text.Before, Text.Pad, Clock, Text.Pow10, TimeEarlier;
    assert a.day < 100 && b.day < 100;
    hide MonthLength;
    ClockOrder(a, b);
    var da, db := Text.Pad(a.day, 2) + (['T'] + Clock(a)), Text.Pad(b.day, 2) + (['T'] + Clock(b));
    FieldOrder(a.day, b.day, 2, 'T', Clock(a), Clock(b));
    FieldOrder(a.month, b.month, 2, '-', da, db);
    FieldOrder(a.year, b.year, 4, '-', Text.Pad(a.month, 2) + (['-'] + da), Text.Pad(b.month, 2) + (['-'] + db));
  }

  /** The order of the printed timestamps is exactly the order of the instants,
      with and without fractions. */
  lemma IsoOrder(a: Stamp, b: Stamp)
    requires Valid(a) && Valid(b)
    ensures Text.Before(Iso(a), Iso(b)) <==> Instant(a) < Instant(b)
    ensures Iso(a) == Iso(b) <==> Instant(a) == Instant(b)
  {
    IsoEarlier(a, b);
    IsoEarlier(b, a);
    EarlierIsBefore(a, b);
    EarlierIsBefore(b, a);
    hide Iso, Instant, Earlier, Text.Before;
    Text.BeforeTotal(Iso(a), Iso(b));
  }

  // ── The shape of the printed form ────────────────────────────────────────

  lemma {:induction false} PadIs(n: nat, w: nat)
    requires n < Text.Pow10(w)
    ensures |Text.Pad(n, w)| == w && Text.AllDigits(Text.Pad(n, w)) && Text.Value(Text.Pad(n, w)) == n
  {
    if w == 0 {
    } else {
      PadIs(n / 10, w - 1);
      assert Text.Pad(n, w)[..w - 1] == Text.Pad(n / 10, w - 1);
    }
  }

  /** The digits are those of the number. */
  ghost predicate Spells(digits: string, n: nat) {
    Text.AllDigits(digits) && Text.Value(digits) == n
  }

  lemma ClockShape(a: string, b: string, c: string, rest: string, s: string)
    requires |a| == 2 && |b| == 2 && |c| == 2 && s == a + ([':'] + (b + ([':'] + (c + rest))))
    ensures |s| == 8 + |rest| && s[2] == ':' && s[5] == ':' && s[..2] == a && s[3..5] == b && s[6..8] == c && s[8..] == rest
  {
    var tail := [':'] + (b + ([':'] + (c + rest)));
    assert s[2..] == tail && tail[1..] == b + ([':'] + (c + rest));
    assert tail[1..][2..] == [':'] + (c + rest);
  }

  lemma ClockFields(t: Stamp)
    requires Valid(t)
    ensures var s := Clock(t);
      && |s| == (if t.micro == 0 then 8 else 15) && s[2] == ':' && s[5] == ':'
      && Spells(s[..2], t.hour) && Spells(s[3..5], t.minute) && Spells(s[6..8], t.second)
      && (t.micro != 0 ==> s[8] == '.' && Spells(s[9..], t.micro))
  {
    Powers();
    PadIs(t.hour, 2);
    PadIs(t.minute, 2);
    PadIs(t.second, 2);
    PadIs(t.micro, 6);
    hide Text.Pad, Text.Value, Text.AllDigits, Text.Pow10, MonthLength;
    var s := Clock(t);
    ClockShape(Text.Pad(t.hour, 2), Text.Pad(t.minute, 2), Text.Pad(t.second, 2), Fraction(t.micro), s);
    if t.micro != 0 {
      assert s[8..] == ['.'] + Text.Pad(t.micro, 6);
      assert s[9..] == s[8..][1..] == Text.Pad(t.micro, 6);
    }
  }

  lemma IsoShape(y: string, m: string, d: string, c: string, s: string)
    requires |y| == 4 && |m| == 2 && |d| == 2 && |c| >= 8 && s == y + (['-'] + (m + (['-'] + (d + (['T'] + c)))))
    ensures |s| == 11 + |c| && s[4] == '-' && s[7] == '-' && s[10] == 'T'
    ensures s[..4] == y && s[5..7] == m && s[8..10] == d && s[11..] == c
    ensures s[13] == c[2] && s[16] == c[5] && s[11..13] == c[..2] && s[14..16] == c[3..5] && s[17..19] == c[6..8]
    ensures |c| > 8 ==> s[19] == c[8] && s[20..] == c[9..]
  {
    var tail := ['-'] + (m + (['-'] + (d + (['T'] + c))));
    assert s[4..] == tail;
    assert tail[4..] == d + (['T'] + c);
    assert s[11..] == c;
  }

  lemma SpellsPad(n: nat, w: nat)
    requires n < Text.Pow10(w)
    ensures Spells(Text.Pad(n, w), n)
  {
    PadIs(n, w);
  }

  /** The fields stand at fixed places, in decimal, with their separators; a
      fraction of six digits follows exactly when there are microseconds. */
  lemma IsoFields(t: Stamp)
    requires Valid(t)
    ensures var s := Iso(t);
      && |s| == (if t.micro == 0 then 19 else 26)
      && s[4] == '-' && s[7] == '-' && s[10] == 'T' && s[13] == ':' && s[16] == ':'
      && Spells(s[..4], t.year) && Spells(s[5..7], t.month) && Spells(s[8..10], t.day)
      && Spells(s[11..13], t.hour) && Spells(s[14..16], t.minute) && Spells(s[17..19], t.second)
      && (t.micro != 0 ==> s[19] == '.' && Spells(s[20..], t.micro))
  {
    Powers();
    ClockFields(t);
    assert t.day < 100;
    PadIs(t.year, 4);
    PadIs(t.month, 2);
    PadIs(t.day, 2);
    hide Text.Pad, Text.Value, Text.AllDigits, Text.Pow10, MonthLength, Clock, Spells;
    assert Spells(Text.Pad(t.year, 4), t.year) && Spells(Text.Pad(t.month, 2), t.month) && Spells(Text.Pad(t.day, 2), t.day) by {
      SpellsPad(t.year, 4);
      SpellsPad(t.month, 2);
      SpellsPad(t.day, 2);
    }
    IsoShape(Text.Pad(t.year, 4), Text.Pad(t.month, 2), Text.Pad(t.day, 2), Clock(t), Iso(t));
  }
}
