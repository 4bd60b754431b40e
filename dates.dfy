/** Calendar values and the fixed-width text formats the repositories write:
    DateOnly as "yyyyMMdd" (ToString / ParseExact with the invariant culture),
    DateTime as "yyyy-MM-ddTHH:mm:ss", and DateOnly.AddDays(-1). */
module Dates {
  import opened Wrappers

  // ---------------------------------------------------------------------------
  // Decimal digits

  predicate IsDigit(c: char) { '0' <= c <= '9' }

  predicate AllDigits(s: string) { forall i :: 0 <= i < |s| ==> IsDigit(s[i]) }

  function DigitChar(n: int): char
    requires 0 <= n < 10
  {
    ('0' as int + n) as char
  }

  function DigitValue(c: char): nat
    requires IsDigit(c)
  {
    c as int - '0' as int
  }

  function Pow10(n: nat): (r: nat)
    ensures r > 0
  {
    if n == 0 then 1 else 10 * Pow10(n - 1)
  }

  lemma Pow10Small()
    ensures Pow10(2) == 100 && Pow10(4) == 10000
  {
    assert Pow10(1) == 10;
    assert Pow10(3) == 1000;
  }

  /** The last `width` decimal digits of n, zero-padded: the custom format
      specifiers "yyyy", "MM", "dd", "HH", "mm", "ss". */
  function Pad(n: nat, width: nat): string
  {
    if width == 0 then "" else Pad(n / 10, width - 1) + [DigitChar(n % 10)]
  }

  /** The value of a string of decimal digits. */
  function ParseNat(s: string): nat
    requires AllDigits(s)
  {
    if |s| == 0 then 0 else 10 * ParseNat(s[..|s| - 1]) + DigitValue(s[|s| - 1])
  }

  lemma {:induction false} PadShape(n: nat, width: nat)
    ensures |Pad(n, width)| == width
    ensures AllDigits(Pad(n, width))
  {
    if width > 0 {
      PadShape(n / 10, width - 1);
    }
  }

  /** Zero-padding to `width` digits loses nothing when the number fits. */
  lemma {:induction false} ParsePad(n: nat, width: nat)
    requires n < Pow10(width)
    ensures AllDigits(Pad(n, width))
    ensures ParseNat(Pad(n, width)) == n
  {
    PadShape(n, width);
    if width > 0 {
      var s := Pad(n, width);
      ParsePad(n / 10, width - 1);
      assert s[..|s| - 1] == Pad(n / 10, width - 1);
    }
  }

  lemma AllDigitsAppend(a: string, b: string)
    requires AllDigits(a) && AllDigits(b)
    ensures AllDigits(a + b)
  {
    var ab := a + b;
    forall i | 0 <= i < |ab| ensures IsDigit(ab[i]) {
      if i < |a| { assert ab[i] == a[i]; } else { assert ab[i] == b[i - |a|]; }
    }
  }

  /** The digits of a concatenation weigh the left part by the right part's length. */
  lemma {:induction false} ParseNatAppend(a: string, b: string)
    requires AllDigits(a) && AllDigits(b)
    ensures AllDigits(a + b)
    ensures ParseNat(a + b) == ParseNat(a) * Pow10(|b|) + ParseNat(b)
    decreases |b|
  {
    AllDigitsAppend(a, b);
    var ab := a + b;
    if |b| == 0 {
      assert ab == a;
    } else {
      var b' := b[..|b| - 1];
      assert ab[..|ab| - 1] == a + b';
      ParseNatAppend(a, b');
      var last := DigitValue(b[|b| - 1]);
      assert ab[|ab| - 1] == b[|b| - 1];
      WeighStep(ParseNat(a), Pow10(|b'|), ParseNat(b'), last);
    }
  }

  /** One more digit on the right multiplies the left part's weight by ten. */
  lemma WeighStep(x: int, w: int, y: int, last: int)
    ensures 10 * (x * w + y) + last == x * (10 * w) + (10 * y + last)
  {
  }

  // ---------------------------------------------------------------------------
  // DateOnly

  datatype Date = Date(year: int, month: int, day: int)

  predicate IsLeapYear(y: int)
  {
    y % 4 == 0 && (y % 100 != 0 || y % 400 == 0)
  }

  function DaysInMonth(y: int, m: int): int
  {
    if m == 2 then (if IsLeapYear(y) then 29 else 28)
    else if m == 4 || m == 6 || m == 9 || m == 11 then 30
    else 31
  }

  function DaysInYear(y: int): int
  {
    if IsLeapYear(y) then 366 else 365
  }

  /** The range of System.DateOnly: 0001-01-01 to 9999-12-31 in the Gregorian calendar. */
  predicate ValidDate(d: Date)
  {
    1 <= d.year <= 9999 && 1 <= d.month <= 12 && 1 <= d.day <= DaysInMonth(d.year, d.month)
  }

  type DateOnly = d: Date | ValidDate(d) witness Date(1, 1, 1)

  const MinDate: DateOnly := Date(1, 1, 1)

  /** date.ToString("yyyyMMdd"): always eight digits. */
  function FormatDate(d: DateOnly): string
  {
    Pad(d.year, 4) + Pad(d.month, 2) + Pad(d.day, 2)
  }

  datatype FormatError = FormatError(text: string)

  /** DateOnly.ParseExact(s, "yyyyMMdd", CultureInfo.InvariantCulture): exactly
      eight digits naming a date of the calendar, otherwise a FormatException. */
  function ParseDate(s: string): Result<DateOnly, FormatError>
  {
    if |s| != 8 || !AllDigits(s) then Err(FormatError(s))
    else
      var d := Date(ParseNat(s[..4]), ParseNat(s[4..6]), ParseNat(s[6..]));
      if ValidDate(d) then Ok(d) else Err(FormatError(s))
  }

  /** Eight digits whose fields read back as the year, month and day written. */
  lemma EightDigits(y: nat, m: nat, d: nat)
    requires y < 10000 && m < 100 && d < 100
    ensures var s := Pad(y, 4) + Pad(m, 2) + Pad(d, 2);
      |s| == 8 && AllDigits(s) && s[..4] == Pad(y, 4) && s[4..6] == Pad(m, 2) && s[6..] == Pad(d, 2)
      && ParseNat(s[..4]) == y && ParseNat(s[4..6]) == m && ParseNat(s[6..]) == d
  {
    var s := Pad(y, 4) + Pad(m, 2) + Pad(d, 2);
    PadShape(y, 4);
    PadShape(m, 2);
    PadShape(d, 2);
    Pow10Small();
    ParsePad(y, 4);
    ParsePad(m, 2);
    ParsePad(d, 2);
    assert s[..4] == Pad(y, 4);
    assert s[4..6] == Pad(m, 2);
    assert s[6..] == Pad(d, 2);
    forall i | 0 <= i < 8 ensures IsDigit(s[i]) {
      if i < 4 { assert s[i] == Pad(y, 4)[i]; }
      else if i < 6 { assert s[i] == Pad(m, 2)[i - 4]; }
      else { assert s[i] == Pad(d, 2)[i - 6]; }
    }
  }

  lemma FormatDateShape(d: DateOnly)
    ensures |FormatDate(d)| == 8
    ensures AllDigits(FormatDate(d))
  {
    EightDigits(d.year, d.month, d.day);
  }

  /** Writing a date as "yyyyMMdd" and parsing it back gives the same date. */
  lemma ParseFormatDate(d: DateOnly)
    ensures ParseDate(FormatDate(d)) == Ok(d)
  {
    EightDigits(d.year, d.month, d.day);
  }

  /** Two dates with the same "yyyyMMdd" text are the same date. */
  lemma FormatDateInjective(a: DateOnly, b: DateOnly)
    requires FormatDate(a) == FormatDate(b)
    ensures a == b
  {
    ParseFormatDate(a);
    ParseFormatDate(b);
  }

  // ---------------------------------------------------------------------------
  // DateOnly.AddDays(-1) and the day number it moves

  /** Days from 0001-01-01 to the first day of year y. */
  function DaysBeforeYear(y: int): int
    decreases y
  {
    if y <= 1 then 0 else DaysBeforeYear(y - 1) + DaysInYear(y - 1)
  }

  /** Days from the first of January to the first day of month m of year y. */
  function DaysBeforeMonth(y: int, m: int): int
    decreases m
  {
    if m <= 1 then 0 else DaysBeforeMonth(y, m - 1) + DaysInMonth(y, m - 1)
  }

  /** The number of days since 0001-01-01 (DateOnly.DayNumber). */
  function DayNumber(d: Date): int
  {
    DaysBeforeYear(d.year) + DaysBeforeMonth(d.year, d.month) + d.day - 1
  }

  lemma DaysBeforeDecember(y: int)
    ensures DaysBeforeMonth(y, 12) + 31 == DaysInYear(y)
  {
    assert DaysBeforeMonth(y, 3) == 31 + DaysInMonth(y, 2);
  }

  lemma {:induction false} DayNumberBounds(d: DateOnly)
    ensures DayNumber(d) >= 0
    ensures DayNumber(d) == 0 <==> d == MinDate
  {
    DaysBeforeYearMonotone(d.year);
    DaysBeforeMonthMonotone(d.year, d.month);
  }

  lemma {:induction false} DaysBeforeYearMonotone(y: int)
    ensures DaysBeforeYear(y) >= 0
    ensures y > 1 ==> DaysBeforeYear(y) >= 365
    decreases y
  {
    if y > 1 { DaysBeforeYearMonotone(y - 1); }
  }

  lemma {:induction false} DaysBeforeMonthMonotone(y: int, m: int)
    ensures DaysBeforeMonth(y, m) >= 0
    ensures m > 1 ==> DaysBeforeMonth(y, m) >= 28
    decreases m
  {
    if m > 1 { DaysBeforeMonthMonotone(y, m - 1); }
  }

  /** date.AddDays(-1) on any date after 0001-01-01 (the earliest date throws). */
  function PreviousDay(d: DateOnly): DateOnly
    requires d != MinDate
  {
    if d.day > 1 then Date(d.year, d.month, d.day - 1)
    else if d.month > 1 then Date(d.year, d.month - 1, DaysInMonth(d.year, d.month - 1))
    else Date(d.year - 1, 12, 31)
  }

  /** AddDays(-1) moves the day number back by exactly one. */
  lemma PreviousDayNumber(d: DateOnly)
    requires d != MinDate
    ensures DayNumber(PreviousDay(d)) == DayNumber(d) - 1
  {
    if d.day == 1 && d.month == 1 {
      DaysBeforeDecember(d.year - 1);
    }
  }

  /** The date n calls of AddDays(-1) reach from `hoje`. The generators never
      go below 0001-01-01, where AddDays(-1) throws; the model stays there. */
  function Vigencia(hoje: DateOnly, n: nat): DateOnly
  {
    if n == 0 then hoje
    else
      var p := Vigencia(hoje, n - 1);
      if p == MinDate then MinDate else PreviousDay(p)
  }

  /** While it stays on or after 0001-01-01, n steps back is n days back. */
  lemma {:induction false} VigenciaNumber(hoje: DateOnly, n: nat)
    requires n <= DayNumber(hoje)
    ensures DayNumber(Vigencia(hoje, n)) == DayNumber(hoje) - n
  {
    if n > 0 {
      var p := Vigencia(hoje, n - 1);
      VigenciaNumber(hoje, n - 1);
      DayNumberBounds(p);
      PreviousDayNumber(p);
    }
  }

  /** One more AddDays(-1) from the date n days back is the date n + 1 days
      back, and it does not throw. */
  lemma VigenciaStep(hoje: DateOnly, n: nat, data: DateOnly)
    requires n < DayNumber(hoje) && data == Vigencia(hoje, n)
    ensures data != MinDate && PreviousDay(data) == Vigencia(hoje, n + 1)
  {
    VigenciaNumber(hoje, n);
    DayNumberBounds(data);
  }

  // ---------------------------------------------------------------------------
  // DateTime

  /** A DateTime: a date, a time of day and the sub-second ticks (units of 100 ns). */
  datatype DateTime = DateTime(date: DateOnly, hour: int, minute: int, second: int, ticks: int)

  predicate ValidDateTime(t: DateTime)
  {
    0 <= t.hour < 24 && 0 <= t.minute < 60 && 0 <= t.second < 60 && 0 <= t.ticks < 10000000
  }

  /** The DateTime values .NET can hold (the fields of a System.DateTime are always in range). */
  type Instant = t: DateTime | ValidDateTime(t) witness DateTime(Date(1, 1, 1), 0, 0, 0, 0)

  /** t.ToString("yyyy-MM-ddTHH:mm:ss"): the sub-second part is not written. */
  function FormatTimestamp(t: DateTime): string
    requires ValidDateTime(t)
  {
    Pad(t.date.year, 4) + "-" + Pad(t.date.month, 2) + "-" + Pad(t.date.day, 2) + "T"
      + Pad(t.hour, 2) + ":" + Pad(t.minute, 2) + ":" + Pad(t.second, 2)
  }

  /** DateTime.Parse on the sortable "yyyy-MM-ddTHH:mm:ss" layout. */
  function ParseTimestamp(s: string): Result<DateTime, FormatError>
  {
    if |s| != 19 || s[4] != '-' || s[7] != '-' || s[10] != 'T' || s[13] != ':' || s[16] != ':' then
      Err(FormatError(s))
    else if !(AllDigits(s[..4]) && AllDigits(s[5..7]) && AllDigits(s[8..10])
              && AllDigits(s[11..13]) && AllDigits(s[14..16]) && AllDigits(s[17..])) then
      Err(FormatError(s))
    else
      var d := Date(ParseNat(s[..4]), ParseNat(s[5..7]), ParseNat(s[8..10]));
      var h, m, sec := ParseNat(s[11..13]), ParseNat(s[14..16]), ParseNat(s[17..]);
      if ValidDate(d) && h < 24 && m < 60 && sec < 60 then Ok(DateTime(d, h, m, sec, 0))
      else Err(FormatError(s))
  }

  /** A timestamp survives the text round trip only to the whole second. */
  lemma ParseFormatTimestamp(t: DateTime)
    requires ValidDateTime(t)
    ensures ParseTimestamp(FormatTimestamp(t)) == Ok(t.(ticks := 0))
  {
    Pow10Small();
    PadField(t.date.year, 4);
    PadField(t.date.month, 2);
    PadField(t.date.day, 2);
    PadField(t.hour, 2);
    PadField(t.minute, 2);
    PadField(t.second, 2);
    TimestampLayout(Pad(t.date.year, 4), Pad(t.date.month, 2), Pad(t.date.day, 2),
      Pad(t.hour, 2), Pad(t.minute, 2), Pad(t.second, 2));
  }

  /** A field written on `width` digits has that many digits and reads back as itself. */
  lemma PadField(n: nat, width: nat)
    requires n < Pow10(width)
    ensures |Pad(n, width)| == width && AllDigits(Pad(n, width)) && ParseNat(Pad(n, width)) == n
  {
    PadShape(n, width);
    ParsePad(n, width);
  }

  /** Where the separators and the six fields sit in "yyyy-MM-ddTHH:mm:ss". */
  lemma TimestampLayout(y: string, mo: string, d: string, h: string, mi: string, se: string)
    requires |y| == 4 && |mo| == 2 && |d| == 2 && |h| == 2 && |mi| == 2 && |se| == 2
    ensures var s := y + "-" + mo + "-" + d + "T" + h + ":" + mi + ":" + se;
      |s| == 19 && s[4] == '-' && s[7] == '-' && s[10] == 'T' && s[13] == ':' && s[16] == ':'
      && s[..4] == y && s[5..7] == mo && s[8..10] == d && s[11..13] == h && s[14..16] == mi && s[17..] == se
  {
    var date := y + "-" + mo + "-" + d;
    var time := h + ":" + mi + ":" + se;
    FieldsLayout(y, mo, d, '-');
    FieldsLayout(h, mi, se, ':');
    var s := date + "T" + time;
    assert s == y + "-" + mo + "-" + d + "T" + h + ":" + mi + ":" + se;
    assert s[..10] == date && s[11..] == time;
    assert s[11..][..2] == s[11..13] && s[11..][3..5] == s[14..16] && s[11..][6..] == s[17..];
  }

  /** Where the separators and the three fields sit in "ab-cd-ef" or "ab:cd:ef" style text. */
  lemma FieldsLayout(a: seq<char>, b: seq<char>, c: seq<char>, sep: char)
    requires |a| >= 2 && |b| == 2 && |c| == 2
    ensures var s := a + [sep] + b + [sep] + c;
      |s| == |a| + 6 && s[|a|] == sep && s[|a| + 3] == sep
      && s[..|a|] == a && s[|a| + 1..|a| + 3] == b && s[|a| + 4..] == c
  {
  }
}
