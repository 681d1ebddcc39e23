/** Gregorian calendar dates as the page reads them from a local `Date`
    (`getFullYear`, `getMonth() + 1`, `getDate()`), day addition as
    `setDate(getDate() + n)` performs it, and the `YYYY-MM-DD` text the page
    compares task dates against (the full-date form of section 5.6 of
    RFC 3339). */
module Calendar {
  import opened Text

  datatype Date = Date(year: int, month: int, day: int)

  predicate IsLeapYear(y: int)
  {
    y % 4 == 0 && (y % 100 != 0 || y % 400 == 0)
  }

  function DaysInMonth(y: int, m: int): (n: int)
    requires 1 <= m <= 12
    ensures 28 <= n <= 31
    ensures n == 29 <==> m == 2 && IsLeapYear(y)
  {
    if m == 2 then (if IsLeapYear(y) then 29 else 28)
    else if m == 4 || m == 6 || m == 9 || m == 11 then 30
    else 31
  }

  predicate Valid(d: Date)
  {
    1 <= d.year && 1 <= d.month <= 12 && 1 <= d.day <= DaysInMonth(d.year, d.month)
  }

  /** Years written with exactly four digits. */
  predicate FourDigitYear(d: Date)
  {
    Valid(d) && 1000 <= d.year <= 9999
  }

  /** Chronological order: by year, then month, then day. */
  predicate Before(a: Date, b: Date)
  {
    a.year < b.year
    || (a.year == b.year && (a.month < b.month || (a.month == b.month && a.day < b.day)))
  }

  /** The next calendar day, rolling over the month and the year. */
  function NextDay(d: Date): (r: Date)
    requires Valid(d)
    ensures Valid(r) && Before(d, r)
  {
    if d.day < DaysInMonth(d.year, d.month) then Date(d.year, d.month, d.day + 1)
    else if d.month < 12 then Date(d.year, d.month + 1, 1)
    else Date(d.year + 1, 1, 1)
  }

  /** No valid date lies strictly between a date and its next day, so
      `NextDay` is exactly one Gregorian day later. */
  lemma NextDayIsSuccessor(d: Date, e: Date)
    requires Valid(d) && Valid(e) && Before(d, e)
    ensures e == NextDay(d) || Before(NextDay(d), e)
  {
  }

  /** `setDate(getDate() + n)` on a local date. */
  function AddDays(d: Date, n: nat): (r: Date)
    requires Valid(d)
    ensures Valid(r)
    ensures n > 0 ==> Before(d, r)
    decreases n
  {
    if n == 0 then d else AddDays(NextDay(d), n - 1)
  }

  /** `String(n).padStart(2, '0')`. */
  function Pad2(n: nat): string
  {
    PadStart(NatToString(n), 2, '0')
  }

  /** `${año}-${mes}-${dia}`: the year as a plain decimal number, month and
      day padded to two digits. */
  function Format(d: Date): string
    requires Valid(d)
  {
    FormatParts(d.year, d.month, d.day)
  }

  /** `obtenerFechaHoyString`. */
  function FechaHoyString(hoy: Date): string
    requires Valid(hoy)
  {
    Format(hoy)
  }

  /** `obtenerFechaMananaString`. */
  function FechaMananaString(hoy: Date): string
    requires Valid(hoy)
  {
    Format(AddDays(hoy, 1))
  }

  /** `obtenerFechaPasadoMananaString`. */
  function FechaPasadoMananaString(hoy: Date): string
    requires Valid(hoy)
  {
    Format(AddDays(hoy, 2))
  }

  /** Tomorrow and the day after tomorrow are the first and second
      successors of today, and their strings are not today's. */
  lemma FechasSiguientes(hoy: Date)
    requires Valid(hoy)
    ensures AddDays(hoy, 1) == NextDay(hoy)
    ensures AddDays(hoy, 2) == NextDay(NextDay(hoy))
    ensures FechaMananaString(hoy) != FechaHoyString(hoy)
    ensures FechaPasadoMananaString(hoy) != FechaHoyString(hoy)
    ensures FechaPasadoMananaString(hoy) != FechaMananaString(hoy)
  {
    var m := NextDay(hoy);
    var p := NextDay(m);
    assert AddDays(hoy, 1) == AddDays(m, 0) == m;
    assert AddDays(m, 1) == AddDays(p, 0) == p;
    assert AddDays(hoy, 2) == AddDays(m, 1);
    if Format(hoy) == Format(m) { FormatInjective(hoy, m); }
    if Format(m) == Format(p) { FormatInjective(m, p); }
    if Format(hoy) == Format(p) { FormatInjective(hoy, p); }
  }

  /** `${año}-${mes}-${dia}` from the three numbers. */
  function FormatParts(y: nat, m: nat, d: nat): string
  {
    NatToString(y) + "-" + Pad2(m) + "-" + Pad2(d)
  }

  /** For a four-digit year the text is `YYYY-MM-DD`: ten characters, two
      digits at a time. */
  lemma FormatFourDigit(d: Date)
    requires FourDigitYear(d)
    ensures Format(d) == TwoDigits(d.year / 100)
                         + (TwoDigits(d.year % 100) + ("-" + (TwoDigits(d.month) + ("-" + TwoDigits(d.day)))))
    ensures |Format(d)| == 10 && Format(d)[4] == '-' && Format(d)[7] == '-'
  {
    FormatPartsFourDigit(d.year, d.month, d.day);
    DashPositions(TwoDigits(d.year / 100), TwoDigits(d.year % 100), TwoDigits(d.month), TwoDigits(d.day));
  }

  lemma DashPositions(hi: string, lo: string, m: string, d: string)
    requires |hi| == |lo| == |m| == |d| == 2
    ensures var s := hi + (lo + ("-" + (m + ("-" + d))));
      |s| == 10 && s[4] == '-' && s[7] == '-'
  {
  }

  lemma FormatPartsFourDigit(y: nat, m: nat, d: nat)
    requires 1000 <= y <= 9999 && m < 100 && d < 100
    ensures FormatParts(y, m, d) == TwoDigits(y / 100)
                                    + (TwoDigits(y % 100) + ("-" + (TwoDigits(m) + ("-" + TwoDigits(d)))))
  {
    FourDigits(y);
    Pad2IsTwoDigits(m);
    Pad2IsTwoDigits(d);
    Regroup(NatToString(y), TwoDigits(y / 100), TwoDigits(y % 100), Pad2(m), Pad2(d));
  }

  lemma Regroup(y: string, hi: string, lo: string, m: string, d: string)
    requires y == hi + lo
    ensures y + "-" + m + "-" + d == hi + (lo + ("-" + (m + ("-" + d))))
  {
  }

  /** A year of five or more digits gives a longer text. */
  lemma FormatLongYear(d: Date)
    requires Valid(d) && d.year >= 10000
    ensures |Format(d)| >= 11
  {
    var y := d.year;
    var a := y / 10;
    var b := a / 10;
    var c := b / 10;
    assert a >= 1000 && b >= 100 && c >= 10;
    OneMoreDigit(y);
    OneMoreDigit(a);
    OneMoreDigit(b);
    OneMoreDigit(c);
    assert |Pad2(d.month)| >= 2 && |Pad2(d.day)| >= 2;
  }

  lemma OneMoreDigit(n: nat)
    requires n >= 10
    ensures |NatToString(n)| == |NatToString(n / 10)| + 1
  {
  }

  /** Distinct dates have distinct texts, whatever the number of year digits. */
  lemma FormatInjective(a: Date, b: Date)
    requires Valid(a) && Valid(b) && Format(a) == Format(b)
    ensures a == b
  {
    FormatPartsInjective(a.year, a.month, a.day, b.year, b.month, b.day);
  }

  lemma FormatPartsInjective(y1: nat, m1: nat, d1: nat, y2: nat, m2: nat, d2: nat)
    requires m1 < 100 && d1 < 100 && m2 < 100 && d2 < 100
    requires FormatParts(y1, m1, d1) == FormatParts(y2, m2, d2)
    ensures y1 == y2 && m1 == m2 && d1 == d2
  {
    Pad2IsTwoDigits(m1);
    Pad2IsTwoDigits(d1);
    Pad2IsTwoDigits(m2);
    Pad2IsTwoDigits(d2);
    SplitFixedTail(NatToString(y1), Pad2(m1), Pad2(d1), NatToString(y2), Pad2(m2), Pad2(d2));
    NatToStringInjective(y1, y2);
    TwoDigitsOrder(m1, m2);
    TwoDigitsOrder(d1, d2);
  }

  /** Texts `y-m-d` with two-character `m` and `d` split back uniquely. */
  lemma SplitFixedTail(y1: string, m1: string, d1: string, y2: string, m2: string, d2: string)
    requires |m1| == |m2| == 2 && |d1| == |d2| == 2
    requires y1 + "-" + m1 + "-" + d1 == y2 + "-" + m2 + "-" + d2
    ensures y1 == y2 && m1 == m2 && d1 == d2
  {
    var s1, s2 := y1 + "-" + m1 + "-" + d1, y2 + "-" + m2 + "-" + d2;
    var n := |s1|;
    assert s1[..n - 6] == y1 && s2[..n - 6] == y2;
    assert s1[n - 5..n - 3] == m1 && s2[n - 5..n - 3] == m2;
    assert s1[n - 2..] == d1 && s2[n - 2..] == d2;
  }

  /** For four-digit years, comparing the `YYYY-MM-DD` texts with the string
      `<` of JavaScript is comparing the dates (the property section 5.1 of
      RFC 3339 relies on), and equal texts are equal dates. */
  lemma FormatOrder(a: Date, b: Date)
    requires FourDigitYear(a) && FourDigitYear(b)
    ensures StrLess(Format(a), Format(b)) <==> Before(a, b)
    ensures Format(a) == Format(b) <==> a == b
  {
    FormatFourDigit(a);
    FormatFourDigit(b);
    var ya, yb := a.year, b.year;
    TwoDigitsOrder(ya / 100, yb / 100);
    TwoDigitsOrder(ya % 100, yb % 100);
    TwoDigitsOrder(a.month, b.month);
    TwoDigitsOrder(a.day, b.day);
    assert ya < yb <==> ya / 100 < yb / 100 || (ya / 100 == yb / 100 && ya % 100 < yb % 100);
    assert ya == yb <==> ya / 100 == yb / 100 && ya % 100 == yb % 100;
    StrLessIrreflexive("-");
    var ma, mb := TwoDigits(a.month) + ("-" + TwoDigits(a.day)), TwoDigits(b.month) + ("-" + TwoDigits(b.day));
    StrLessConcat(TwoDigits(a.month), "-" + TwoDigits(a.day), TwoDigits(b.month), "-" + TwoDigits(b.day));
    StrLessConcat("-", TwoDigits(a.day), "-", TwoDigits(b.day));
    StrLessConcat("-", ma, "-", mb);
    StrLessConcat(TwoDigits(ya % 100), "-" + ma, TwoDigits(yb % 100), "-" + mb);
    StrLessConcat(TwoDigits(ya / 100), TwoDigits(ya % 100) + ("-" + ma),
                  TwoDigits(yb / 100), TwoDigits(yb % 100) + ("-" + mb));
  }
}
