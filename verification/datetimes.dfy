/**
 * Naive (time-zone free) date-times as Python's datetime module holds them,
 * their chronological order, and the compact text form "%Y%m%dT%H%M%S"
 * that the ICS exporter writes (the floating local DATE-TIME of
 * section 3.3.5 of RFC 5545).
 */
module DateTimes {
  import opened Wrappers

  datatype Date = Date(year: nat, month: nat, day: nat)
  datatype Time = Time(hour: nat, minute: nat, second: nat)

  /** datetime.datetime.combine(date, time) keeps both parts side by side. */
  datatype DateTime = DateTime(date: Date, time: Time)

  predicate IsLeapYear(y: nat) {
    y % 4 == 0 && (y % 100 != 0 || y % 400 == 0)
  }

  function DaysInMonth(y: nat, m: nat): (d: nat)
    requires 1 <= m <= 12
    ensures 28 <= d <= 31
  {
    if m == 2 then (if IsLeapYear(y) then 29 else 28)
    else if m == 4 || m == 6 || m == 9 || m == 11 then 30
    else 31
  }

  /** The values Python's datetime accepts (MINYEAR 1 to MAXYEAR 9999). */
  predicate ValidDate(d: Date) {
    1 <= d.year <= 9999 && 1 <= d.month <= 12 && 1 <= d.day <= DaysInMonth(d.year, d.month)
  }

  predicate ValidTime(t: Time) {
    t.hour < 24 && t.minute < 60 && t.second < 60
  }

  predicate Valid(dt: DateTime) {
    ValidDate(dt.date) && ValidTime(dt.time)
  }

  /** a < b for naive datetimes: field by field, most significant first. */
  predicate Before(a: DateTime, b: DateTime) {
    if a.date.year != b.date.year then a.date.year < b.date.year
    else if a.date.month != b.date.month then a.date.month < b.date.month
    else if a.date.day != b.date.day then a.date.day < b.date.day
    else if a.time.hour != b.time.hour then a.time.hour < b.time.hour
    else if a.time.minute != b.time.minute then a.time.minute < b.time.minute
    else a.time.second < b.time.second
  }

  /** Before is a strict total order, so b >= a means exactly "b == a or a before b". */
  lemma BeforeIsStrictTotalOrder(a: DateTime, b: DateTime, c: DateTime)
    ensures !Before(a, a)
    ensures Before(a, b) ==> !Before(b, a)
    ensures Before(a, b) && Before(b, c) ==> Before(a, c)
    ensures Before(a, b) || a == b || Before(b, a)
  {
  }

  // ---- fixed-width decimal fields ----

  function Pow10(w: nat): (p: nat)
    ensures p >= 1
  {
    if w == 0 then 1 else 10 * Pow10(w - 1)
  }

  predicate IsDigit(c: char) {
    '0' <= c <= '9'
  }

  function DigitChar(d: nat): (c: char)
    requires d < 10
    ensures IsDigit(c)
  {
    ('0' as int + d) as char
  }

  /** n written in decimal with exactly w digits, zero-padded on the left. */
  function Digits(n: nat, w: nat): (s: string)
    ensures |s| == w
    ensures forall k :: 0 <= k < w ==> IsDigit(s[k])
  {
    if w == 0 then "" else Digits(n / 10, w - 1) + [DigitChar(n % 10)]
  }

  /** The number a string of decimal digits denotes. */
  function DecimalValue(s: string): nat
    requires forall k :: 0 <= k < |s| ==> IsDigit(s[k])
  {
    if s == [] then 0
    else
      assert IsDigit(s[|s| - 1]);
      10 * DecimalValue(s[..|s| - 1]) + (s[|s| - 1] as int - '0' as int)
  }

  /** Reading back a zero-padded field gives the number, when it fits the width. */
  lemma {:induction false} DigitsRoundTrip(n: nat, w: nat)
    requires n < Pow10(w)
    ensures DecimalValue(Digits(n, w)) == n
  {
    if w > 0 {
      var s := Digits(n, w);
      assert s[..w - 1] == Digits(n / 10, w - 1);
      assert n / 10 < Pow10(w - 1);
      DigitsRoundTrip(n / 10, w - 1);
      assert s[w - 1] as int - '0' as int == n % 10;
      assert DecimalValue(s) == 10 * (n / 10) + n % 10;
    }
  }

  /** Eight digits, a 'T', then six digits. */
  predicate IsCompactForm(s: string) {
    |s| == 15 && s[8] == 'T' && forall k :: 0 <= k < 15 && k != 8 ==> IsDigit(s[k])
  }

  /** strftime("%Y%m%dT%H%M%S"), e.g. 20240305T143000. */
  function Compact(dt: DateTime): (s: string)
    ensures IsCompactForm(s)
  {
    Digits(dt.date.year, 4) + Digits(dt.date.month, 2) + Digits(dt.date.day, 2) + "T"
    + Digits(dt.time.hour, 2) + Digits(dt.time.minute, 2) + Digits(dt.time.second, 2)
  }

  /** Reads the compact form back; None when s is not 8 digits, 'T', 6 digits. */
  function ParseCompact(s: string): Option<DateTime>
  {
    if !IsCompactForm(s) then None
    else
      Some(DateTime(
        Date(DecimalValue(s[0..4]), DecimalValue(s[4..6]), DecimalValue(s[6..8])),
        Time(DecimalValue(s[9..11]), DecimalValue(s[11..13]), DecimalValue(s[13..15]))))
  }

  /** The stamps the exporter writes identify the date-time they came from. */
  lemma CompactRoundTrip(dt: DateTime)
    requires Valid(dt)
    ensures ParseCompact(Compact(dt)) == Some(dt)
  {
    var s := Compact(dt);
    assert s[0..4] == Digits(dt.date.year, 4);
    assert s[4..6] == Digits(dt.date.month, 2);
    assert s[6..8] == Digits(dt.date.day, 2);
    assert s[9..11] == Digits(dt.time.hour, 2);
    assert s[11..13] == Digits(dt.time.minute, 2);
    assert s[13..15] == Digits(dt.time.second, 2);
    DigitsRoundTrip(dt.date.year, 4);
    DigitsRoundTrip(dt.date.month, 2);
    DigitsRoundTrip(dt.date.day, 2);
    DigitsRoundTrip(dt.time.hour, 2);
    DigitsRoundTrip(dt.time.minute, 2);
    DigitsRoundTrip(dt.time.second, 2);
  }
}
