/**
 * Calendar days as the tool handles them: parsed with Go's `time.Parse` from fixed-width
 * layouts, compared with `Before`/`Equal`, and printed with zero-padded `fmt` verbs.
 */
module Dates {
  import opened Wrappers
  import opened Strings

  /** A calendar day at midnight UTC, as `time.Parse` returns for a date-only layout. */
  datatype Date = Date(year: nat, month: nat, day: nat)

  /** An instant of `time.Now()`: a day and the nanoseconds elapsed since its UTC midnight. */
  datatype Instant = Instant(date: Date, nanos: nat)

  predicate IsLeap(year: nat)
  {
    year % 4 == 0 && (year % 100 != 0 || year % 400 == 0)
  }

  function DaysIn(year: nat, month: nat): nat
  {
    if month == 2 then (if IsLeap(year) then 29 else 28)
    else if month == 4 || month == 6 || month == 9 || month == 11 then 30
    else 31
  }

  /** The days `time.Parse` accepts: month 1..12 and a day that exists in that month. */
  predicate Valid(d: Date)
  {
    1 <= d.month <= 12 && 1 <= d.day <= DaysIn(d.year, d.month)
  }

  /** `a.Before(b)` for two midnights: the calendar order. */
  predicate Before(a: Date, b: Date)
  {
    a.year < b.year
    || (a.year == b.year && (a.month < b.month || (a.month == b.month && a.day < b.day)))
  }

  /** `a.Before(b) || a.Equal(b)`. */
  predicate NotAfter(a: Date, b: Date)
  {
    Before(a, b) || a == b
  }

  /** `d.Before(now)`, where `d` is the midnight starting day `d`. */
  predicate BeforeInstant(d: Date, now: Instant)
  {
    Before(d, now.date) || (d == now.date && now.nanos > 0)
  }

  /** `fmt.Sprintf("%04d%02d%02d", y, m, d)`, which is also `d.Format("20060102")`. */
  function Stamp(d: Date): string
  {
    ZeroPad(d.year, 4) + ZeroPad(d.month, 2) + ZeroPad(d.day, 2)
  }

  /** `fmt.Sprintf("year=%04d/month=%02d/day=%02d", y, m, d)`. */
  function Segment(d: Date): string
  {
    "year=" + ZeroPad(d.year, 4) + "/month=" + ZeroPad(d.month, 2) + "/day=" + ZeroPad(d.day, 2)
  }

  /**
   * `time.Parse` with the layout "2006" + sep + "01" + sep + "02": exactly four year digits,
   * two month digits and two day digits with the separator between them, nothing after,
   * and a day that exists in the calendar.
   */
  function ParseLayout(s: string, sep: string): (r: Option<Date>)
    ensures r.Some? ==> Valid(r.value) && r.value.year < 10000
  {
    var n := |sep|;
    if |s| != 8 + 2 * n then None
    else
      var y, m, d := s[..4], s[4 + n..6 + n], s[6 + 2 * n..];
      if AllDigits(y) && AllDigits(m) && AllDigits(d) && s[4..4 + n] == sep && s[6 + n..6 + 2 * n] == sep then
        var date := Date(ParseNat(y), ParseNat(m), ParseNat(d));
        ParseNatBound(y);
        if Valid(date) then Some(date) else None
      else None
  }

  lemma PadTwo(n: nat)
    requires 1 <= n <= 99
    ensures |ZeroPad(n, 2)| == 2 && AllDigits(ZeroPad(n, 2)) && ParseNat(ZeroPad(n, 2)) == n
  {
    NatToStringLength(n, 2);
    ZeroPadReadsBack(n, 2);
  }

  lemma PadFour(n: nat)
    requires n < 10000
    ensures |ZeroPad(n, 4)| == 4 && AllDigits(ZeroPad(n, 4)) && ParseNat(ZeroPad(n, 4)) == n
  {
    NatToStringLength(n, 4);
    ZeroPadReadsBack(n, 4);
  }

  /** Printing a day as YYYYMMDD and parsing it back with "20060102" gives the same day. */
  lemma StampRoundTrip(d: Date)
    requires Valid(d) && d.year < 10000
    ensures |Stamp(d)| == 8 && AllDigits(Stamp(d))
    ensures ParseLayout(Stamp(d), "") == Some(d)
  {
    PadFour(d.year);
    PadTwo(d.month);
    PadTwo(d.day);
    var s := Stamp(d);
    assert s[..4] == ZeroPad(d.year, 4);
    assert s[4..6] == ZeroPad(d.month, 2);
    assert s[6..] == ZeroPad(d.day, 2);
  }
}
