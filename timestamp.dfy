/** The timestamp resolver: `parseDate` in src/lib/parser/whatsapp-parser.ts.
    A line's date token is a slash-separated numeric triple and its time token
    is hour, minutes, optional seconds and an optional AM/PM marker; the
    recognisers in LineGrammar deliver these numbers, and this module turns
    them into the arguments of `new Date(...)`. */
module Timestamps {
  import opened Options
  import opened ChatTypes

  /** The marker after upper-casing (`timeStr.toUpperCase()`). */
  datatype Meridian = AM | PM

  datatype DateTimeToken = DateTimeToken(
    first: nat, second: nat, third: nat,
    hour: nat, minute: nat, seconds: Option<nat>, meridian: Option<Meridian>)

  /** Two-digit years: above 50 is the 1900s, otherwise the 2000s. */
  function ExpandYear(y: nat): (r: nat)
    ensures y < 100 ==> 1951 <= r <= 2050 && r % 100 == y
    ensures y >= 100 ==> r == y
  {
    if y < 100 then y + (if y > 50 then 1900 else 2000) else y
  }

  /** The 12-hour clock: PM adds 12 except to 12, AM turns 12 into 0. */
  function ClockHour(h: nat, m: Option<Meridian>): (r: nat)
    ensures m.Some? && 1 <= h <= 12 ==> r < 24 && (r >= 12 <==> m == Some(PM))
    ensures m.None? ==> r == h
  {
    match m
    case Some(PM) => if h != 12 then h + 12 else h
    case Some(AM) => if h == 12 then 0 else h
    case None => h
  }

  /** `parseDate`: the first component is the day when it exceeds 12; else the
      second is the day when it exceeds 12; else day/month is assumed. */
  function ResolveTimestamp(tok: DateTimeToken): (r: Timestamp)
    ensures multiset{r.day, r.month} == multiset{tok.first, tok.second}
    ensures tok.first > 12 ==> r.day == tok.first
    ensures (tok.first <= 12 || tok.second <= 12) ==> r.month <= 12
    ensures r.minute == tok.minute && r.second == tok.seconds.GetOr(0)
  {
    var (day, month) :=
      if tok.first > 12 then (tok.first, tok.second)
      else if tok.second > 12 then (tok.second, tok.first)
      else (tok.first, tok.second);
    Timestamp(ExpandYear(tok.third), month, day,
              ClockHour(tok.hour, tok.meridian), tok.minute, tok.seconds.GetOr(0))
  }

  /** A calendar-valid timestamp of the range two-digit years can express. */
  predicate Plausible(t: Timestamp) {
    1 <= t.month <= 12 && 1 <= t.day <= 31 && t.hour < 24 && t.minute < 60 && t.second < 60
  }

  /** The token of `t` written day-first with a four-digit year and a 24-hour clock. */
  function DayFirstToken(t: Timestamp): DateTimeToken {
    DateTimeToken(t.day, t.month, t.year, t.hour, t.minute, Some(t.second), None)
  }

  /** The token of `t` written month-first (the US export format). */
  function MonthFirstToken(t: Timestamp): DateTimeToken {
    DateTimeToken(t.month, t.day, t.year, t.hour, t.minute, Some(t.second), None)
  }

  /** The token of `t` with a two-digit year and the 12-hour clock. */
  function ShortTwelveHourToken(t: Timestamp): DateTimeToken
    requires t.hour < 24
  {
    DateTimeToken(t.day, t.month, t.year % 100,
                  if t.hour % 12 == 0 then 12 else t.hour % 12, t.minute, Some(t.second),
                  Some(if t.hour >= 12 then PM else AM))
  }

  /** Day-first exports are always read back correctly. */
  lemma DayFirstRoundTrip(t: Timestamp)
    requires Plausible(t) && t.year >= 100
    ensures ResolveTimestamp(DayFirstToken(t)) == t
  {
  }

  /** Month-first exports are read back correctly exactly when the day
      exceeds 12 or equals the month; otherwise day and month are swapped. */
  lemma MonthFirstRoundTrip(t: Timestamp)
    requires Plausible(t) && t.year >= 100
    ensures ResolveTimestamp(MonthFirstToken(t)) == t <==> (t.day > 12 || t.day == t.month)
    ensures t.day <= 12 ==> ResolveTimestamp(MonthFirstToken(t)) == t.(day := t.month, month := t.day)
  {
  }

  /** A two-digit year and a 12-hour clock lose nothing for years 1951..2050. */
  lemma ShortTwelveHourRoundTrip(t: Timestamp)
    requires Plausible(t) && 1951 <= t.year <= 2050
    ensures ResolveTimestamp(ShortTwelveHourToken(t)) == t
  {
    var tok := ShortTwelveHourToken(t);
    assert ExpandYear(tok.third) == t.year;
    assert ClockHour(tok.hour, tok.meridian) == t.hour;
  }
}
