/** Hand-coded recognisers for the transcript line grammars of
    src/lib/parser/whatsapp-parser.ts (MESSAGE_PATTERNS and
    SYSTEM_MESSAGE_PATTERNS). Each function follows the order in which a
    backtracking regular-expression engine tries the alternatives, so that it
    accepts exactly the lines the expression accepts and captures the same
    groups:
    - `\d{2,4}` before the hour is greedy, so when year and hour digits run
      together the year takes four, then three, then two of them;
    - `\s*` before a capture gives back one character when the capture would
      otherwise be empty;
    - `.` does not match a line terminator, and `$` is the end of the line.
    The third message pattern is the second one repeated, so it accepts no
    line the second rejects and is not written out. */
module LineGrammar {
  import opened Options
  import opened Strings
  import opened Timestamps

  /** A line of the message grammar: `<stamp> Sender: Body`. */
  datatype DatedLine = DatedLine(token: DateTimeToken, sender: string, body: string)

  /** A line of the sender-less grammar: `<stamp> Body`. */
  datatype NoticeLine = NoticeLine(token: DateTimeToken, body: string)

  /** The value of the leading `n` characters of `s`, all digits. */
  function Number(s: string, n: nat): nat
    requires n <= |s| && forall k :: 0 <= k < n ==> IsDigit(s[k])
  {
    DigitsValue(s[..n])
  }

  /** How many of `run` adjacent digits `\d{2,4}` leaves to the year when the
      rest must be the one or two hour digits before the colon: the first of
      4, 3, 2 that leaves one or two. */
  function YearLength(run: nat): (y: Option<nat>)
    ensures y.Some? ==> 2 <= y.value <= 4 && 1 <= run - y.value <= 2
    ensures y.Some? && y.value < 4 ==> !(1 <= run - 4 <= 2)
    ensures y.Some? && y.value < 3 ==> !(1 <= run - 3 <= 2)
    ensures y.None? ==> !(1 <= run - 4 <= 2) && !(1 <= run - 3 <= 2) && !(1 <= run - 2 <= 2)
  {
    if 5 <= run <= 6 then Some(4) else if run == 4 then Some(3) else if run == 3 then Some(2) else None
  }

  /** `\d{1,2}\/` at the start of `s`: the number and the rest after the slash. */
  function DayOrMonth(s: string): (r: Option<(nat, string)>)
    ensures r.Some? ==> |r.value.1| + 2 <= |s|
  {
    var n := DigitRun(s, 0);
    if 1 <= n <= 2 && n < |s| && s[n] == '/' then Some((Number(s, n), s[n + 1..])) else None
  }

  /** `\d{2,4},?\s*\d{1,2}:` at the start of `s`: the year, the hour and the
      rest after the colon. */
  function YearAndHour(s: string): (r: Option<(nat, nat, string)>)
    ensures r.Some? ==> |r.value.2| + 3 <= |s|
  {
    var n := DigitRun(s, 0);
    if n < |s| && s[n] == ':' then JoinedYearAndHour(s, n)
    else if 2 <= n <= 4 then SeparateYearAndHour(s, n)
    else None
  }

  /** Year and hour digits written together before the colon at `n`. */
  function JoinedYearAndHour(s: string, n: nat): (r: Option<(nat, nat, string)>)
    requires n < |s| && forall k :: 0 <= k < n ==> IsDigit(s[k])
    ensures r.Some? ==> |r.value.2| + 3 <= |s|
  {
    match YearLength(n)
    case None => None
    case Some(y) => Some((Number(s, y), Number(s[y..], n - y), s[n + 1..]))
  }

  /** A year of `n` digits, then `,?\s*` and the hour digits before a colon. */
  function SeparateYearAndHour(s: string, n: nat): (r: Option<(nat, nat, string)>)
    requires 2 <= n <= |s| && forall k :: 0 <= k < n ==> IsDigit(s[k])
    ensures r.Some? ==> |r.value.2| + 3 <= |s|
  {
    var t := if n < |s| && s[n] == ',' then s[n + 1..] else s[n..];
    var u := t[SpaceRun(t, 0)..];
    var k := DigitRun(u, 0);
    if 1 <= k <= 2 && k < |u| && u[k] == ':'
    then Some((Number(s, n), Number(u, k), u[k + 1..]))
    else None
  }

  /** The minutes, seconds and marker read from `r`, the text after the
      hour's colon. */
  datatype Clock = Clock(minute: nat, seconds: Option<nat>, meridian: Option<Meridian>)

  /** `\d{2}(?::\d{2})?(?:\s*[AP]M)?` at the start of `r`, with `/i` applied
      to the marker: the clock fields and the rest. */
  function MinutesOn(r: string): (res: Option<(Clock, string)>)
    ensures res.Some? ==> |res.value.1| + 2 <= |r|
  {
    if !(2 <= |r| && IsDigit(r[0]) && IsDigit(r[1])) then None
    else
      var q := r[2..];
      var (secs, q') :=
        if 3 <= |q| && q[0] == ':' && IsDigit(q[1]) && IsDigit(q[2])
        then (Some(Number(q[1..], 2)), q[3..])
        else (None, q);
      var w := SpaceRun(q', 0);
      var (mer, rest) :=
        if w + 1 < |q'| && q'[w] in "AaPp" && q'[w + 1] in "Mm"
        then (Some(if q'[w] in "Pp" then PM else AM), q'[w + 2..])
        else (None, q');
      Some((Clock(Number(r, 2), secs, mer), rest))
  }

  /** `\d{1,2}\/\d{1,2}\/\d{2,4},?\s*\d{1,2}:\d{2}(?::\d{2})?(?:\s*[AP]M)?`
      at the start of `s`: the date-time token and the rest. */
  function DateTime(s: string): (r: Option<(DateTimeToken, string)>)
    ensures r.Some? ==> |r.value.1| < |s|
  {
    match DayOrMonth(s)
    case None => None
    case Some((first, s1)) =>
      match DayOrMonth(s1)
      case None => None
      case Some((second, s2)) =>
        match YearAndHour(s2)
        case None => None
        case Some((year, hour, s3)) =>
          match MinutesOn(s3)
          case None => None
          case Some((c, rest)) =>
            Some((DateTimeToken(first, second, year, hour, c.minute, c.seconds, c.meridian), rest))
  }

  /** `^\[<stamp>\]`: the rest of the line after the closing bracket. */
  function Bracketed(s: string): (r: Option<(DateTimeToken, string)>)
    ensures r.Some? ==> |r.value.1| < |s|
  {
    if s == [] || s[0] != '[' then None
    else match DateTime(s[1..])
      case None => None
      case Some((tok, rest)) =>
        if rest != [] && rest[0] == ']' then Some((tok, rest[1..])) else None
  }

  /** `^<stamp>\s*-`: the rest of the line after the dash. */
  function Dashed(s: string): (r: Option<(DateTimeToken, string)>)
    ensures r.Some? ==> |r.value.1| < |s|
  {
    DashAfter(DateTime(s))
  }

  /** The dash, after optional blanks, that follows the date-time. */
  function DashAfter(stamp: Option<(DateTimeToken, string)>): (r: Option<(DateTimeToken, string)>)
    ensures r.Some? ==> stamp.Some? && |r.value.1| < |stamp.value.1|
  {
    match stamp
    case None => None
    case Some((tok, rest)) =>
      var w := SpaceRun(rest, 0);
      if w < |rest| && rest[w] == '-' then Some((tok, rest[w + 1..])) else None
  }

  /** `\s*([^:]+):\s*(.*)$`: the sender capture and the body capture. */
  function SenderTail(r: string): (res: Option<(string, string)>)
    ensures res.Some? ==> res.value.0 != [] && ':' !in res.value.0
    ensures res.Some? ==> !HasLineTerminator(res.value.1) && (res.value.1 == [] || !IsSpace(res.value.1[0]))
  {
    match IndexOf(r, ":")
    case None => None
    case Some(k) =>
      if k == 0 then None
      else
        assert r[k..k + 1] == ":";
        var w := SpaceRun(r, 0);
        var start := if w < k then w else k - 1;
        assert forall j :: 0 <= j < k ==> r[j] != ':' by {
          forall j | 0 <= j < k ensures r[j] != ':' {
            assert !OccursAt(r, ":", j);
            assert r[j..j + 1] == [r[j]];
          }
        }
        var t := r[k + 1..];
        var body := t[SpaceRun(t, 0)..];
        if HasLineTerminator(body) then None else Some((r[start..k], body))
  }

  /** `\s*(.+)$`: the body capture. */
  function NoticeTail(r: string): (res: Option<string>)
    ensures res.Some? ==> res.value != [] && !HasLineTerminator(res.value)
    ensures res.Some? ==> exists a :: OccursAt(r, res.value, a) && a + |res.value| == |r|
  {
    if r == [] then None
    else
      var w := SpaceRun(r, 0);
      var start := if w < |r| then w else |r| - 1;
      var content := r[start..];
      assert OccursAt(r, content, start);
      if HasLineTerminator(content) then None else Some(content)
  }

  /** The first message pattern that matches `line`, with its captures
      (date-time, sender, body). */
  function MatchMessageLine(line: string): (r: Option<DatedLine>)
    ensures r.Some? ==> r.value.sender != [] && ':' !in r.value.sender
    ensures r.Some? ==> !HasLineTerminator(r.value.body)
  {
    var bracketed := WithSender(Bracketed(line));
    if bracketed.Some? then bracketed else WithSender(Dashed(line))
  }

  function WithSender(prefix: Option<(DateTimeToken, string)>): (r: Option<DatedLine>)
    ensures r.Some? ==> r.value.sender != [] && ':' !in r.value.sender
    ensures r.Some? ==> !HasLineTerminator(r.value.body)
    ensures r.Some? ==> prefix.Some? && r.value.token == prefix.value.0
  {
    if prefix.None? then None
    else
      var tail := SenderTail(prefix.value.1);
      if tail.None? then None else Some(DatedLine(prefix.value.0, tail.value.0, tail.value.1))
  }

  /** The first sender-less pattern that matches `line`. */
  function MatchNoticeLine(line: string): (r: Option<NoticeLine>)
    ensures r.Some? ==> r.value.body != [] && !HasLineTerminator(r.value.body)
  {
    var bracketed := WithoutSender(Bracketed(line));
    if bracketed.Some? then bracketed else WithoutSender(Dashed(line))
  }

  function WithoutSender(prefix: Option<(DateTimeToken, string)>): (r: Option<NoticeLine>)
    ensures r.Some? ==> r.value.body != [] && !HasLineTerminator(r.value.body)
    ensures r.Some? ==> prefix.Some? && r.value.token == prefix.value.0
  {
    if prefix.None? then None
    else
      var tail := NoticeTail(prefix.value.1);
      if tail.None? then None else Some(NoticeLine(prefix.value.0, tail.value))
  }

  // Recognition of the two export formats, built from their parts.

  predicate Digits(d: string, lo: nat, hi: nat) {
    lo <= |d| <= hi && forall k :: 0 <= k < |d| ==> IsDigit(d[k])
  }

  /** `[D/M/Y, H:MM:SS] Sender: Body`, the bracketed export format. */
  function BracketedLine(d: string, m: string, y: string, h: string, mi: string, se: string,
                         sender: string, body: string): string
  {
    "[" + (d + ("/" + (m + ("/" + (y + (", " + (h + (":" + (mi + (":" + (se + ("]" + SenderPart(sender, body)))))))))))))
  }

  /** `D/M/Y, H:MM - Sender: Body`, the dashed export format. */
  function DashedLine(d: string, m: string, y: string, h: string, mi: string,
                      sender: string, body: string): string
  {
    d + ("/" + (m + ("/" + (y + (", " + (h + (":" + (mi + (" -" + SenderPart(sender, body))))))))))
  }

  /** ` Sender: Body`, the part after the date and time. */
  function SenderPart(sender: string, body: string): string {
    " " + (sender + (": " + body))
  }

  /** A sender and a body that the export writes without surrounding blanks. */
  predicate WellFormedParts(sender: string, body: string) {
    && sender != [] && ':' !in sender && !IsSpace(sender[0])
    && !HasLineTerminator(body) && (body == [] || !IsSpace(body[0]))
  }

  /** Every bracketed line built from well-formed parts is read back as those parts. */
  lemma BracketedLineRecognised(d: string, m: string, y: string, h: string, mi: string, se: string,
                                sender: string, body: string)
    requires Digits(d, 1, 2) && Digits(m, 1, 2) && Digits(y, 2, 4) && Digits(h, 1, 2)
    requires Digits(mi, 2, 2) && Digits(se, 2, 2)
    requires WellFormedParts(sender, body)
    ensures MatchMessageLine(BracketedLine(d, m, y, h, mi, se, sender, body))
         == Some(DatedLine(DateTimeToken(DigitsValue(d), DigitsValue(m), DigitsValue(y), DigitsValue(h),
                                         DigitsValue(mi), Some(DigitsValue(se)), None), sender, body))
  {
    var tok := DateTimeToken(DigitsValue(d), DigitsValue(m), DigitsValue(y), DigitsValue(h),
                             DigitsValue(mi), Some(DigitsValue(se)), None);
    var s := BracketedLine(d, m, y, h, mi, se, sender, body);
    BracketedStamp(d, m, y, h, mi, se, sender, body);
    SenderTailOn(sender, body);
    BracketedGlue(s, tok, SenderPart(sender, body), sender, body);
  }

  /** The date-time inside the brackets of a bracketed line. */
  lemma BracketedStamp(d: string, m: string, y: string, h: string, mi: string, se: string,
                       sender: string, body: string)
    requires Digits(d, 1, 2) && Digits(m, 1, 2) && Digits(y, 2, 4) && Digits(h, 1, 2)
    requires Digits(mi, 2, 2) && Digits(se, 2, 2)
    ensures var s := BracketedLine(d, m, y, h, mi, se, sender, body);
      && s != [] && s[0] == '['
      && DateTime(s[1..]) == Some((DateTimeToken(DigitsValue(d), DigitsValue(m), DigitsValue(y), DigitsValue(h),
                                                 DigitsValue(mi), Some(DigitsValue(se)), None),
                                   "]" + SenderPart(sender, body)))
  {
    var tail := SenderPart(sender, body);
    var afterHour := mi + (":" + (se + ("]" + tail)));
    MinutesWithSeconds(mi, se, "]" + tail);
    DateTimeOf(d, m, y, h, afterHour, Clock(DigitsValue(mi), Some(DigitsValue(se)), None), "]" + tail);
    var s := BracketedLine(d, m, y, h, mi, se, sender, body);
    assert s[1..] == d + ("/" + (m + ("/" + (y + (", " + (h + (":" + afterHour)))))));
  }

  /** `MatchMessageLine` on a line whose bracketed prefix and sender part are read. */
  lemma BracketedGlue(s: string, tok: DateTimeToken, tail: string, sender: string, body: string)
    requires s != [] && s[0] == '[' && DateTime(s[1..]) == Some((tok, "]" + tail))
    requires SenderTail(tail) == Some((sender, body))
    ensures MatchMessageLine(s) == Some(DatedLine(tok, sender, body))
  {
    assert ("]" + tail)[1..] == tail;
    assert Bracketed(s) == Some((tok, tail));
  }

  /** Every dashed line built from well-formed parts is read back as those parts. */
  lemma DashedLineRecognised(d: string, m: string, y: string, h: string, mi: string,
                             sender: string, body: string)
    requires Digits(d, 1, 2) && Digits(m, 1, 2) && Digits(y, 2, 4) && Digits(h, 1, 2)
    requires Digits(mi, 2, 2)
    requires WellFormedParts(sender, body)
    ensures MatchMessageLine(DashedLine(d, m, y, h, mi, sender, body))
         == Some(DatedLine(DateTimeToken(DigitsValue(d), DigitsValue(m), DigitsValue(y), DigitsValue(h),
                                         DigitsValue(mi), None, None), sender, body))
  {
    var tok := DateTimeToken(DigitsValue(d), DigitsValue(m), DigitsValue(y), DigitsValue(h),
                             DigitsValue(mi), None, None);
    var s := DashedLine(d, m, y, h, mi, sender, body);
    DashedStamp(d, m, y, h, mi, sender, body);
    SenderTailOn(sender, body);
    DashedGlue(s, tok, SenderPart(sender, body), sender, body);
  }

  /** The date-time at the start of a dashed line. */
  lemma DashedStamp(d: string, m: string, y: string, h: string, mi: string, sender: string, body: string)
    requires Digits(d, 1, 2) && Digits(m, 1, 2) && Digits(y, 2, 4) && Digits(h, 1, 2)
    requires Digits(mi, 2, 2)
    ensures var s := DashedLine(d, m, y, h, mi, sender, body);
      && s != [] && s[0] != '['
      && DateTime(s) == Some((DateTimeToken(DigitsValue(d), DigitsValue(m), DigitsValue(y), DigitsValue(h),
                                            DigitsValue(mi), None, None),
                              " -" + SenderPart(sender, body)))
  {
    var tail := SenderPart(sender, body);
    var s := DashedLine(d, m, y, h, mi, sender, body);
    assert s[0] == d[0];
    MinutesWithoutSeconds(mi, " -" + tail);
    DateTimeOf(d, m, y, h, mi + (" -" + tail), Clock(DigitsValue(mi), None, None), " -" + tail);
  }

  /** `MatchMessageLine` on an unbracketed line whose dashed prefix and sender part are read. */
  lemma DashedGlue(s: string, tok: DateTimeToken, tail: string, sender: string, body: string)
    requires s != [] && s[0] != '[' && DateTime(s) == Some((tok, " -" + tail))
    requires SenderTail(tail) == Some((sender, body))
    ensures MatchMessageLine(s) == Some(DatedLine(tok, sender, body))
  {
    DashAfterOf(tok, tail);
    assert Dashed(s) == Some((tok, tail));
    assert Bracketed(s).None?;
  }

  /** A blank and a dash after the date-time are skipped. */
  lemma DashAfterOf(tok: DateTimeToken, tail: string)
    ensures DashAfter(Some((tok, " -" + tail))) == Some((tok, tail))
  {
    SpaceRunAt(" -" + tail, 0, 1);
    assert (" -" + tail)[2..] == tail;
  }

  /** The date-time of a line that starts `d/m/y, h:` and whose clock part reads as `c`. */
  lemma DateTimeOf(d: string, m: string, y: string, h: string, afterHour: string, c: Clock, rest: string)
    requires Digits(d, 1, 2) && Digits(m, 1, 2) && Digits(y, 2, 4) && Digits(h, 1, 2)
    requires MinutesOn(afterHour) == Some((c, rest))
    ensures DateTime(d + ("/" + (m + ("/" + (y + (", " + (h + (":" + afterHour))))))))
         == Some((DateTimeToken(DigitsValue(d), DigitsValue(m), DigitsValue(y), DigitsValue(h),
                                c.minute, c.seconds, c.meridian), rest))
  {
    var s2 := y + (", " + (h + (":" + afterHour)));
    var s1 := m + ("/" + s2);
    DayOrMonthOf(d, s1);
    DayOrMonthOf(m, s2);
    YearAndHourOf(y, h, afterHour);
    DateTimeOfParts(d + ("/" + s1), DigitsValue(d), s1, DigitsValue(m), s2, DigitsValue(y), DigitsValue(h),
                    afterHour, c, rest);
  }

  /** `DateTime` from the results of its four parts. */
  lemma DateTimeOfParts(s: string, first: nat, s1: string, second: nat, s2: string,
                        year: nat, hour: nat, s3: string, c: Clock, rest: string)
    requires DayOrMonth(s) == Some((first, s1)) && DayOrMonth(s1) == Some((second, s2))
    requires YearAndHour(s2) == Some((year, hour, s3)) && MinutesOn(s3) == Some((c, rest))
    ensures DateTime(s) == Some((DateTimeToken(first, second, year, hour, c.minute, c.seconds, c.meridian), rest))
  {
  }

  /** Digits `d` followed by `"/"`. */
  lemma DayOrMonthOf(d: string, rest: string)
    requires Digits(d, 1, 2)
    ensures DayOrMonth(d + ("/" + rest)) == Some((DigitsValue(d), rest))
  {
    var s := d + ("/" + rest);
    DigitsBefore(d, "/" + rest);
    assert s[..|d|] == d;
    assert s[|d| + 1..] == rest;
  }

  /** Year digits `y`, `", "`, hour digits `h` and a colon. */
  lemma YearAndHourOf(y: string, h: string, rest: string)
    requires Digits(y, 2, 4) && Digits(h, 1, 2)
    ensures YearAndHour(y + (", " + (h + (":" + rest)))) == Some((DigitsValue(y), DigitsValue(h), rest))
  {
    var u := h + (":" + rest);
    HourPart(h, rest);
    YearPart(y, u);
    YearCommaHour(y + (", " + u), |y|, u, |h|);
  }

  lemma HourPart(h: string, rest: string)
    requires Digits(h, 1, 2)
    ensures var u := h + (":" + rest);
            DigitRun(u, 0) == |h| && |h| < |u| && u[|h|] == ':' && u[|h| + 1..] == rest
            && IsDigit(u[0]) && Number(u, |h|) == DigitsValue(h)
  {
    var u := h + (":" + rest);
    DigitsBefore(h, ":" + rest);
    assert u[..|h|] == h;
    assert u[|h| + 1..] == rest;
  }

  lemma YearPart(y: string, u: string)
    requires Digits(y, 2, 4) && u != [] && IsDigit(u[0])
    ensures var s := y + (", " + u);
            DigitRun(s, 0) == |y| && |y| < |s| && s[|y|] == ','
            && (var t := s[|y| + 1..]; t[SpaceRun(t, 0)..] == u)
            && Number(s, |y|) == DigitsValue(y)
  {
    var s := y + (", " + u);
    DigitsBefore(y, ", " + u);
    assert s[..|y|] == y;
    var t := s[|y| + 1..];
    assert t == " " + u;
    SpaceRunAt(t, 0, 1);
    assert t[1..] == u;
  }

  /** `YearAndHour` when the year digits are followed by a comma. */
  lemma YearCommaHour(s: string, n: nat, u: string, k: nat)
    requires DigitRun(s, 0) == n && n < |s| && s[n] == ',' && 2 <= n <= 4
    requires var t := s[n + 1..]; t[SpaceRun(t, 0)..] == u
    requires DigitRun(u, 0) == k && 1 <= k <= 2 && k < |u| && u[k] == ':'
    ensures YearAndHour(s) == Some((Number(s, n), Number(u, k), u[k + 1..]))
  {
    assert SeparateYearAndHour(s, n) == Some((Number(s, n), Number(u, k), u[k + 1..]));
  }

  /** Minutes, `":"` and seconds, then no blank and no AM/PM marker. */
  lemma MinutesWithSeconds(mi: string, se: string, rest: string)
    requires Digits(mi, 2, 2) && Digits(se, 2, 2)
    requires rest != [] && !IsSpace(rest[0]) && rest[0] !in "AaPp"
    ensures MinutesOn(mi + (":" + (se + rest))) == Some((Clock(DigitsValue(mi), Some(DigitsValue(se)), None), rest))
  {
    var r := mi + (":" + (se + rest));
    assert r[..2] == mi;
    var q := r[2..];
    assert q == ":" + (se + rest);
    assert q[1..][..2] == se;
    assert q[3..] == rest;
    SpaceRunAt(rest, 0, 0);
  }

  /** Minutes, then a blank and a character that is neither blank nor an AM/PM marker. */
  lemma MinutesWithoutSeconds(mi: string, rest: string)
    requires Digits(mi, 2, 2)
    requires |rest| >= 2 && rest[0] == ' ' && !IsSpace(rest[1]) && rest[1] !in "AaPp"
    ensures MinutesOn(mi + rest) == Some((Clock(DigitsValue(mi), None, None), rest))
  {
    var r := mi + rest;
    assert r[..2] == mi;
    assert r[2..] == rest;
    SpaceRunAt(rest, 0, 1);
  }

  /** The leading digit run of `d + rest` is `d` when `rest` does not start with a digit. */
  lemma DigitsBefore(d: string, rest: string)
    requires forall k :: 0 <= k < |d| ==> IsDigit(d[k])
    requires rest == [] || !IsDigit(rest[0])
    ensures DigitRun(d + rest, 0) == |d|
  {
    var s := d + rest;
    forall k | 0 <= k < |d| ensures IsDigit(s[k]) {
      assert s[k] == d[k];
    }
    DigitRunAt(s, 0, |d|);
  }

  lemma {:induction false} DigitRunAt(s: string, i: nat, n: nat)
    requires i + n <= |s| && forall k :: i <= k < i + n ==> IsDigit(s[k])
    requires i + n == |s| || !IsDigit(s[i + n])
    ensures DigitRun(s, i) == i + n
    decreases n
  {
    if n > 0 { DigitRunAt(s, i + 1, n - 1); }
  }

  lemma {:induction false} SpaceRunAt(s: string, i: nat, n: nat)
    requires i + n <= |s| && forall k :: i <= k < i + n ==> IsSpace(s[k])
    requires i + n == |s| || !IsSpace(s[i + n])
    ensures SpaceRun(s, i) == i + n
    decreases n
  {
    if n > 0 { SpaceRunAt(s, i + 1, n - 1); }
  }

  lemma SenderTailOn(sender: string, body: string)
    requires WellFormedParts(sender, body)
    ensures SenderTail(SenderPart(sender, body)) == Some((sender, body))
  {
    var r := SenderPart(sender, body);
    var k := 1 + |sender|;
    assert r[1..k] == sender;
    assert r[k + 1..] == " " + body;
    forall j | 0 <= j < k ensures r[j] != ':' {
      if j > 0 { assert r[j] == r[1..k][j - 1]; }
    }
    CharIndex(r, ':', k);
    assert ":" == [':'];
    SpaceRunAt(r, 0, 1);
    var t := r[k + 1..];
    SpaceRunAt(t, 0, 1);
    assert t[1..] == body;
  }

  /** The first occurrence of a single character. */
  lemma CharIndex(s: string, c: char, k: nat)
    requires k < |s| && s[k] == c && forall j :: 0 <= j < k ==> s[j] != c
    ensures IndexOf(s, [c]) == Some(k)
  {
    assert OccursAt(s, [c], k);
    forall j | 0 <= j < k ensures !OccursAt(s, [c], j) {
      assert s[j..j + 1] == [s[j]];
    }
  }
}
