/** The exporters of src/lib/export/chat-exporter.ts: the message selection,
    the plain-text and HTML renderings with a date line at every day change,
    the HTML escaping of message text, the JSON record shape, and the media
    bundle and file name of the zip download. */
module ChatExporter {
  import opened Options
  import opened Strings
  import opened Sequences
  import opened ChatTypes

  /** `ExportOptions`: `selectedMessageIds` (absent or a set) and
      `includeMedia` (absent means false). */
  datatype ExportOptions = ExportOptions(selectedIds: Option<set<nat>>, includeMedia: bool)

  /** What the browser supplies and the model does not compute: the locale
      date text (`toLocaleDateString`), the two-digit clock text
      (`toLocaleTimeString` with hour and minute) and the object URL of a
      media file (`mediaFile.url`, made by `URL.createObjectURL`). */
  datatype Locale = Locale(
    dateText: Timestamp -> string,
    clockText: Timestamp -> string,
    objectUrl: MediaFile -> string)

  // ---------------------------------------------------------------------------
  // Selection

  function IdIn(ids: set<nat>): Message -> bool {
    (m: Message) => m.id in ids
  }

  /** The messages an export covers: all of them unless a non-empty set of
      ids is selected, and then those whose id is in it. */
  function Selected(ms: seq<Message>, ids: Option<set<nat>>): seq<Message> {
    if ids.None? || ids.value == {} then ms else Filter(ms, IdIn(ids.value))
  }

  /** The selection keeps input order, drops nothing when no id is selected,
      and otherwise keeps exactly the messages whose id is selected. */
  lemma SelectedProperties(ms: seq<Message>, ids: Option<set<nat>>)
    ensures IsSubsequence(Selected(ms, ids), ms)
    ensures (ids.None? || ids.value == {}) ==> Selected(ms, ids) == ms
    ensures ids.Some? && ids.value != {} ==>
              forall m :: m in Selected(ms, ids) <==> m in ms && m.id in ids.value
  {
    if ids.None? || ids.value == {} {
      FilterAll(ms, (m: Message) => true);
      FilterIsSubsequence(ms, (m: Message) => true);
    } else {
      FilterIsSubsequence(ms, IdIn(ids.value));
    }
  }

  // ---------------------------------------------------------------------------
  // The loop both text exports share

  /** The loop's variables: the text so far and the day of the last message
      (standing for its `toDateString()`). */
  datatype Acc = Acc(out: string, currentDate: Option<DayKey>)

  /** One turn: a separator when the day differs from the last message's,
      then the message's own text. */
  function DayStep(st: Acc, m: Message, separator: Timestamp -> string, render: Message -> string): Acc {
    var day := DayOf(m.timestamp);
    var out := if st.currentDate != Some(day) then st.out + separator(m.timestamp) else st.out;
    Acc(out + render(m), Some(day))
  }

  function DayFold(ms: seq<Message>, separator: Timestamp -> string, render: Message -> string): Acc {
    if ms == [] then Acc([], None)
    else DayStep(DayFold(ms[..|ms| - 1], separator, render), ms[|ms| - 1], separator, render)
  }

  /** What message `j` contributes, in closed form: the separator exactly when
      it starts a day, then its text. */
  function Chunk(ms: seq<Message>, j: nat, separator: Timestamp -> string, render: Message -> string): string
    requires j < |ms|
  {
    (if StartsDay(ms, j) then separator(ms[j].timestamp) else []) + render(ms[j])
  }

  function Chunks(ms: seq<Message>, separator: Timestamp -> string, render: Message -> string): string {
    if ms == [] then []
    else Chunks(ms[..|ms| - 1], separator, render) + Chunk(ms, |ms| - 1, separator, render)
  }

  lemma DayFoldNext(ms: seq<Message>, i: nat, separator: Timestamp -> string, render: Message -> string)
    requires i < |ms|
    ensures DayFold(ms[..i + 1], separator, render) == DayStep(DayFold(ms[..i], separator, render), ms[i], separator, render)
  {
    assert ms[..i + 1][..i] == ms[..i];
  }

  /** The loop emits exactly the message-by-message chunks, so a date line
      appears before a message iff it is the first or its day differs from
      the previous message's. */
  lemma {:induction false} DayFoldIsChunks(ms: seq<Message>, separator: Timestamp -> string, render: Message -> string)
    ensures DayFold(ms, separator, render).out == Chunks(ms, separator, render)
  {
    if ms != [] {
      var n := |ms| - 1;
      DayFoldIsChunks(ms[..n], separator, render);
      var st := DayFold(ms[..n], separator, render);
      DayFoldDate(ms[..n], separator, render);
      if n > 0 {
        assert ms[..n][n - 1] == ms[n - 1];
      }
      assert StartsDay(ms, n) <==> st.currentDate != Some(DayOf(ms[n].timestamp));
    }
  }

  /** The loop's day is that of the last message so far. */
  lemma DayFoldDate(ms: seq<Message>, separator: Timestamp -> string, render: Message -> string)
    ensures ms == [] ==> DayFold(ms, separator, render).currentDate.None?
    ensures ms != [] ==> DayFold(ms, separator, render).currentDate == Some(DayOf(ms[|ms| - 1].timestamp))
  {
  }

  // ---------------------------------------------------------------------------
  // Plain text

  /** The `[type: ...]` label of a non-text message: its content, else its
      media file's name, else `Media omitted` (the source's `||` chain skips
      empty strings). */
  function MediaLabel(m: Message): (r: string)
    ensures m.content != [] ==> r == "[" + TypeName(m.mtype) + ": " + m.content + "]"
    ensures m.content == [] && m.mediaFile.Some? && m.mediaFile.value.name != [] ==>
              r == "[" + TypeName(m.mtype) + ": " + m.mediaFile.value.name + "]"
    ensures m.content == [] && (m.mediaFile.None? || m.mediaFile.value.name == []) ==>
              r == "[" + TypeName(m.mtype) + ": Media omitted]"
  {
    var shown :=
      if m.content != [] then m.content
      else if m.mediaFile.Some? && m.mediaFile.value.name != [] then m.mediaFile.value.name
      else "Media omitted";
    "[" + TypeName(m.mtype) + ": " + shown + "]"
  }

  /** The text after `sender: ` on an ordinary line. */
  function TxtContent(m: Message, includeMedia: bool): string {
    if m.mediaFile.Some? && includeMedia then m.content + " [Media: " + m.mediaFile.value.name + "]"
    else if m.mtype != Text then MediaLabel(m)
    else m.content
  }

  /** One message's line. */
  function TxtLine(m: Message, clock: string, includeMedia: bool): string {
    match m.mtype
    case System => clock + " - " + m.content + "\n"
    case Deleted => clock + " - " + m.sender + ": [This message was deleted]\n"
    case _ => clock + " - " + m.sender + ": " + TxtContent(m, includeMedia) + "\n"
  }

  function TxtRender(loc: Locale, includeMedia: bool): Message -> string {
    (m: Message) => TxtLine(m, loc.clockText(m.timestamp), includeMedia)
  }

  function TxtDateLine(loc: Locale, t: Timestamp): string {
    "\n[" + loc.dateText(t) + "]\n"
  }

  function TxtSeparator(loc: Locale): Timestamp -> string {
    (t: Timestamp) => TxtDateLine(loc, t)
  }

  /** The title line and a rule of fifty `=`, then a blank line. */
  function TxtHeader(chatName: string): (r: string)
    ensures StartsWith(r, chatName + "\n")
    ensures |r| == |chatName| + 53
    ensures forall i :: |chatName| + 1 <= i < |chatName| + 51 ==> r[i] == '='
    ensures r[|chatName| + 51..] == "\n\n"
  {
    chatName + "\n" + seq(50, _ => '=') + "\n\n"
  }

  predicate NoNewline(s: string) {
    '\n' !in s
  }

  /** A message whose fields hold no line break becomes exactly one line:
      its text ends with the only newline in it. */
  lemma TxtLineIsOneLine(m: Message, clock: string, includeMedia: bool)
    requires NoNewline(clock) && NoNewline(m.sender) && NoNewline(m.content)
    requires m.mediaFile.Some? ==> NoNewline(m.mediaFile.value.name)
    ensures |TxtLine(m, clock, includeMedia)| > 0
    ensures TxtLine(m, clock, includeMedia)[|TxtLine(m, clock, includeMedia)| - 1] == '\n'
    ensures NoNewline(TxtLine(m, clock, includeMedia)[..|TxtLine(m, clock, includeMedia)| - 1])
  {
    var body := TxtLineBody(m, clock, includeMedia);
    assert TxtLine(m, clock, includeMedia) == body + "\n";
    assert (body + "\n")[..|body|] == body;
  }

  /** The line without its newline, free of line breaks when the fields are. */
  function TxtLineBody(m: Message, clock: string, includeMedia: bool): (r: string)
    requires NoNewline(clock) && NoNewline(m.sender) && NoNewline(m.content)
    requires m.mediaFile.Some? ==> NoNewline(m.mediaFile.value.name)
    ensures NoNewline(r) && TxtLine(m, clock, includeMedia) == r + "\n"
  {
    assert NoNewline(TypeName(m.mtype));
    match m.mtype
    case System => clock + " - " + m.content
    case Deleted => clock + " - " + m.sender + ": [This message was deleted]"
    case _ =>
      var c := TxtContent(m, includeMedia);
      assert NoNewline(c);
      clock + " - " + m.sender + ": " + c
  }

  /** Every line starts with the clock text; a system line carries no sender;
      a deleted message shows the fixed notice; an included file is named
      after the content; any other non-text message shows its label; and a
      plain text message without an included file carries its content
      verbatim. */
  lemma TxtLineShape(m: Message, clock: string, includeMedia: bool)
    ensures StartsWith(TxtLine(m, clock, includeMedia), clock + " - ")
    ensures m.mtype == System ==> TxtLine(m, clock, includeMedia) == clock + " - " + m.content + "\n"
    ensures m.mtype == Text && (m.mediaFile.None? || !includeMedia) ==>
              TxtLine(m, clock, includeMedia) == clock + " - " + m.sender + ": " + m.content + "\n"
    ensures m.mtype != System && m.mtype != Deleted && m.mediaFile.Some? && includeMedia ==>
              TxtLine(m, clock, includeMedia)
              == clock + " - " + m.sender + ": " + m.content + " [Media: " + m.mediaFile.value.name + "]\n"
    ensures m.mtype == Deleted ==>
              TxtLine(m, clock, includeMedia) == clock + " - " + m.sender + ": [This message was deleted]\n"
    ensures m.mtype !in {System, Deleted, Text} && !(m.mediaFile.Some? && includeMedia) ==>
              TxtLine(m, clock, includeMedia) == clock + " - " + m.sender + ": " + MediaLabel(m) + "\n"
  {
    var line := TxtLine(m, clock, includeMedia);
    var p := clock + " - ";
    match m.mtype
    case System =>
      assert line == p + (m.content + "\n");
    case Deleted =>
      assert line == p + (m.sender + ": [This message was deleted]\n");
    case _ =>
      assert line == p + (m.sender + ": " + TxtContent(m, includeMedia) + "\n");
  }

  /** `exportToTXT`: the header, then the loop over the selected messages. */
  method ExportToTxt(chat: ChatData, options: ExportOptions, loc: Locale) returns (output: string)
    ensures output == TxtHeader(chat.chatName)
                      + Chunks(Selected(chat.messages, options.selectedIds),
                               TxtSeparator(loc), TxtRender(loc, options.includeMedia))
  {
    var messages := Selected(chat.messages, options.selectedIds);
    output := chat.chatName + "\n";
    output := output + seq(50, _ => '=') + "\n\n";
    var lines := TxtLines(messages, loc, options.includeMedia);
    output := output + lines;
  }

  /** The loop of `exportToTXT`: a date line at each day change, then the
      message's line. */
  method TxtLines(messages: seq<Message>, loc: Locale, includeMedia: bool) returns (output: string)
    ensures output == Chunks(messages, TxtSeparator(loc), TxtRender(loc, includeMedia))
  {
    output := [];
    var currentDate: Option<DayKey> := None;
    var i := 0;
    while i < |messages|
      invariant 0 <= i <= |messages|
      invariant Acc(output, currentDate) == DayFold(messages[..i], TxtSeparator(loc), TxtRender(loc, includeMedia))
    {
      DayFoldNext(messages, i, TxtSeparator(loc), TxtRender(loc, includeMedia));
      output, currentDate := TxtMessage(output, currentDate, messages[i], loc, includeMedia);
      i := i + 1;
    }
    assert messages[..i] == messages;
    DayFoldIsChunks(messages, TxtSeparator(loc), TxtRender(loc, includeMedia));
  }

  /** One turn of that loop. */
  method TxtMessage(output: string, currentDate: Option<DayKey>, msg: Message, loc: Locale, includeMedia: bool)
    returns (output': string, currentDate': Option<DayKey>)
    ensures Acc(output', currentDate')
            == DayStep(Acc(output, currentDate), msg, TxtSeparator(loc), TxtRender(loc, includeMedia))
  {
    output' := output;
    currentDate' := currentDate;
    var msgDate := DayOf(msg.timestamp);
    if Some(msgDate) != currentDate {
      output' := output' + "\n[" + loc.dateText(msg.timestamp) + "]\n";
      currentDate' := Some(msgDate);
    }
    var time := loc.clockText(msg.timestamp);
    output' := output' + TxtLine(msg, time, includeMedia);
  }

  // ---------------------------------------------------------------------------
  // HTML escaping

  /** `s.replace(/c/g, rep)`. */
  function ReplaceChar(s: string, c: char, rep: string): string {
    if s == [] then [] else (if s[0] == c then rep else [s[0]]) + ReplaceChar(s[1..], c, rep)
  }

  /** The four replacements, ampersand first. */
  function EscapeHtml(s: string): string {
    ReplaceChar(ReplaceChar(ReplaceChar(ReplaceChar(s, '&', "&amp;"), '<', "&lt;"), '>', "&gt;"), '\n', "<br>")
  }

  /** What escaping makes of one character. */
  function EscapeChar(c: char): string {
    if c == '&' then "&amp;"
    else if c == '<' then "&lt;"
    else if c == '>' then "&gt;"
    else if c == '\n' then "<br>"
    else [c]
  }

  function EscapeEach(s: string): string {
    if s == [] then [] else EscapeChar(s[0]) + EscapeEach(s[1..])
  }

  lemma {:induction false} ReplaceCharConcat(a: string, b: string, c: char, rep: string)
    ensures ReplaceChar(a + b, c, rep) == ReplaceChar(a, c, rep) + ReplaceChar(b, c, rep)
    decreases |a|
  {
    if a != [] {
      assert (a + b)[1..] == a[1..] + b;
      ReplaceCharConcat(a[1..], b, c, rep);
    } else {
      assert a + b == b;
    }
  }

  lemma {:induction false} ReplaceCharAbsent(s: string, c: char, rep: string)
    requires c !in s
    ensures ReplaceChar(s, c, rep) == s
    decreases |s|
  {
    if s != [] {
      ReplaceCharAbsent(s[1..], c, rep);
    }
  }

  /** Each replacement inserts none of the characters a later one replaces,
      so the chain escapes every character on its own. */
  lemma {:induction false} EscapeIsPerChar(s: string)
    ensures EscapeHtml(s) == EscapeEach(s)
    decreases |s|
  {
    if s != [] {
      var h, t := [s[0]], s[1..];
      assert s == h + t;
      var a1, a2, a3 := ReplaceChar(h, '&', "&amp;"), ReplaceChar(t, '&', "&amp;"), ReplaceChar(s, '&', "&amp;");
      ReplaceCharConcat(h, t, '&', "&amp;");
      var b1, b2 := ReplaceChar(a1, '<', "&lt;"), ReplaceChar(a2, '<', "&lt;");
      ReplaceCharConcat(a1, a2, '<', "&lt;");
      var c1, c2 := ReplaceChar(b1, '>', "&gt;"), ReplaceChar(b2, '>', "&gt;");
      ReplaceCharConcat(b1, b2, '>', "&gt;");
      ReplaceCharConcat(c1, c2, '\n', "<br>");
      EscapeIsPerChar(t);
      EscapeOneChar(s[0]);
    }
  }

  lemma EscapeOneChar(c: char)
    ensures EscapeHtml([c]) == EscapeChar(c)
  {
    ReplaceCharOne(c, '&', "&amp;");
    if c == '&' {
      ChainTail("&amp;", 0);
    } else {
      ReplaceCharOne(c, '<', "&lt;");
      if c == '<' {
        ChainTail("&lt;", 1);
      } else {
        ReplaceCharOne(c, '>', "&gt;");
        if c == '>' {
          ChainTail("&gt;", 2);
        } else {
          ReplaceCharOne(c, '\n', "<br>");
        }
      }
    }
  }

  /** Replacements after stage `k` leave the text stage `k` inserted alone. */
  lemma ChainTail(t: string, k: nat)
    requires k <= 2
    requires k < 1 ==> '<' !in t
    requires k < 2 ==> '>' !in t
    requires '\n' !in t
    ensures k == 0 ==> ReplaceChar(ReplaceChar(ReplaceChar(t, '<', "&lt;"), '>', "&gt;"), '\n', "<br>") == t
    ensures k == 1 ==> ReplaceChar(ReplaceChar(t, '>', "&gt;"), '\n', "<br>") == t
    ensures k == 2 ==> ReplaceChar(t, '\n', "<br>") == t
  {
    if k < 1 { ReplaceCharAbsent(t, '<', "&lt;"); }
    if k < 2 { ReplaceCharAbsent(t, '>', "&gt;"); }
    ReplaceCharAbsent(t, '\n', "<br>");
  }

  lemma ReplaceCharOne(c: char, d: char, rep: string)
    ensures ReplaceChar([c], d, rep) == if c == d then rep else [c]
  {
    assert [c][1..] == [];
    var x := if c == d then rep else [c];
    assert x + [] == x;
  }

  /** The reading a browser gives the escaped text back: the four entities
      and `<br>` become the characters they stand for. */
  function Unescape(s: string): string
    decreases |s|
  {
    if s == [] then []
    else if StartsWith(s, "&amp;") then "&" + Unescape(s[5..])
    else if StartsWith(s, "&lt;") then "<" + Unescape(s[4..])
    else if StartsWith(s, "&gt;") then ">" + Unescape(s[4..])
    else if StartsWith(s, "<br>") then "\n" + Unescape(s[4..])
    else [s[0]] + Unescape(s[1..])
  }

  lemma UnescapeChar(c: char, rest: string)
    ensures Unescape(EscapeChar(c) + rest) == [c] + Unescape(rest)
  {
    if c == '&' {
      UnescapeEntity("&amp;", '&', rest);
    } else if c == '<' {
      UnescapeEntity("&lt;", '<', rest);
    } else if c == '>' {
      UnescapeEntity("&gt;", '>', rest);
    } else if c == '\n' {
      UnescapeEntity("<br>", '\n', rest);
    } else {
      var e := [c] + rest;
      assert e[0] == c && e[1..] == rest;
      assert !StartsWith(e, "&amp;") && !StartsWith(e, "&lt;") by {
        assert "&amp;"[0] == '&' && "&lt;"[0] == '&';
      }
      assert !StartsWith(e, "&gt;") && !StartsWith(e, "<br>") by {
        assert "&gt;"[0] == '&' && "<br>"[0] == '<';
      }
    }
  }

  /** Each of the four escapes reads back as its character. */
  lemma UnescapeEntity(entity: string, c: char, rest: string)
    requires (entity, c) in [("&amp;", '&'), ("&lt;", '<'), ("&gt;", '>'), ("<br>", '\n')]
    ensures Unescape(entity + rest) == [c] + Unescape(rest)
  {
    var e := entity + rest;
    assert e[..|entity|] == entity && e[|entity|..] == rest;
    if entity != "&amp;" {
      assert e[1] == entity[1];
      assert !StartsWith(e, "&amp;") by { assert "&amp;"[1] == 'a'; }
      if entity != "&lt;" {
        assert !StartsWith(e, "&lt;") by { assert "&lt;"[1] == 'l'; }
        if entity != "&gt;" {
          assert !StartsWith(e, "&gt;") by { assert "&gt;"[1] == 'g'; }
        }
      }
    }
  }

  /** Escaping loses nothing: the escaped text reads back as the original. */
  lemma {:induction false} EscapeRoundTrip(s: string)
    ensures Unescape(EscapeHtml(s)) == s
  {
    EscapeIsPerChar(s);
    EscapeEachRoundTrip(s);
  }

  lemma {:induction false} EscapeEachRoundTrip(s: string)
    ensures Unescape(EscapeEach(s)) == s
    decreases |s|
  {
    if s != [] {
      EscapeEachRoundTrip(s[1..]);
      UnescapeChar(s[0], EscapeEach(s[1..]));
      assert s == [s[0]] + s[1..];
    }
  }

  /** Text without the four special characters is left as it is. */
  lemma {:induction false} EscapePlainText(s: string)
    requires '&' !in s && '<' !in s && '>' !in s && '\n' !in s
    ensures EscapeHtml(s) == s
  {
    EscapeIsPerChar(s);
    EscapeEachPlain(s);
  }

  lemma {:induction false} EscapeEachPlain(s: string)
    requires '&' !in s && '<' !in s && '>' !in s && '\n' !in s
    ensures EscapeEach(s) == s
    decreases |s|
  {
    if s != [] {
      var c, t := s[0], s[1..];
      assert s == [c] + t;
      EscapeEachPlain(t);
      assert EscapeChar(c) == [c];
    }
  }

  /** The escaped text holds no raw `>` or newline, and each `<` in it opens
      a `<br>`: no markup of the author's survives. */
  lemma {:induction false} EscapedHasNoMarkup(s: string)
    ensures '\n' !in EscapeHtml(s)
    ensures forall i :: 0 <= i < |EscapeHtml(s)| && EscapeHtml(s)[i] == '<' ==> OccursAt(EscapeHtml(s), "<br>", i)
    ensures forall i :: 0 <= i < |EscapeHtml(s)| && EscapeHtml(s)[i] == '>' ==> i >= 3 && OccursAt(EscapeHtml(s), "<br>", i - 3)
  {
    EscapeIsPerChar(s);
    EscapeEachNoMarkup(s);
  }

  predicate MarkupFree(e: string) {
    && '\n' !in e
    && (forall i :: 0 <= i < |e| && e[i] == '<' ==> OccursAt(e, "<br>", i))
    && (forall i :: 0 <= i < |e| && e[i] == '>' ==> i >= 3 && OccursAt(e, "<br>", i - 3))
  }

  lemma MarkupFreeConcat(a: string, b: string)
    requires MarkupFree(a) && MarkupFree(b)
    ensures MarkupFree(a + b)
  {
    var e := a + b;
    forall i | 0 <= i < |e| && e[i] == '<'
      ensures OccursAt(e, "<br>", i)
    {
      if i < |a| {
        assert OccursAt(a, "<br>", i);
        assert e[i..i + 4] == a[i..i + 4];
      } else {
        assert b[i - |a|] == '<';
        assert OccursAt(b, "<br>", i - |a|);
        assert e[i..i + 4] == b[i - |a|..i - |a| + 4];
      }
    }
    forall i | 0 <= i < |e| && e[i] == '>'
      ensures i >= 3 && OccursAt(e, "<br>", i - 3)
    {
      if i < |a| {
        assert OccursAt(a, "<br>", i - 3);
        assert e[i - 3..i + 1] == a[i - 3..i + 1];
      } else {
        assert b[i - |a|] == '>';
        assert OccursAt(b, "<br>", i - |a| - 3);
        assert e[i - 3..i + 1] == b[i - |a| - 3..i - |a| + 1];
      }
    }
  }

  /** The escape of one character is free of markup. */
  lemma EscapeCharNoMarkup(c: char)
    ensures MarkupFree(EscapeChar(c))
  {
    var e := EscapeChar(c);
    if c == '\n' {
      assert e == "<br>" && e[0..4] == "<br>";
    } else if c == '&' {
      assert e == "&amp;";
    } else if c == '<' {
      assert e == "&lt;";
    } else if c == '>' {
      assert e == "&gt;";
    } else {
      assert e == [c];
    }
  }

  lemma {:induction false} EscapeEachNoMarkup(s: string)
    ensures MarkupFree(EscapeEach(s))
    decreases |s|
  {
    if s != [] {
      EscapeEachNoMarkup(s[1..]);
      EscapeCharNoMarkup(s[0]);
      MarkupFreeConcat(EscapeChar(s[0]), EscapeEach(s[1..]));
    }
  }

  lemma {:induction false} EscapeEachConcat(a: string, b: string)
    ensures EscapeEach(a + b) == EscapeEach(a) + EscapeEach(b)
    decreases |a|
  {
    if a != [] {
      assert (a + b)[1..] == a[1..] + b;
      EscapeEachConcat(a[1..], b);
    } else {
      assert a + b == b;
    }
  }

  /** Escaping the ampersand first is what keeps an entity already in the
      text visible as written: `&lt;` becomes `&amp;lt;`, not `&lt;`. */
  lemma EscapeKeepsEntities(name: string)
    requires '&' !in name && '<' !in name && '>' !in name && '\n' !in name
    ensures EscapeHtml("&" + name + ";") == "&amp;" + name + ";"
  {
    EscapeIsPerChar("&" + name + ";");
    EscapeEachConcat("&" + name, ";");
    EscapeEachConcat("&", name);
    EscapeEachPlain(name);
    assert "&"[1..] == [] && ";"[1..] == [];
  }

  // ---------------------------------------------------------------------------
  // HTML

  /** One message as the HTML export lays it out: the CSS class, the sender
      label, the lines inside the content block and the clock text. */
  datatype HtmlBlock = HtmlBlock(cssClass: string, sender: Option<string>, lines: seq<string>, time: string)

  /** The content lines of an ordinary message. */
  function HtmlContentLines(m: Message, loc: Locale, includeMedia: bool): (r: seq<string>)
    ensures 1 <= |r| && r[0] == EscapeHtml(m.content)
    ensures |r| == 2 <==> (m.mediaFile.Some? && includeMedia) || m.mtype != Text
    // An included file: a picture, a player, or the `[type: name]` label.
    ensures m.mtype == Image && m.mediaFile.Some? && includeMedia && loc.objectUrl(m.mediaFile.value) != [] ==>
              r[1] == "<div class=\"media\"><img src=\"" + loc.objectUrl(m.mediaFile.value)
                            + "\" alt=\"" + m.mediaFile.value.name + "\"></div>"
    ensures m.mtype == Video && m.mediaFile.Some? && includeMedia && loc.objectUrl(m.mediaFile.value) != [] ==>
              r[1] == "<div class=\"media\"><video controls src=\"" + loc.objectUrl(m.mediaFile.value)
                            + "\"></video></div>"
    ensures m.mtype !in {Image, Video} && m.mediaFile.Some? && includeMedia ==>
              r[1] == "<div class=\"media\">[" + TypeName(m.mtype) + ": " + m.mediaFile.value.name + "]</div>"
    ensures m.mtype in {Image, Video} && m.mediaFile.Some? && includeMedia && loc.objectUrl(m.mediaFile.value) == [] ==>
              r[1] == "<div class=\"media\">[" + TypeName(m.mtype) + ": " + m.mediaFile.value.name + "]</div>"
    // No file included: a non-text message shows its label, content unescaped.
    ensures m.mtype != Text && !(m.mediaFile.Some? && includeMedia) ==>
              r[1] == "<div class=\"media\">" + MediaLabel(m) + "</div>"
  {
    var escaped := EscapeHtml(m.content);
    if m.mediaFile.Some? && includeMedia then
      var f := m.mediaFile.value;
      var url := loc.objectUrl(f);
      var media :=
        if m.mtype == Image && url != [] then
          "<div class=\"media\"><img src=\"" + url + "\" alt=\"" + f.name + "\"></div>"
        else if m.mtype == Video && url != [] then
          "<div class=\"media\"><video controls src=\"" + url + "\"></video></div>"
        else "<div class=\"media\">[" + TypeName(m.mtype) + ": " + f.name + "]</div>";
      [escaped, media]
    else if m.mtype != Text then [escaped, "<div class=\"media\">" + MediaLabel(m) + "</div>"]
    else [escaped]
  }

  function HtmlBlockFor(m: Message, loc: Locale, includeMedia: bool): (b: HtmlBlock)
    ensures b.cssClass == "system" <==> m.mtype == System
    ensures b.cssClass == "outgoing" <==> m.mtype != System && m.isOutgoing
    ensures b.cssClass == "incoming" <==> m.mtype != System && !m.isOutgoing
    ensures b.sender.Some? <==> m.mtype != System && !m.isOutgoing
    ensures b.sender.Some? ==> b.sender.value == m.sender
    ensures b.time == loc.clockText(m.timestamp)
    ensures m.mtype == System ==> b.lines == [m.content]
    ensures m.mtype !in {System, Deleted} ==> |b.lines| >= 1 && b.lines[0] == EscapeHtml(m.content)
    ensures m.mtype !in {System, Deleted} ==>
              (|b.lines| == 2 <==> (m.mediaFile.Some? && includeMedia) || m.mtype != Text)
    ensures m.mtype == Deleted ==> b.lines == ["<span class=\"deleted\">This message was deleted</span>"]
    ensures m.mtype !in {System, Deleted} ==> b.lines == HtmlContentLines(m, loc, includeMedia)
  {
    var cls := if m.mtype == System then "system" else if m.isOutgoing then "outgoing" else "incoming";
    var sender := if m.mtype != System && !m.isOutgoing then Some(m.sender) else None;
    var lines :=
      if m.mtype == Deleted then ["<span class=\"deleted\">This message was deleted</span>"]
      else if m.mtype == System then [m.content]
      else HtmlContentLines(m, loc, includeMedia);
    HtmlBlock(cls, sender, lines, loc.clockText(m.timestamp))
  }

  /** A non-text message without an included file shows its content twice:
      escaped on the content line, and as written inside the label line, so
      markup there reaches the page unchanged. */
  lemma HtmlLabelShowsRawContent(m: Message, loc: Locale, includeMedia: bool)
    requires m.mtype !in {System, Deleted, Text} && !(m.mediaFile.Some? && includeMedia) && m.content != []
    ensures HtmlBlockFor(m, loc, includeMedia).lines
            == [EscapeHtml(m.content), "<div class=\"media\">" + "[" + TypeName(m.mtype) + ": " + m.content + "]" + "</div>"]
  {
    var r := HtmlContentLines(m, loc, includeMedia);
    var div, t := "<div class=\"media\">", TypeName(m.mtype);
    assert r[1] == div + ("[" + t + ": " + m.content + "]") + "</div>";
    assert div + ("[" + t + ": " + m.content + "]") == div + "[" + t + ": " + m.content + "]";
    assert r == [r[0], r[1]];
  }

  function IndentedLines(lines: seq<string>): string {
    if lines == [] then [] else "        " + lines[0] + "\n" + IndentedLines(lines[1..])
  }

  function RenderBlock(b: HtmlBlock): string {
    "    <div class=\"message " + b.cssClass + "\">\n"
    + (if b.sender.Some? then "      <div class=\"sender\">" + b.sender.value + "</div>\n" else [])
    + "      <div class=\"content\">\n"
    + IndentedLines(b.lines)
    + "      </div>\n"
    + "      <div class=\"timestamp\">" + b.time + "</div>\n"
    + "    </div>\n"
  }

  function HtmlRender(loc: Locale, includeMedia: bool): Message -> string {
    (m: Message) => RenderBlock(HtmlBlockFor(m, loc, includeMedia))
  }

  function HtmlDateLine(loc: Locale, t: Timestamp): string {
    "    <div class=\"date-separator\">" + loc.dateText(t) + "</div>\n"
  }

  function HtmlSeparator(loc: Locale): Timestamp -> string {
    (t: Timestamp) => HtmlDateLine(loc, t)
  }

  /** The informative part of the page head: the title, the participants
      joined by `, `, the number of exported messages and the optional start
      and end dates. The fixed markup and style sheet around them are not
      modelled. */
  datatype HtmlHead = HtmlHead(title: string, participants: seq<string>, total: nat,
                               startDate: Option<string>, endDate: Option<string>)

  function HeadFor(chat: ChatData, count: nat, loc: Locale): (h: HtmlHead)
    ensures h.total == count && h.title == chat.chatName && h.participants == chat.participants
    ensures h.startDate.Some? <==> chat.startDate.Some?
    ensures h.endDate.Some? <==> chat.endDate.Some?
  {
    HtmlHead(chat.chatName, chat.participants, count,
             if chat.startDate.Some? then Some(loc.dateText(chat.startDate.value)) else None,
             if chat.endDate.Some? then Some(loc.dateText(chat.endDate.value)) else None)
  }

  /** `exportToHTML`: the head, and the body of message blocks built by the
      loop; the fixed markup around both is not modelled. */
  method ExportToHtml(chat: ChatData, options: ExportOptions, loc: Locale) returns (head: HtmlHead, body: string)
    ensures head == HeadFor(chat, |Selected(chat.messages, options.selectedIds)|, loc)
    ensures body == Chunks(Selected(chat.messages, options.selectedIds),
                           HtmlSeparator(loc), HtmlRender(loc, options.includeMedia))
  {
    var messages := Selected(chat.messages, options.selectedIds);
    head := HeadFor(chat, |messages|, loc);
    body := HtmlBlocks(messages, loc, options.includeMedia);
  }

  /** The loop of `exportToHTML`: a separator at each day change, then the
      message's block. */
  method HtmlBlocks(messages: seq<Message>, loc: Locale, includeMedia: bool) returns (html: string)
    ensures html == Chunks(messages, HtmlSeparator(loc), HtmlRender(loc, includeMedia))
  {
    html := [];
    var currentDate: Option<DayKey> := None;
    var i := 0;
    while i < |messages|
      invariant 0 <= i <= |messages|
      invariant Acc(html, currentDate) == DayFold(messages[..i], HtmlSeparator(loc), HtmlRender(loc, includeMedia))
    {
      DayFoldNext(messages, i, HtmlSeparator(loc), HtmlRender(loc, includeMedia));
      html, currentDate := HtmlMessage(html, currentDate, messages[i], loc, includeMedia);
      i := i + 1;
    }
    assert messages[..i] == messages;
    DayFoldIsChunks(messages, HtmlSeparator(loc), HtmlRender(loc, includeMedia));
  }

  /** One turn of that loop. */
  method HtmlMessage(html: string, currentDate: Option<DayKey>, msg: Message, loc: Locale, includeMedia: bool)
    returns (html': string, currentDate': Option<DayKey>)
    ensures Acc(html', currentDate')
            == DayStep(Acc(html, currentDate), msg, HtmlSeparator(loc), HtmlRender(loc, includeMedia))
  {
    html' := html;
    currentDate' := currentDate;
    var msgDate := DayOf(msg.timestamp);
    if Some(msgDate) != currentDate {
      html' := html' + HtmlDateLine(loc, msg.timestamp);
      currentDate' := Some(msgDate);
    }
    html' := html' + RenderBlock(HtmlBlockFor(msg, loc, includeMedia));
  }

  // ---------------------------------------------------------------------------
  // JSON

  datatype JsonMedia = JsonMedia(name: string, mimeType: string, url: string)

  datatype JsonMessage = JsonMessage(
    id: nat, timestamp: Timestamp, sender: string, content: string,
    mtype: string, isOutgoing: bool, mediaFile: Option<JsonMedia>)

  /** The object `exportToJSON` serialises. */
  datatype JsonExport = JsonExport(
    chatName: string, participants: seq<string>,
    startDate: Option<Timestamp>, endDate: Option<Timestamp>,
    messageCount: nat, messages: seq<JsonMessage>)

  function JsonRecord(m: Message, loc: Locale, includeMedia: bool): (r: JsonMessage)
    ensures r.id == m.id && r.timestamp == m.timestamp && r.sender == m.sender
    ensures r.content == m.content && r.mtype == TypeName(m.mtype) && r.isOutgoing == m.isOutgoing
    ensures r.mediaFile.Some? <==> includeMedia && m.mediaFile.Some?
    ensures r.mediaFile.Some? ==>
              r.mediaFile.value.name == m.mediaFile.value.name
              && r.mediaFile.value.mimeType == m.mediaFile.value.mimeType
  {
    JsonMessage(m.id, m.timestamp, m.sender, m.content, TypeName(m.mtype), m.isOutgoing,
                if includeMedia && m.mediaFile.Some? then
                  Some(JsonMedia(m.mediaFile.value.name, m.mediaFile.value.mimeType, loc.objectUrl(m.mediaFile.value)))
                else None)
  }

  /** `exportToJSON`, before serialisation: one record per selected message,
      in order, and a count that is the number of records. */
  function ExportToJson(chat: ChatData, options: ExportOptions, loc: Locale): (r: JsonExport)
    ensures r.chatName == chat.chatName && r.participants == chat.participants
    ensures r.startDate == chat.startDate && r.endDate == chat.endDate
    ensures r.messageCount == |r.messages| == |Selected(chat.messages, options.selectedIds)|
    ensures forall i :: 0 <= i < |r.messages| ==>
              r.messages[i] == JsonRecord(Selected(chat.messages, options.selectedIds)[i], loc, options.includeMedia)
  {
    var ms := Selected(chat.messages, options.selectedIds);
    JsonExport(chat.chatName, chat.participants, chat.startDate, chat.endDate, |ms|,
               seq(|ms|, i requires 0 <= i < |ms| => JsonRecord(ms[i], loc, options.includeMedia)))
  }

  /** Each record's type reads back as the message's kind. */
  lemma JsonTypeFaithful(chat: ChatData, options: ExportOptions, loc: Locale, i: nat)
    requires i < |Selected(chat.messages, options.selectedIds)|
    ensures forall t :: (ExportToJson(chat, options, loc).messages[i].mtype == TypeName(t)
                         <==> t == Selected(chat.messages, options.selectedIds)[i].mtype)
  {
    var m := Selected(chat.messages, options.selectedIds)[i];
    forall t | ExportToJson(chat, options, loc).messages[i].mtype == TypeName(t)
      ensures t == m.mtype
    {
      TypeNameInjective(t, m.mtype);
    }
  }

  // ---------------------------------------------------------------------------
  // The zip download

  /** The media file names the messages refer to, in message order. */
  function MediaNames(ms: seq<Message>): (r: seq<string>)
    ensures forall n :: n in r <==> exists m :: m in ms && m.mediaFile.Some? && m.mediaFile.value.name == n
  {
    if ms == [] then []
    else
      var m := ms[|ms| - 1];
      assert forall x :: x in ms <==> x in ms[..|ms| - 1] || x == m;
      MediaNames(ms[..|ms| - 1]) + (if m.mediaFile.Some? then [m.mediaFile.value.name] else [])
  }

  /** The files fetched from the map for the collected names, in order. */
  function Bundled(names: seq<string>, media: MediaMap): (r: seq<MediaFile>)
    ensures forall f :: f in r ==> f in media && f.name in names
    ensures forall n :: n in names && MapGet(media, n).Some? ==> MapGet(media, n).value in r
  {
    if names == [] then []
    else
      var n := names[|names| - 1];
      var rest := Bundled(names[..|names| - 1], media);
      assert forall x :: x in names <==> x in names[..|names| - 1] || x == n;
      rest + (if MapGet(media, n).Some? then [MapGet(media, n).value] else [])
  }

  lemma {:induction false} BundledDistinct(names: seq<string>, media: MediaMap)
    requires AllDistinct(names)
    ensures forall i, j :: 0 <= i < j < |Bundled(names, media)| ==>
              Bundled(names, media)[i].name != Bundled(names, media)[j].name
  {
    if names != [] {
      var n := names[|names| - 1];
      var init := names[..|names| - 1];
      assert forall i, j :: 0 <= i < j < |init| ==> init[i] != init[j] by {
        forall i, j | 0 <= i < j < |init| ensures init[i] != init[j] {
          assert init[i] == names[i] && init[j] == names[j];
        }
      }
      BundledDistinct(init, media);
      assert n !in init;
      var rest := Bundled(init, media);
      assert forall f :: f in rest ==> f.name != n;
    }
  }

  datatype ZipEntry = ZipEntry(path: string, data: string)

  /** `name` ends in `ext` (a lower-case literal) ignoring ASCII case. */
  predicate HasExt(name: string, ext: string) {
    EndsWith(LowerStr(name), ext)
  }

  lemma ExtChar(name: string, ext: string, k: nat)
    requires 1 <= k <= |ext|
    ensures HasExt(name, ext) ==> LowerStr(name)[|name| - k] == ext[|ext| - k]
  {
    if HasExt(name, ext) {
      var l := LowerStr(name);
      assert l[|l| - |ext|..][|ext| - k] == l[|name| - k];
    }
  }

  /** At most one of the four extensions ends a name. */
  lemma ExtsExclusive(name: string)
    ensures HasExt(name, ".txt") ==> !HasExt(name, ".json") && !HasExt(name, ".html") && !HasExt(name, ".pdf")
    ensures HasExt(name, ".json") ==> !HasExt(name, ".html") && !HasExt(name, ".pdf")
    ensures HasExt(name, ".html") ==> !HasExt(name, ".pdf")
  {
    ExtChar(name, ".txt", 4);
    ExtChar(name, ".txt", 3);
    ExtChar(name, ".json", 4);
    ExtChar(name, ".html", 4);
    ExtChar(name, ".pdf", 4);
    ExtChar(name, ".pdf", 3);
  }

  /** A name made of a stem and a lower-case extension has that extension. */
  lemma HasOwnExt(stem: string, ext: string)
    requires forall i :: 0 <= i < |ext| ==> !('A' <= ext[i] <= 'Z')
    ensures HasExt(stem + ext, ext)
  {
    var s := stem + ext;
    var l := LowerStr(s);
    forall i | 0 <= i < |ext|
      ensures l[|stem| + i] == ext[i]
    {
      assert s[|stem| + i] == ext[i];
    }
    assert l[|s| - |ext|..] == ext;
  }

  /** The name the zip is saved under: a final `.txt`, `.json`, `.html` or
      `.pdf`, in any ASCII case, becomes `.zip`; any other name is kept. */
  function ZipName(exportName: string): (r: string)
    ensures HasExt(exportName, ".txt") ==> r == exportName[..|exportName| - 4] + ".zip"
    ensures HasExt(exportName, ".json") ==> r == exportName[..|exportName| - 5] + ".zip"
    ensures HasExt(exportName, ".html") ==> r == exportName[..|exportName| - 5] + ".zip"
    ensures HasExt(exportName, ".pdf") ==> r == exportName[..|exportName| - 4] + ".zip"
    ensures (!HasExt(exportName, ".txt") && !HasExt(exportName, ".json")
             && !HasExt(exportName, ".html") && !HasExt(exportName, ".pdf")) ==> r == exportName
  {
    ExtsExclusive(exportName);
    var n := |exportName|;
    if HasExt(exportName, ".txt") || HasExt(exportName, ".pdf") then
      exportName[..n - 4] + ".zip"
    else if HasExt(exportName, ".json") || HasExt(exportName, ".html") then
      exportName[..n - 5] + ".zip"
    else exportName
  }

  /** The export names the viewer passes, `<stem>.txt`, `<stem>.json` and
      `<stem>.html` (and `<stem>.pdf`), give `<stem>.zip`. */
  lemma ZipNameOfExport(stem: string, ext: string)
    requires ext == ".txt" || ext == ".json" || ext == ".html" || ext == ".pdf"
    ensures ZipName(stem + ext) == stem + ".zip"
  {
    var s := stem + ext;
    assert s[..|stem|] == stem;
    HasOwnExt(stem, ext);
    assert HasExt(s, ext) && |s| - |ext| == |stem|;
  }

  /** `downloadZipFile`: the export file, then every distinct media name any
      message refers to (in first-reference order) whose file the map holds. */
  method DownloadZip(chat: ChatData, exportContent: string, exportName: string)
    returns (zipName: string, entries: seq<ZipEntry>)
    ensures zipName == ZipName(exportName)
    ensures entries == [ZipEntry(exportName, exportContent)]
                       + EntriesOf(Bundled(Distinct(MediaNames(chat.messages)), chat.mediaFiles))
  {
    var names := CollectMediaNames(chat.messages);
    var files := FetchMedia(names, chat.mediaFiles);
    entries := [ZipEntry(exportName, exportContent)] + EntriesOf(files);
    zipName := ZipName(exportName);
  }

  /** The zip entry of each file, under its name. */
  function EntriesOf(files: seq<MediaFile>): (r: seq<ZipEntry>)
    ensures |r| == |files|
    ensures forall i :: 0 <= i < |files| ==> r[i] == ZipEntry(files[i].name, files[i].data)
  {
    seq(|files|, i requires 0 <= i < |files| => ZipEntry(files[i].name, files[i].data))
  }

  /** The first loop of `downloadZipFile`: the `Set` of media names. */
  method CollectMediaNames(messages: seq<Message>) returns (names: seq<string>)
    ensures names == Distinct(MediaNames(messages))
  {
    names := [];
    var i := 0;
    while i < |messages|
      invariant 0 <= i <= |messages|
      invariant names == Distinct(MediaNames(messages[..i]))
    {
      var prefix := messages[..i + 1];
      assert prefix[..i] == messages[..i];
      var msg := messages[i];
      if msg.mediaFile.Some? {
        var t := MediaNames(prefix);
        assert t == MediaNames(messages[..i]) + [msg.mediaFile.value.name];
        assert t[..|t| - 1] == MediaNames(messages[..i]);
        if msg.mediaFile.value.name !in names {
          names := names + [msg.mediaFile.value.name];
        }
      } else {
        assert MediaNames(prefix) == MediaNames(messages[..i]);
      }
      i := i + 1;
    }
    assert messages[..i] == messages;
  }

  /** The second loop: the files the map holds for those names. */
  method FetchMedia(names: seq<string>, media: MediaMap) returns (files: seq<MediaFile>)
    ensures files == Bundled(names, media)
  {
    files := [];
    var j := 0;
    while j < |names|
      invariant 0 <= j <= |names|
      invariant files == Bundled(names[..j], media)
    {
      assert names[..j + 1][..j] == names[..j];
      var mediaFile := MapGet(media, names[j]);
      if mediaFile.Some? {
        files := files + [mediaFile.value];
      }
      j := j + 1;
    }
    assert names[..j] == names;
  }

  /** The zip holds no two media entries under one path, only files the map
      holds and some message refers to, and every such file. */
  lemma BundleProperties(chat: ChatData, f: MediaFile)
    ensures var b := Bundled(Distinct(MediaNames(chat.messages)), chat.mediaFiles);
            forall i, j :: 0 <= i < j < |b| ==> b[i].name != b[j].name
    ensures var b := Bundled(Distinct(MediaNames(chat.messages)), chat.mediaFiles);
            f in b ==> f in chat.mediaFiles
                       && exists m :: m in chat.messages && m.mediaFile.Some? && m.mediaFile.value.name == f.name
    ensures var b := Bundled(Distinct(MediaNames(chat.messages)), chat.mediaFiles);
            ((exists m :: m in chat.messages && m.mediaFile.Some? && m.mediaFile.value.name == f.name)
             && MapGet(chat.mediaFiles, f.name) == Some(f)) ==> f in b
  {
    var names := Distinct(MediaNames(chat.messages));
    BundledDistinct(names, chat.mediaFiles);
    if (exists m :: m in chat.messages && m.mediaFile.Some? && m.mediaFile.value.name == f.name) {
      assert f.name in MediaNames(chat.messages);
      assert f.name in names;
    }
  }
}
