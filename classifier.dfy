/** How src/lib/parser/whatsapp-parser.ts classifies the body of a message:
    the phrase lists, the attached-media markers, the bare file names and the
    lookup of a referenced file among the archive's media. Every regular
    expression there carries the `i` flag; phrases are kept here in lower case
    and compared with the lower-cased text. */
module Classifier {
  import opened Options
  import opened Strings
  import opened ChatTypes
  import opened Sequences

  /** `s`, lower-cased, contains the lower-case phrase `p`. */
  predicate HasPhrase(s: string, p: string) {
    Contains(LowerStr(s), p)
  }

  predicate HasAnyPhrase(s: string, ps: seq<string>) {
    exists i :: 0 <= i < |ps| && HasPhrase(s, ps[i])
  }

  const DeletedPhrases: seq<string> :=
    ["this message was deleted", "you deleted this message", "message deleted"]

  const OmittedPhrases: seq<string> :=
    ["image omitted", "video omitted", "audio omitted", "sticker omitted", "document omitted", "gif omitted"]

  const SystemIndicators: seq<string> :=
    ["messages and calls are end-to-end encrypted", "created group", "added", "left", "removed",
     "changed the subject", "changed this group", "changed the group", "security code changed"]

  /** `isSystemMessage`: one of the system indicators occurs in the body. */
  predicate IsSystemMessage(content: string) {
    HasAnyPhrase(content, SystemIndicators)
  }

  // ---------------------------------------------------------------------------
  // Omitted media

  /** The keyword cascade run once an omission phrase is found: image, sticker
      or GIF first, then video, audio and document. */
  function OmittedKind(content: string): (r: Option<MessageType>)
    requires HasAnyPhrase(content, OmittedPhrases)
    ensures r.Some? && IsMediaType(r.value)
    ensures r == Some(Image) <==>
              HasPhrase(content, "image") || HasPhrase(content, "sticker") || HasPhrase(content, "gif")
  {
    if HasPhrase(content, "image") || HasPhrase(content, "sticker") || HasPhrase(content, "gif") then Some(Image)
    else if HasPhrase(content, "video") then Some(Video)
    else if HasPhrase(content, "audio") then Some(Audio)
    else if HasPhrase(content, "document") then Some(Document)
    else
      assert false by { OmissionHasKeyword(content); }
      None
  }

  /** Every omission phrase contains one of the cascade's keywords, so the
      cascade never falls through to the checks that follow it. */
  lemma OmissionHasKeyword(content: string)
    requires HasAnyPhrase(content, OmittedPhrases)
    ensures HasPhrase(content, "image") || HasPhrase(content, "sticker") || HasPhrase(content, "gif")
         || HasPhrase(content, "video") || HasPhrase(content, "audio") || HasPhrase(content, "document")
  {
    var i :| 0 <= i < |OmittedPhrases| && HasPhrase(content, OmittedPhrases[i]);
    var t := LowerStr(content);
    if i == 0 { ContainsPrefix(t, "image omitted", "image"); }
    else if i == 1 { ContainsPrefix(t, "video omitted", "video"); }
    else if i == 2 { ContainsPrefix(t, "audio omitted", "audio"); }
    else if i == 3 { ContainsPrefix(t, "sticker omitted", "sticker"); }
    else if i == 4 { ContainsPrefix(t, "document omitted", "document"); }
    else { ContainsPrefix(t, "gif omitted", "gif"); }
  }

  /** A text that contains `p` contains every prefix of `p`. */
  lemma ContainsPrefix(t: string, p: string, q: string)
    requires Contains(t, p) && StartsWith(p, q)
    ensures Contains(t, q)
  {
    var i := IndexOf(t, p).value;
    assert OccursAt(t, p, i);
    assert t[i..i + |q|] == t[i..i + |p|][..|q|];
    assert OccursAt(t, q, i);
    ContainsIff(t, q);
  }

  // ---------------------------------------------------------------------------
  // Extension lists

  /** The extensions of MEDIA_FILE_PATTERNS, family by family. */
  function FileExtensions(t: MessageType): seq<string> {
    match t
    case Image => ["jpg", "jpeg", "png", "gif", "webp"]
    case Video => ["mp4", "mov", "avi", "mkv", "3gp"]
    case Audio => ["opus", "ogg", "mp3", "m4a", "wav", "aac", "ptt"]
    case Document => ["pdf", "doc", "docx", "xls", "xlsx", "ppt", "pptx", "txt", "zip"]
    case _ => []
  }

  /** The extensions of MEDIA_PATTERNS (`<attached: ...>`): the file lists
      without `ptt`. */
  function AttachedExtensions(t: MessageType): (r: seq<string>)
    ensures forall e :: e in r ==> e in FileExtensions(t)
  {
    match t
    case Audio => ["opus", "ogg", "mp3", "m4a", "wav", "aac"]
    case _ => FileExtensions(t)
  }

  /** The alternation of the bare file-name expression, in its order. */
  const BareExtensions: seq<string> :=
    ["jpg", "jpeg", "png", "gif", "webp", "mp4", "mov", "avi", "opus", "ogg", "mp3", "m4a", "pdf", "doc", "docx"]

  /** MEDIA_PATTERNS in its iteration order: each family with the extensions
      of its `<attached: ...>` expression. */
  const MediaPatterns: seq<(MessageType, seq<string>)> :=
    [(Image, AttachedExtensions(Image)), (Video, AttachedExtensions(Video)),
     (Audio, AttachedExtensions(Audio)), (Document, AttachedExtensions(Document))]

  /** The index of the last `c` in `s`. */
  function LastIndexOf(s: string, c: char): (r: Option<nat>)
    ensures r.Some? ==> r.value < |s| && s[r.value] == c && c !in s[r.value + 1..]
    ensures r.None? ==> c !in s
  {
    if s == [] then None
    else if s[|s| - 1] == c then Some(|s| - 1)
    else
      var r := LastIndexOf(s[..|s| - 1], c);
      if r.Some? then
        assert s[r.value + 1..] == s[..|s| - 1][r.value + 1..] + [s[|s| - 1]];
        r
      else
        assert s == s[..|s| - 1] + [s[|s| - 1]];
        r
  }

  /** `name` ends with a dot and an extension of `exts`, ignoring case, and
      has at least one character before that dot. */
  predicate EndsWithExtension(name: string, exts: seq<string>) {
    exists k :: 0 < k < |name| && name[k] == '.' && LowerStr(name[k + 1..]) in exts
  }

  // ---------------------------------------------------------------------------
  // `<attached: name.ext>`

  /** Where the capture of `<attached:\s*([^>]+\.(ext...))>` lies when the
      marker's colon ends at `q`, as the bounds of `s[a..g]`: `\s*` takes
      every blank, `[^>]+` runs to the first `>`, and the text up to that `>`
      must end in `.ext`; when the dot is the first character after the
      blanks, `\s*` gives one blank back to `[^>]+`. */
  function AttachedCapture(s: string, q: nat, exts: seq<string>): (r: Option<(nat, nat)>)
    requires q <= |s|
    ensures r.Some? ==> q <= r.value.0 <= r.value.1 < |s| && s[r.value.1] == '>'
    ensures r.Some? ==> EndsWithExtension(s[r.value.0..r.value.1], exts) && '>' !in s[r.value.0..r.value.1]
  {
    var w := SpaceRun(s, q);
    match IndexOfFrom(s, ">", w)
    case None => None
    case Some(g) =>
      var region := s[w..g];
      FirstClose(s, w, g);
      match LastIndexOf(region, '.')
      case None => None
      case Some(k) =>
        if LowerStr(region[k + 1..]) !in exts then None
        else if k > 0 then
          ExtensionAt(region, k, exts);
          Some((w, g))
        else if w > q then
          WidenCapture(s, w, g, exts);
          Some((w - 1, g))
        else None
  }

  /** A dot at `k`, not first, followed by a listed extension ends the name
      with that extension. */
  lemma ExtensionAt(name: string, k: nat, exts: seq<string>)
    requires 0 < k < |name| && name[k] == '.' && LowerStr(name[k + 1..]) in exts
    ensures EndsWithExtension(name, exts)
  {
  }

  /** A capture whose dot comes first takes back the blank before it. */
  lemma WidenCapture(s: string, w: nat, g: nat, exts: seq<string>)
    requires 0 < w < g < |s| && s[w..g][0] == '.' && LowerStr(s[w..g][1..]) in exts
    requires '>' !in s[w..g] && IsSpace(s[w - 1])
    ensures EndsWithExtension(s[w - 1..g], exts) && '>' !in s[w - 1..g]
  {
    var r := s[w - 1..g];
    assert r[1..] == s[w..g] && r[2..] == s[w..g][1..];
  }

  /** The first `>` from `w` closes a text free of `>`. */
  lemma FirstClose(s: string, w: nat, g: nat)
    requires IndexOfFrom(s, ">", w) == Some(g)
    ensures w <= g < |s| && s[g] == '>' && '>' !in s[w..g]
  {
    assert OccursAt(s, ">", g) && s[g..g + 1] == [s[g]];
    forall j | w <= j < g ensures s[j] != '>' {
      assert !OccursAt(s, ">", j);
      assert s[j..j + 1] == [s[j]];
    }
  }

  /** Only blanks lie between the marker's colon and the capture. */
  lemma CaptureAfterBlanks(s: string, q: nat, exts: seq<string>)
    requires q <= |s| && AttachedCapture(s, q, exts).Some?
    ensures forall j :: q <= j < AttachedCapture(s, q, exts).value.0 ==> IsSpace(s[j])
  {
  }

  /** The match of one family's attached-media expression that starts at `k`:
      `<attached:` in any case, then the capture. */
  function AttachedAt(s: string, exts: seq<string>, k: nat): (r: Option<(nat, nat)>)
    requires k <= |s|
    ensures r.Some? ==> k + 10 <= |s| && LowerStr(s[k..k + 10]) == "<attached:"
    ensures r.Some? ==> k + 10 <= r.value.0 <= r.value.1 < |s|
  {
    if k + 10 <= |s| && LowerStr(s[k..k + 10]) == "<attached:" then AttachedCapture(s, k + 10, exts) else None
  }

  /** Where the leftmost match of one family's attached-media expression at
      or after `p` starts: the first `<attached:` (in any case) whose capture
      succeeds, and none when no start index gives a match. */
  function AttachedFrom(s: string, exts: seq<string>, p: nat): (r: Option<nat>)
    requires p <= |s|
    ensures r.Some? ==> p <= r.value <= |s| && AttachedAt(s, exts, r.value).Some?
    ensures r.Some? ==> forall j :: p <= j < r.value ==> AttachedAt(s, exts, j).None?
    ensures r.None? ==> forall j :: p <= j <= |s| ==> AttachedAt(s, exts, j).None?
    decreases |s| - p
  {
    if p + 10 > |s| then None
    else if AttachedAt(s, exts, p).Some? then Some(p)
    else AttachedFrom(s, exts, p + 1)
  }

  /** `content.match(pattern)[1]`: the capture of the leftmost match, when
      there is one. */
  function AttachedName(s: string, exts: seq<string>): (r: Option<string>)
    ensures r.Some? <==> AttachedFrom(s, exts, 0).Some?
    ensures r.Some? ==> EndsWithExtension(r.value, exts) && '>' !in r.value
  {
    match AttachedFrom(s, exts, 0)
    case None => None
    case Some(k) =>
      var (a, g) := AttachedAt(s, exts, k).value;
      Some(s[a..g])
  }

  /** The capture is text of `content` that follows an `<attached:` marker
      and blanks only, and is closed by a `>`. */
  lemma AttachedNameOccurs(s: string, exts: seq<string>)
    ensures var r := AttachedName(s, exts);
            r.Some? ==> exists k, a :: k + 10 <= a && OccursAt(LowerStr(s), "<attached:", k)
                                   && OccursAt(s, r.value + ">", a) && forall j :: k + 10 <= j < a ==> IsSpace(s[j])
  {
    var r := AttachedName(s, exts);
    if r.Some? {
      var k := AttachedFrom(s, exts, 0).value;
      var (a, g) := AttachedAt(s, exts, k).value;
      CaptureAfterBlanks(s, k + 10, exts);
      LowerSlice(s, k, k + 10);
      ClosedText(s, a, g);
      assert r.value == s[a..g];
      assert OccursAt(LowerStr(s), "<attached:", k);
      assert OccursAt(s, r.value + ">", a);
    }
  }

  /** Lower-casing commutes with slicing. */
  lemma LowerSlice(s: string, i: nat, j: nat)
    requires i <= j <= |s|
    ensures LowerStr(s[i..j]) == LowerStr(s)[i..j]
  {
  }

  /** Text closed by a `>` occurs, with that `>`, where it starts. */
  lemma ClosedText(s: string, a: nat, g: nat)
    requires a <= g < |s| && s[g] == '>'
    ensures OccursAt(s, s[a..g] + ">", a)
  {
    assert s[a..g + 1] == s[a..g] + ">";
  }

  /** What each pattern of a list gives on `content`: where the leftmost
      match of its expression starts, if anywhere. */
  function PatternMatches(content: string, pats: seq<(MessageType, seq<string>)>): (r: seq<Option<nat>>)
    ensures |r| == |pats|
    ensures forall j :: 0 <= j < |pats| ==> r[j] == AttachedFrom(content, pats[j].1, 0)
  {
    seq(|pats|, j requires 0 <= j < |pats| => AttachedFrom(content, pats[j].1, 0))
  }

  /** The MEDIA_PATTERNS loop from the pattern at index `i` on: the index of
      the first pattern, in list order, whose match succeeded. */
  function AttachedMedia(results: seq<Option<nat>>, i: nat): (r: Option<nat>)
    requires i <= |results|
    ensures r.Some? ==> i <= r.value < |results| && results[r.value].Some?
    ensures r.Some? ==> forall j :: i <= j < r.value ==> results[j].None?
    ensures r.None? ==> forall j :: i <= j < |results| ==> results[j].None?
    decreases |results| - i
  {
    if i == |results| then None
    else if results[i].Some? then Some(i)
    else AttachedMedia(results, i + 1)
  }

  // ---------------------------------------------------------------------------
  // Bare file names: `([A-Z0-9-]+\.(jpg|...|docx))` with the `i` flag

  predicate IsNameChar(c: char) {
    IsAsciiLetter(c) || IsDigit(c) || c == '-'
  }

  /** The end of the run of name characters from `i`. */
  function NameRun(s: string, i: nat): (j: nat)
    requires i <= |s|
    ensures i <= j <= |s|
    ensures forall k :: i <= k < j ==> IsNameChar(s[k])
    ensures j == |s| || !IsNameChar(s[j])
    decreases |s| - i
  {
    if i < |s| && IsNameChar(s[i]) then NameRun(s, i + 1) else i
  }

  /** The first alternative of `exts`, in order, that the text from `i` starts
      with, ignoring case: its index in `exts`. */
  function FirstExtensionAt(s: string, i: nat, exts: seq<string>): (r: Option<nat>)
    requires i <= |s|
    ensures r.Some? ==> r.value < |exts| && StartsWith(LowerStr(s[i..]), exts[r.value])
    ensures r.Some? ==> forall j :: 0 <= j < r.value ==> !StartsWith(LowerStr(s[i..]), exts[j])
    ensures r.None? ==> forall j :: 0 <= j < |exts| ==> !StartsWith(LowerStr(s[i..]), exts[j])
  {
    FirstIndex(exts, (e: string) => StartsWith(LowerStr(s[i..]), e))
  }

  /** Lower-casing commutes with taking a prefix. */
  lemma LowerPrefix(t: string, n: nat)
    requires n <= |t|
    ensures LowerStr(t[..n]) == LowerStr(t)[..n]
  {
  }

  /** Where the match of the bare file-name expression with alternatives
      `exts` that starts at `k` ends. `+` takes the whole run of name characters (none of them is a
      dot, so no shorter run can be followed by one), then the dot, then the
      first alternative in list order that follows it. So a match exists
      exactly when a non-empty run ending at the maximal end `NameRun` gives
      is followed by a dot and a listed extension. */
  function BareNameEnd(s: string, k: nat, exts: seq<string>): (r: Option<nat>)
    requires k <= |s|
    ensures r.Some? <==> k < NameRun(s, k) < |s| && s[NameRun(s, k)] == '.'
                         && FirstExtensionAt(s, NameRun(s, k) + 1, exts).Some?
    ensures r.Some? ==>
              r.value <= |s|
              && r.value == NameRun(s, k) + 1 + |exts[FirstExtensionAt(s, NameRun(s, k) + 1, exts).value]|
  {
    if k < |s| && IsNameChar(s[k]) then
      var e := NameRun(s, k);
      if e < |s| && s[e] == '.' then
        match FirstExtensionAt(s, e + 1, exts)
        case Some(x) => Some(e + 1 + |exts[x]|)
        case None => None
      else None
    else None
  }

  /** The bare file name that starts at `k`: the text up to the end above.
      It occurs in the text there, is made of name characters and dots, and
      ends with one of the listed extensions. */
  function BareNameAt(s: string, k: nat): (r: Option<string>)
    requires k <= |s|
    ensures r.Some? <==> BareNameEnd(s, k, BareExtensions).Some?
    ensures r.Some? ==> r.value == s[k..BareNameEnd(s, k, BareExtensions).value]
    ensures r.Some? ==> OccursAt(s, r.value, k)
    ensures r.Some? ==> EndsWithExtension(r.value, BareExtensions)
    ensures r.Some? ==> forall i :: 0 <= i < |r.value| ==> IsNameChar(r.value[i]) || r.value[i] == '.'
  {
    match BareNameEnd(s, k, BareExtensions)
    case Some(n) =>
      BareExtensionsAlnum();
      BareNameShape(s, k, BareExtensions);
      Some(s[k..n])
    case None => None
  }

  /** The first alternative wins over a longer one: in `report.docx` the
      name ends after `doc`, which comes before `docx` in the list. */
  lemma BareNameDocxExample()
    ensures BareNameAt("report.docx", 0) == Some("report.doc")
  {
    DocxEnd();
    assert "report.docx"[0..10] == "report.doc";
  }

  lemma DocxEnd()
    ensures BareNameEnd("report.docx", 0, BareExtensions) == Some(10)
  {
    DocxRun();
    DocxFirstExtension();
    assert "report.docx"[6] == '.' && |BareExtensions[13]| == 3;
  }

  lemma DocxRun()
    ensures NameRun("report.docx", 0) == 6
  {
    var s := "report.docx";
    assert NameRun(s, 6) == 6;
  }

  /** `doc` is the first alternative that fits `docx`. */
  lemma DocxFirstExtension()
    ensures FirstExtensionAt("report.docx", 7, BareExtensions) == Some(13)
  {
    var s := "report.docx";
    var l := LowerStr(s[7..]);
    assert s[7..] == "docx";
    assert |l| == 4 && l[0] == 'd' && l[1] == 'o' && l[2] == 'c';
    assert l[..3] == BareExtensions[13];
    forall j | 0 <= j < 13 ensures !StartsWith(l, BareExtensions[j]) {
      NoEarlierDocAlternative(j);
      DifferentFirstChar(l, BareExtensions[j]);
    }
    FirstExtensionAtIs(s, 7, BareExtensions, 13);
  }

  /** No alternative before `doc` starts with `d`. */
  lemma NoEarlierDocAlternative(j: nat)
    requires j < 13
    ensures 0 < |BareExtensions[j]| && BareExtensions[j][0] != 'd'
  {
  }

  /** The alternative that fits and follows only misfits is the first. */
  lemma FirstExtensionAtIs(s: string, i: nat, exts: seq<string>, x: nat)
    requires i <= |s| && x < |exts| && StartsWith(LowerStr(s[i..]), exts[x])
    requires forall j :: 0 <= j < x ==> !StartsWith(LowerStr(s[i..]), exts[j])
    ensures FirstExtensionAt(s, i, exts) == Some(x)
  {
  }

  /** A text does not start with a word whose first character it lacks. */
  lemma DifferentFirstChar(t: string, w: string)
    requires 0 < |t| && 0 < |w| && t[0] != w[0]
    ensures !StartsWith(t, w)
  {
    if |w| <= |t| {
      assert t[..|w|][0] == t[0];
    }
  }

  /** The leftmost bare file name at or after `p`, and none when no start
      index gives one. */
  function BareNameFrom(s: string, p: nat): (r: Option<string>)
    requires p <= |s|
    ensures r.Some? ==> EndsWithExtension(r.value, BareExtensions)
    ensures r.Some? ==> exists k :: p <= k <= |s| && BareNameAt(s, k) == r
                                  && forall j :: p <= j < k ==> BareNameAt(s, j).None?
    ensures r.None? ==> forall j :: p <= j <= |s| ==> BareNameAt(s, j).None?
    decreases |s| - p
  {
    if p == |s| then None
    else if BareNameAt(s, p).Some? then BareNameAt(s, p)
    else BareNameFrom(s, p + 1)
  }

  /** Words made of lower-case letters and digits only. */
  predicate AlnumWords(words: seq<string>) {
    forall i, k :: 0 <= i < |words| && 0 <= k < |words[i]| ==> IsAsciiLetter(words[i][k]) || IsDigit(words[i][k])
  }

  /** The text up to the end of a bare-name match is a name of name
      characters and dots with a listed extension. */
  lemma BareNameShape(s: string, k: nat, exts: seq<string>)
    requires AlnumWords(exts)
    requires k <= |s| && BareNameEnd(s, k, exts).Some?
    ensures var name := s[k..BareNameEnd(s, k, exts).value];
            && OccursAt(s, name, k)
            && EndsWithExtension(name, exts)
            && forall i :: 0 <= i < |name| ==> IsNameChar(name[i]) || name[i] == '.'
  {
    var e := NameRun(s, k);
    var x := FirstExtensionAt(s, e + 1, exts).value;
    var n := BareNameEnd(s, k, exts).value;
    assert n == e + 1 + |exts[x]|;
    BareNameParts(s, k, e, x, exts);
    assert s[k..n] == s[k..e + 1 + |exts[x]|];
  }

  /** A run of name characters from `p` to the dot at `e`, followed by the
      extension `x`, is a name of name characters and dots with that extension. */
  lemma BareNameParts(s: string, p: nat, e: nat, x: nat, exts: seq<string>)
    requires AlnumWords(exts)
    requires p < e < |s| && s[e] == '.' && forall k :: p <= k < e ==> IsNameChar(s[k])
    requires x < |exts| && StartsWith(LowerStr(s[e + 1..]), exts[x])
    ensures e + 1 + |exts[x]| <= |s|
    ensures var name := s[p..e + 1 + |exts[x]|];
            && OccursAt(s, name, p)
            && EndsWithExtension(name, exts)
            && forall k :: 0 <= k < |name| ==> IsNameChar(name[k]) || name[k] == '.'
  {
    var n := |exts[x]|;
    LowerPrefix(s[e + 1..], n);
    assert s[e + 1..][..n] == s[e + 1..e + 1 + n];
    var name := s[p..e + 1 + n];
    assert name[e - p] == '.' && name[e - p + 1..] == s[e + 1..e + 1 + n];
    forall k | 0 <= k < |name| ensures IsNameChar(name[k]) || name[k] == '.' {
      if k > e - p {
        var j := k - (e - p) - 1;
        assert name[k] == s[e + 1..e + 1 + n][j];
        assert LowerStr(s[e + 1..e + 1 + n])[j] == Lower(name[k]) == exts[x][j];
      } else if k < e - p {
        assert name[k] == s[p + k];
      }
    }
  }

  /** The bare-name extensions are made of lower-case letters and digits. */
  lemma BareExtensionsAlnum()
    ensures AlnumWords(BareExtensions)
  {
  }

  /** The family of a bare file name, tried in the order of MEDIA_FILE_PATTERNS. */
  function FileFamily(name: string): (r: Option<MessageType>)
    ensures r.Some? ==> IsMediaType(r.value) && EndsWithExtension(name, FileExtensions(r.value))
  {
    if EndsWithExtension(name, FileExtensions(Image)) then Some(Image)
    else if EndsWithExtension(name, FileExtensions(Video)) then Some(Video)
    else if EndsWithExtension(name, FileExtensions(Audio)) then Some(Audio)
    else if EndsWithExtension(name, FileExtensions(Document)) then Some(Document)
    else None
  }

  /** Every extension of the bare-name expression belongs to some family, so a
      bare name that is found always yields a media kind. */
  lemma BareNameHasFamily(name: string)
    requires EndsWithExtension(name, BareExtensions)
    ensures FileFamily(name).Some?
  {
    var k :| 0 < k < |name| && name[k] == '.' && LowerStr(name[k + 1..]) in BareExtensions;
    var e := LowerStr(name[k + 1..]);
    if e in FileExtensions(Image) {
    } else if e in FileExtensions(Video) {
      assert EndsWithExtension(name, FileExtensions(Video));
    } else if e in FileExtensions(Audio) {
      assert EndsWithExtension(name, FileExtensions(Audio));
    } else {
      assert e in FileExtensions(Document);
      assert EndsWithExtension(name, FileExtensions(Document));
    }
  }

  // ---------------------------------------------------------------------------
  // detectMessageType

  /** The outcome of `detectMessageType`: the kind and the referenced file name. */
  datatype Detection = Detection(mtype: MessageType, mediaFileName: Option<string>)

  /** Each pattern pairs a media family with that family's extensions. */
  lemma PatternFamily(f: nat)
    requires f < |MediaPatterns|
    ensures IsMediaType(MediaPatterns[f].0) && MediaPatterns[f].1 == AttachedExtensions(MediaPatterns[f].0)
  {
  }

  /** The outcome of the MEDIA_PATTERNS loop of `detectMessageType`: the
      family of the first pattern that matches and that pattern's capture. */
  function AttachedMarker(content: string): (r: Option<(MessageType, string)>)
    ensures var m := PatternMatches(content, MediaPatterns);
            r.None? <==> forall j :: 0 <= j < |m| ==> m[j].None?
    ensures r.Some? ==> var f := AttachedMedia(PatternMatches(content, MediaPatterns), 0).value;
                        r == Some((MediaPatterns[f].0, AttachedName(content, MediaPatterns[f].1).value))
    ensures r.Some? ==> IsMediaType(r.value.0) && EndsWithExtension(r.value.1, AttachedExtensions(r.value.0))
  {
    match AttachedMedia(PatternMatches(content, MediaPatterns), 0)
    case None => None
    case Some(f) =>
      PatternFamily(f);
      Some((MediaPatterns[f].0, AttachedName(content, MediaPatterns[f].1).value))
  }

  /** The marker comes from the first pattern, in list order, whose match
      succeeds, and there is none exactly when no pattern matches. */
  lemma AttachedMarkerFirst(content: string)
    ensures AttachedMarker(content).None? <==>
              forall j :: 0 <= j < |MediaPatterns| ==> AttachedFrom(content, MediaPatterns[j].1, 0).None?
    ensures AttachedMarker(content).Some? ==>
              exists f :: 0 <= f < |MediaPatterns| && AttachedFrom(content, MediaPatterns[f].1, 0).Some?
                && (forall j :: 0 <= j < f ==> AttachedFrom(content, MediaPatterns[j].1, 0).None?)
                && AttachedMarker(content) == Some((MediaPatterns[f].0, AttachedName(content, MediaPatterns[f].1).value))
  {
    var m := PatternMatches(content, MediaPatterns);
    if AttachedMarker(content).Some? {
      var f := AttachedMedia(m, 0).value;
      assert m[f] == AttachedFrom(content, MediaPatterns[f].1, 0);
      assert forall j :: 0 <= j < f ==> m[j] == AttachedFrom(content, MediaPatterns[j].1, 0);
    }
  }

  /** `detectMessageType`: the tests run in a fixed order and the first that
      succeeds decides, a deletion notice, then an omission, then an
      `<attached: ...>` marker (family by family), then a bare file name. */
  function DetectMessageType(content: string): (r: Detection)
    ensures r.mtype != System
    ensures r.mtype == Deleted <==> HasAnyPhrase(content, DeletedPhrases)
    ensures HasAnyPhrase(content, DeletedPhrases) ==> r == Detection(Deleted, None)
    ensures !HasAnyPhrase(content, DeletedPhrases) && HasAnyPhrase(content, OmittedPhrases)
            ==> IsMediaType(r.mtype) && r == Detection(OmittedKind(content).value, None)
    ensures !HasAnyPhrase(content, DeletedPhrases) && !HasAnyPhrase(content, OmittedPhrases)
            && AttachedMarker(content).Some?
            ==> r == Detection(AttachedMarker(content).value.0, Some(AttachedMarker(content).value.1))
    ensures !HasAnyPhrase(content, DeletedPhrases) && !HasAnyPhrase(content, OmittedPhrases)
            && AttachedMarker(content).None? && BareNameFrom(content, 0).Some?
            ==> FileFamily(BareNameFrom(content, 0).value).Some?
                && r == Detection(FileFamily(BareNameFrom(content, 0).value).value, BareNameFrom(content, 0))
    ensures r.mediaFileName.Some? ==>
              IsMediaType(r.mtype) && EndsWithExtension(r.mediaFileName.value, FileExtensions(r.mtype))
    ensures r.mtype == Text <==>
              && !HasAnyPhrase(content, DeletedPhrases) && !HasAnyPhrase(content, OmittedPhrases)
              && AttachedMarker(content).None? && BareNameFrom(content, 0).None?
    ensures r.mtype == Text ==> r.mediaFileName.None?
  {
    if HasAnyPhrase(content, DeletedPhrases) then Detection(Deleted, None)
    else if HasAnyPhrase(content, OmittedPhrases) then Detection(OmittedKind(content).value, None)
    else match AttachedMarker(content)
      case Some((t, name)) =>
        ExtensionsWiden(name, t);
        Detection(t, Some(name))
      case None =>
        match BareNameFrom(content, 0)
        case Some(name) =>
          BareNameHasFamily(name);
          Detection(FileFamily(name).value, Some(name))
        case None => Detection(Text, None)
  }

  /** The first pattern, in list order, that matches is the one
      `AttachedMedia` reports. */
  lemma {:induction false} FirstFamilyWins(results: seq<Option<nat>>, i: nat, k: nat)
    requires i <= k < |results| && results[k].Some?
    requires forall j :: i <= j < k ==> results[j].None?
    ensures AttachedMedia(results, i) == Some(k)
    decreases k - i
  {
    if i < k {
      FirstFamilyWins(results, i + 1, k);
    }
  }

  /** A text in which some character of `p` never occurs does not contain `p`. */
  lemma MissingCharNotContained(t: string, p: string, c: char)
    requires c in p && c !in t
    ensures !Contains(t, p)
  {
  }

  /** The body of a photo line in an iOS export, and its file name. */
  const PhotoName: string := "00000012-PHOTO-2023.jpg"
  const PhotoBody: string := "<attached: " + PhotoName + ">"

  /** The photo body holds no deletion notice and no omission phrase: each of
      them has an `m`, and the body, lower-cased, has none. */
  lemma PhotoBodyPhrases()
    ensures !HasAnyPhrase(PhotoBody, DeletedPhrases) && !HasAnyPhrase(PhotoBody, OmittedPhrases)
  {
    var t := LowerStr(PhotoBody);
    assert 'm' !in t by {
      forall i | 0 <= i < |t| ensures t[i] != 'm' {
        assert t[i] == Lower(PhotoBody[i]);
      }
    }
    forall i | 0 <= i < |DeletedPhrases| ensures !HasPhrase(PhotoBody, DeletedPhrases[i]) {
      assert 'm' in DeletedPhrases[i];
      MissingCharNotContained(t, DeletedPhrases[i], 'm');
    }
    forall i | 0 <= i < |OmittedPhrases| ensures !HasPhrase(PhotoBody, OmittedPhrases[i]) {
      assert 'm' in OmittedPhrases[i];
      MissingCharNotContained(t, OmittedPhrases[i], 'm');
    }
  }

  /** The body opens with the marker in lower case. */
  lemma PhotoBodyMarker()
    ensures LowerStr(PhotoBody[0..10]) == "<attached:"
  {
    assert PhotoBody[0..10] == "<attached:";
    var t := LowerStr("<attached:");
    assert forall i | 0 <= i < 10 :: t[i] == "<attached:"[i];
  }

  /** One blank follows the marker, and the first `>` after it ends the body. */
  lemma PhotoBodyBounds()
    ensures SpaceRun(PhotoBody, 10) == 11
    ensures IndexOfFrom(PhotoBody, ">", 11) == Some(34)
    ensures PhotoBody[11..34] == PhotoName
  {
    var s := PhotoBody;
    assert IsSpace(s[10]) && !IsSpace(s[11]);
    assert s[34..35] == ">" && OccursAt(s, ">", 34);
    forall j | 11 <= j < 34 ensures !OccursAt(s, ">", j) {
      assert s[j..j + 1] == [s[j]];
    }
    assert s == "<attached: " + (PhotoName + ">");
    assert s[11..] == PhotoName + ">";
    assert s[11..34] == s[11..][..23];
  }

  /** The photo name's last dot is followed by `jpg`. */
  lemma PhotoNameExtension()
    ensures LastIndexOf(PhotoName, '.') == Some(19)
    ensures LowerStr(PhotoName[20..]) == "jpg"
  {
    assert PhotoName[19] == '.' && '.' !in PhotoName[20..];
    assert PhotoName[20..] == "jpg";
  }

  /** The image expression captures the text between the blank and the `>`. */
  lemma PhotoBodyCapture()
    ensures AttachedCapture(PhotoBody, 10, AttachedExtensions(Image)) == Some((11, 34))
  {
    PhotoBodyBounds();
    PhotoNameExtension();
  }

  /** A WhatsApp photo marker is detected as an image with the marker's file name. */
  lemma AttachedPhotoExample()
    ensures DetectMessageType(PhotoBody) == Detection(Image, Some(PhotoName))
  {
    var s := PhotoBody;
    PhotoBodyPhrases();
    PhotoBodyCapture();
    PhotoBodyBounds();
    PhotoBodyMarker();
    assert AttachedAt(s, AttachedExtensions(Image), 0) == Some((11, 34));
    assert AttachedFrom(s, AttachedExtensions(Image), 0) == Some(0);
    assert AttachedName(s, AttachedExtensions(Image)) == Some(PhotoName);
    assert AttachedMedia(PatternMatches(s, MediaPatterns), 0) == Some(0);
    assert AttachedMarker(s) == Some((Image, PhotoName));
  }

  /** An attached name ends with an extension of its family's file list too. */
  lemma ExtensionsWiden(name: string, t: MessageType)
    requires EndsWithExtension(name, AttachedExtensions(t))
    ensures EndsWithExtension(name, FileExtensions(t))
  {
    var k :| 0 < k < |name| && name[k] == '.' && LowerStr(name[k + 1..]) in AttachedExtensions(t);
    assert LowerStr(name[k + 1..]) in FileExtensions(t);
  }

  /** The kind the parser gives a dated line's body: `system` when a system
      indicator occurs, otherwise what `detectMessageType` finds. */
  function ClassifyBody(content: string): (r: Detection)
    ensures r.mtype == System <==> IsSystemMessage(content)
    ensures IsSystemMessage(content) ==> r.mediaFileName.None?
    ensures !IsSystemMessage(content) ==> r == DetectMessageType(content)
    ensures r.mediaFileName.Some? ==> IsMediaType(r.mtype)
  {
    if IsSystemMessage(content) then Detection(System, None) else DetectMessageType(content)
  }

  // ---------------------------------------------------------------------------
  // Finding the referenced file among the media

  /** `s.replace(/^.*\//, '')`: `.` stops at a line terminator, so what is
      removed is everything up to the last `/` of the first line. */
  function StripDirectory(s: string): (r: string)
    ensures |r| <= |s| && r == s[|s| - |r|..]
    ensures '/' !in s[..FirstLineLength(s)] ==> r == s
    ensures '/' in s[..FirstLineLength(s)] ==>
              && |r| < |s| && |s| - |r| <= FirstLineLength(s) && s[|s| - |r| - 1] == '/'
              && '/' !in s[|s| - |r|..FirstLineLength(s)]
  {
    var firstLine := FirstLineLength(s);
    match LastIndexOf(s[..firstLine], '/')
    case None => s
    case Some(k) =>
      assert s[k + 1..firstLine] == s[..firstLine][k + 1..];
      s[k + 1..]
  }

  /** The length of the text before the first line terminator. */
  function FirstLineLength(s: string): (n: nat)
    ensures n <= |s| && !HasLineTerminator(s[..n]) && (n == |s| || IsLineTerminator(s[n]))
  {
    if s == [] || IsLineTerminator(s[0]) then 0
    else
      var n := FirstLineLength(s[1..]);
      assert s[..n + 1] == [s[0]] + s[1..][..n];
      n + 1
  }

  /** The test the parser makes between a key of the media map and the name
      found in the body. */
  predicate Links(key: string, ref: string) {
    Contains(LowerStr(key), LowerStr(ref)) || Contains(LowerStr(ref), StripDirectory(LowerStr(key)))
  }

  /** The first entry of the media map whose key links to `ref`, in the map's
      iteration order. */
  function FirstLinked(m: MediaMap, ref: string): (r: Option<nat>)
    ensures r.Some? ==> r.value < |m| && Links(m[r.value].name, ref)
    ensures r.Some? ==> forall j :: 0 <= j < r.value ==> !Links(m[j].name, ref)
    ensures r.None? ==> forall j :: 0 <= j < |m| ==> !Links(m[j].name, ref)
  {
    FirstIndex(m, (f: MediaFile) => Links(f.name, ref))
  }

  /** The lookup loop of the parser, which breaks at the first linking entry. */
  method FindMediaFile(m: MediaMap, ref: string) returns (found: Option<MediaFile>)
    ensures found.Some? <==> FirstLinked(m, ref).Some?
    ensures found.Some? ==> found.value == m[FirstLinked(m, ref).value]
  {
    found := None;
    var i := 0;
    while i < |m|
      invariant 0 <= i <= |m|
      invariant NoneLinked(m, ref, i)
    {
      if Links(m[i].name, ref) {
        found := Some(m[i]);
        FirstLinkedAt(m, ref, i);
        return;
      }
      NoneLinkedNext(m, ref, i);
      i := i + 1;
    }
    NoneLinkedAll(m, ref);
  }

  /** No entry before `i` links to `ref`. */
  predicate NoneLinked(m: MediaMap, ref: string, i: nat) {
    forall j :: 0 <= j < i && j < |m| ==> !Links(m[j].name, ref)
  }

  lemma NoneLinkedNext(m: MediaMap, ref: string, i: nat)
    requires i < |m| && NoneLinked(m, ref, i) && !Links(m[i].name, ref)
    ensures NoneLinked(m, ref, i + 1)
  {
  }

  lemma NoneLinkedAll(m: MediaMap, ref: string)
    requires NoneLinked(m, ref, |m|)
    ensures FirstLinked(m, ref).None?
  {
  }

  lemma FirstLinkedAt(m: MediaMap, ref: string, i: nat)
    requires i < |m| && Links(m[i].name, ref) && NoneLinked(m, ref, i)
    ensures FirstLinked(m, ref) == Some(i)
  {
    FirstIndexIs(m, (f: MediaFile) => Links(f.name, ref), i);
  }

  /** A file kept under its own base name always links to a body that names it. */
  lemma SameNameLinks(name: string)
    ensures Links(name, name)
  {
    var t := LowerStr(name);
    assert t[0..|t|] == t;
    assert OccursAt(t, t, 0);
    ContainsIff(t, t);
  }
}
