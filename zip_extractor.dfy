/** src/lib/parser/zip-extractor.ts: content types by extension, the media
    test, the choice of the transcript among the archive entries, and the
    loop that fills the media map while reporting progress. The archive is a
    sequence of entries in archive order; reading an entry either yields its
    content or fails. */
module ZipExtractor {
  import opened Options
  import opened Strings
  import opened Sequences
  import opened ChatTypes

  // ---------------------------------------------------------------------------
  // Content types

  const DefaultMime := "application/octet-stream"

  /** The extension-to-type record of `getMimeType`. */
  function MimeOf(ext: string): Option<string> {
    match ext
    case "jpg" => Some("image/jpeg")
    case "jpeg" => Some("image/jpeg")
    case "png" => Some("image/png")
    case "gif" => Some("image/gif")
    case "webp" => Some("image/webp")
    case "mp4" => Some("video/mp4")
    case "mov" => Some("video/quicktime")
    case "avi" => Some("video/x-msvideo")
    case "mkv" => Some("video/x-matroska")
    case "3gp" => Some("video/3gpp")
    case "opus" => Some("audio/opus")
    case "ogg" => Some("audio/ogg")
    case "mp3" => Some("audio/mpeg")
    case "m4a" => Some("audio/mp4")
    case "wav" => Some("audio/wav")
    case "aac" => Some("audio/aac")
    case "ptt" => Some("audio/ogg")
    case "pdf" => Some("application/pdf")
    case "doc" => Some("application/msword")
    case "docx" => Some("application/vnd.openxmlformats-officedocument.wordprocessingml.document")
    case "xls" => Some("application/vnd.ms-excel")
    case "xlsx" => Some("application/vnd.openxmlformats-officedocument.spreadsheetml.sheet")
    case "ppt" => Some("application/vnd.ms-powerpoint")
    case "pptx" => Some("application/vnd.openxmlformats-officedocument.presentationml.presentation")
    case _ => None
  }

  /** `MEDIA_EXTENSIONS`. */
  const MediaExtensions: seq<string> := [
    ".jpg", ".jpeg", ".png", ".gif", ".webp",
    ".mp4", ".mov", ".avi", ".mkv", ".3gp",
    ".opus", ".ogg", ".mp3", ".m4a", ".wav", ".aac", ".ptt",
    ".pdf", ".doc", ".docx", ".xls", ".xlsx", ".ppt", ".pptx"
  ]

  /** `fileName.toLowerCase().split('.').pop() || ''`. */
  function Extension(fileName: string): (r: string)
    ensures '.' !in r
    ensures |r| <= |fileName| && r == LowerStr(fileName)[|fileName| - |r|..]
    ensures |r| < |fileName| ==> LowerStr(fileName)[|fileName| - |r| - 1] == '.'
  {
    AfterLast(LowerStr(fileName), '.')
  }

  /** `getMimeType`: the type recorded for the extension, or the default. */
  function GetMimeType(fileName: string): (r: string)
    ensures r != DefaultMime <==> MimeOf(Extension(fileName)).Some?
    ensures r != DefaultMime ==> MimeOf(Extension(fileName)) == Some(r)
  {
    match MimeOf(Extension(fileName))
    case Some(t) => t
    case None => DefaultMime
  }

  /** `isMediaFile`: a case-insensitive suffix test against the extension list. */
  predicate IsMediaFile(fileName: string) {
    exists i :: 0 <= i < |MediaExtensions| && EndsWith(LowerStr(fileName), MediaExtensions[i])
  }

  /** Each media extension is a dot followed by a key of the type record. */
  lemma ExtensionHasType(i: nat)
    requires i < |MediaExtensions|
    ensures |MediaExtensions[i]| >= 2 && MediaExtensions[i][0] == '.'
    ensures var key := MediaExtensions[i][1..];
            '.' !in key && '/' !in key && MimeOf(key).Some?
  {
  }

  /** The position in `MEDIA_EXTENSIONS` of a key of the type record. */
  function KeyIndex(key: string): nat {
    match key
    case "jpg" => 0 case "jpeg" => 1 case "png" => 2 case "gif" => 3 case "webp" => 4
    case "mp4" => 5 case "mov" => 6 case "avi" => 7 case "mkv" => 8 case "3gp" => 9
    case "opus" => 10 case "ogg" => 11 case "mp3" => 12 case "m4a" => 13 case "wav" => 14
    case "aac" => 15 case "ptt" => 16 case "pdf" => 17 case "doc" => 18 case "docx" => 19
    case "xls" => 20 case "xlsx" => 21 case "ppt" => 22 case "pptx" => 23
    case _ => 0
  }

  /** Each key of the type record, behind a dot, is a media extension. */
  lemma TypeHasExtension(key: string)
    requires MimeOf(key).Some?
    ensures exists i :: 0 <= i < |MediaExtensions| && MediaExtensions[i] == ['.'] + key
  {
    var i := KeyIndex(key);
    ExtensionIs(i, key);
  }

  lemma ExtensionIs(i: nat, key: string)
    requires MimeOf(key).Some? && i == KeyIndex(key)
    ensures i < |MediaExtensions| && MediaExtensions[i] == ['.'] + key
  {
    match key
    case "jpg" => case "jpeg" => case "png" => case "gif" => case "webp" =>
    case "mp4" => case "mov" => case "avi" => case "mkv" => case "3gp" =>
    case "opus" => case "ogg" => case "mp3" => case "m4a" => case "wav" =>
    case "aac" => case "ptt" => case "pdf" => case "doc" => case "docx" =>
    case "xls" => case "xlsx" => case "ppt" => case "pptx" =>
  }

  /** The text after the last `c` of a string that ends with `c` and then `e`
      (free of `c`) is `e`. */
  lemma {:induction false} AfterLastOfSuffix(t: string, c: char, e: string)
    requires EndsWith(t, [c] + e) && c !in e
    ensures AfterLast(t, c) == e
    decreases |e|
  {
    if e != [] {
      var t' := t[..|t| - 1];
      var e' := e[..|e| - 1];
      assert t'[|t'| - |[c] + e'|..] == t[|t| - |[c] + e|..|t| - 1];
      assert e[|e| - 1] in e;
      AfterLastOfSuffix(t', c, e');
    }
  }

  /** Every media name ends in a dot and a recorded extension, so it gets a
      type other than the default. */
  lemma MediaHasType(fileName: string)
    requires IsMediaFile(fileName)
    ensures '.' in LowerStr(fileName) && GetMimeType(fileName) != DefaultMime
  {
    var t := LowerStr(fileName);
    var i :| 0 <= i < |MediaExtensions| && EndsWith(t, MediaExtensions[i]);
    ExtensionHasType(i);
    var e := MediaExtensions[i];
    assert e == ['.'] + e[1..];
    AfterLastOfSuffix(t, '.', e[1..]);
    assert t[|t| - |e|] == '.';
  }

  /** Conversely, a name with a dot whose last extension has a recorded type
      is a media name: the two tables list the same extensions. */
  lemma TypedIsMedia(fileName: string)
    requires '.' in LowerStr(fileName) && GetMimeType(fileName) != DefaultMime
    ensures IsMediaFile(fileName)
  {
    var t := LowerStr(fileName);
    var key := Extension(fileName);
    TypeHasExtension(key);
    var i :| 0 <= i < |MediaExtensions| && MediaExtensions[i] == ['.'] + key;
    assert t[|t| - |key| - 1..] == ['.'] + key;
  }

  /** The last three characters of each media extension. */
  lemma ExtensionTail(i: nat)
    requires i < |MediaExtensions|
    ensures |MediaExtensions[i]| >= 4
    ensures MediaExtensions[i][|MediaExtensions[i]| - 3..] != "txt"
    ensures MediaExtensions[i][|MediaExtensions[i]| - 3..] != "zip"
  {
  }

  /** The transcript and an archive are never media. */
  lemma TextAndZipAreNotMedia(fileName: string)
    requires EndsWith(LowerStr(fileName), ".txt") || EndsWith(LowerStr(fileName), ".zip")
    ensures !IsMediaFile(fileName)
  {
    var t := LowerStr(fileName);
    if i :| 0 <= i < |MediaExtensions| && EndsWith(t, MediaExtensions[i]) {
      ExtensionTail(i);
      var e := MediaExtensions[i];
      assert e[|e| - 3..] == t[|t| - 3..];
    }
  }

  // ---------------------------------------------------------------------------
  // Choosing the transcript

  /** `fileName.split('/').pop() || ''`. */
  function BaseName(fileName: string): (r: string)
    ensures '/' !in r && |r| <= |fileName| && r == fileName[|fileName| - |r|..]
  {
    AfterLast(fileName, '/')
  }

  /** The base name is all that follows the last `/`: a shorter one is
      preceded by a `/`. */
  lemma BaseNameAfterSlash(fileName: string)
    ensures var r := BaseName(fileName);
            |r| < |fileName| ==> fileName[|fileName| - |r| - 1] == '/'
  {
  }

  /** The four `CHAT_FILE_PATTERNS`, each tested case-insensitively on the
      base name of an entry. */
  predicate IsUnderscoreChat(fileName: string) {
    LowerStr(BaseName(fileName)) == "_chat.txt"
  }

  predicate IsPlainChat(fileName: string) {
    LowerStr(BaseName(fileName)) == "chat.txt"
  }

  /** `^WhatsApp Chat.*\.txt$`: `.` does not match a line terminator. */
  predicate IsNamedChat(fileName: string) {
    var b := BaseName(fileName);
    |b| >= 17 && StartsWith(LowerStr(b), "whatsapp chat") && EndsWith(LowerStr(b), ".txt")
    && !HasLineTerminator(b[13..|b| - 4])
  }

  predicate IsTextFile(fileName: string) {
    EndsWith(LowerStr(BaseName(fileName)), ".txt")
  }

  const ChatPatterns: seq<string -> bool> := [IsUnderscoreChat, IsPlainChat, IsNamedChat, IsTextFile]

  /** Every pattern asks for a base name ending in `.txt`. */
  lemma PatternsEndInTxt(k: nat, fileName: string)
    requires k < |ChatPatterns| && ChatPatterns[k](fileName)
    ensures IsTextFile(fileName)
  {
    var l := LowerStr(BaseName(fileName));
    if k == 0 {
      assert IsUnderscoreChat(fileName);
      assert l == "_chat.txt";
      assert l[|l| - 4..] == ".txt";
    } else if k == 1 {
      assert IsPlainChat(fileName);
      assert l == "chat.txt";
      assert l[|l| - 4..] == ".txt";
    } else if k == 2 {
      assert IsNamedChat(fileName);
    }
  }

  /** The search of `findChatFile` as the (pattern, entry) indices it stops at:
      the outer loop runs over the patterns from `k`, the inner one over the
      names in archive order. */
  function FindFrom(names: seq<string>, pats: seq<string -> bool>, k: nat): (r: Option<(nat, nat)>)
    requires k <= |pats|
    ensures r.Some? ==> k <= r.value.0 < |pats| && r.value.1 < |names| && pats[r.value.0](names[r.value.1])
    ensures r.Some? ==> forall j :: 0 <= j < r.value.1 ==> !pats[r.value.0](names[j])
    ensures forall q, j :: k <= q < (if r.Some? then r.value.0 else |pats|) && 0 <= j < |names|
              ==> !pats[q](names[j])
    decreases |pats| - k
  {
    if k == |pats| then None
    else match FirstIndex(names, pats[k])
      case Some(i) => Some((k, i))
      case None => FindFrom(names, pats, k + 1)
  }

  /** Pattern-major choice: when some name matches pattern `k`, the search
      stops at pattern `k` or an earlier one, and at pattern `k` it stops at
      the earliest match in archive order. */
  lemma FindFromPreference(names: seq<string>, pats: seq<string -> bool>, k: nat, j: nat)
    requires k < |pats| && j < |names| && pats[k](names[j])
    ensures FindFrom(names, pats, 0).Some?
    ensures var (q, i) := FindFrom(names, pats, 0).value;
            q <= k && (q == k ==> i <= j)
  {
  }

  /** `findChatFile`: the full path of the chosen entry, or nothing. */
  function FindChatFile(names: seq<string>): (r: Option<string>)
    ensures r.Some? ==> r.value in names && IsTextFile(r.value)
  {
    match FindFrom(names, ChatPatterns, 0)
    case Some((k, i)) =>
      PatternsEndInTxt(k, names[i]);
      Some(names[i])
    case None => None
  }

  /** There is a transcript exactly when some base name ends in `.txt`. */
  lemma FindChatFileNone(names: seq<string>)
    ensures FindChatFile(names).None? <==> forall j :: 0 <= j < |names| ==> !IsTextFile(names[j])
  {
    if j :| 0 <= j < |names| && IsTextFile(names[j]) {
      assert ChatPatterns[3] == IsTextFile;
      FindFromPreference(names, ChatPatterns, 3, j);
    }
  }

  /** The chosen name is the first in archive order matching the first
      pattern that any name matches. */
  lemma FindChatFileChoice(names: seq<string>, k: nat, j: nat)
    requires k < |ChatPatterns| && j < |names| && ChatPatterns[k](names[j])
    ensures FindChatFile(names).Some?
    ensures exists q, i :: 0 <= q <= k && 0 <= i < |names| && FindChatFile(names) == Some(names[i])
              && ChatPatterns[q](names[i]) && (q == k ==> i <= j)
              && (forall p, n :: 0 <= p < q && 0 <= n < |names| ==> !ChatPatterns[p](names[n]))
  {
    FindFromPreference(names, ChatPatterns, k, j);
    var (q, i) := FindFrom(names, ChatPatterns, 0).value;
    assert FindChatFile(names) == Some(names[i]);
  }

  // ---------------------------------------------------------------------------
  // Extraction

  /** An archive entry: its path, whether it is a directory, and what reading
      it yields (`None` when reading fails). */
  datatype Entry = Entry(name: string, isDir: bool, content: Option<string>)

  datatype ExtractError = NoChatFile | ChatUnreadable

  datatype Extracted = Extracted(chatText: string, mediaFiles: MediaMap)

  datatype Outcome = Failure(error: ExtractError) | Success(data: Extracted)

  function Names(entries: seq<Entry>): (r: seq<string>)
    ensures |r| == |entries| && forall i :: 0 <= i < |entries| ==> r[i] == entries[i].name
  {
    seq(|entries|, i requires 0 <= i < |entries| => entries[i].name)
  }

  /** The map key of a media entry: `fileName.split('/').pop() || fileName`. */
  function MediaKey(fileName: string): string {
    if BaseName(fileName) == [] then fileName else BaseName(fileName)
  }

  /** A media name always has a non-empty base name, so its key has no `/`. */
  lemma MediaKeyIsBaseName(fileName: string)
    requires IsMediaFile(fileName)
    ensures MediaKey(fileName) == BaseName(fileName) && '/' !in MediaKey(fileName)
  {
    var i :| 0 <= i < |MediaExtensions| && EndsWith(LowerStr(fileName), MediaExtensions[i]);
    ExtensionHasType(i);
    assert LowerStr(fileName)[|fileName| - 1] == MediaExtensions[i][|MediaExtensions[i]| - 1];
    assert fileName[|fileName| - 1] != '/';
  }

  /** The media file stored for an entry that was read. */
  function FileOf(e: Entry): (f: MediaFile)
    requires e.content.Some?
    ensures f.name == MediaKey(e.name) && f.mimeType == GetMimeType(MediaKey(e.name))
    ensures f.data == e.content.value
  {
    var key := MediaKey(e.name);
    MediaFile(key, GetMimeType(key), e.content.value)
  }

  /** An entry the loop stores: not a directory, and read successfully. */
  predicate Stored(e: Entry) {
    !e.isDir && e.content.Some?
  }

  function IsMediaEntry(e: Entry): bool {
    IsMediaFile(e.name)
  }

  /** The media map after the loop has visited `es` (all media-named). */
  function MediaFold(es: seq<Entry>): (m: MediaMap)
    ensures KeysDistinct(m)
  {
    if es == [] then []
    else
      var m := MediaFold(es[..|es| - 1]);
      var e := es[|es| - 1];
      if Stored(e) then MapSet(m, FileOf(e)) else m
  }

  /** The file of the last stored entry with key `key`. */
  function LastStored(es: seq<Entry>, key: string): (r: Option<MediaFile>) {
    if es == [] then None
    else
      var e := es[|es| - 1];
      if Stored(e) && MediaKey(e.name) == key then Some(FileOf(e)) else LastStored(es[..|es| - 1], key)
  }

  /** Looking a key up in the map gives the file of the last stored entry with
      that key: a later entry overwrites an earlier one, skipped entries
      (directories, failed reads) leave no trace. */
  lemma {:induction false} MediaFoldLookup(es: seq<Entry>, key: string)
    ensures MapGet(MediaFold(es), key) == LastStored(es, key)
  {
    if es != [] {
      MediaFoldLookup(es[..|es| - 1], key);
    }
  }

  /** `f` is the file of some stored entry of `es`. */
  predicate FromStored(es: seq<Entry>, f: MediaFile) {
    exists j :: 0 <= j < |es| && Stored(es[j]) && f == FileOf(es[j])
  }

  lemma FromStoredPrefix(es: seq<Entry>, n: nat, f: MediaFile)
    requires n <= |es| && FromStored(es[..n], f)
    ensures FromStored(es, f)
  {
    var j :| 0 <= j < n && Stored(es[..n][j]) && f == FileOf(es[..n][j]);
    assert es[j] == es[..n][j];
    assert 0 <= j < |es| && Stored(es[j]) && f == FileOf(es[j]);
  }

  /** Only media names are stored, under keys without `/`. */
  lemma {:induction false} MediaFoldKeys(es: seq<Entry>)
    requires forall i :: 0 <= i < |es| ==> IsMediaFile(es[i].name)
    ensures forall f :: f in MediaFold(es) ==> '/' !in f.name && FromStored(es, f)
  {
    if es != [] {
      var n := |es| - 1;
      var es' := es[..n];
      MediaFoldKeys(es');
      var e := es[n];
      if Stored(e) {
        MediaKeyIsBaseName(e.name);
      }
      forall f | f in MediaFold(es)
        ensures '/' !in f.name && FromStored(es, f)
      {
        if f in MediaFold(es') {
          FromStoredPrefix(es, n, f);
        } else {
          assert f == FileOf(es[n]);
        }
      }
    }
  }

  /** The progress reported after `processed` of `total` media entries. */
  function Progress(processed: nat, total: nat): real
    requires 0 < total
  {
    30.0 + (processed as real / total as real) * 50.0
  }

  /** The reports of the media loop after `n` entries. */
  function MediaReports(n: nat, total: nat): (r: seq<real>)
    requires n <= total && 0 < total
    ensures |r| == n && forall i :: 0 <= i < n ==> r[i] == Progress(i + 1, total)
  {
    if n == 0 then [] else MediaReports(n - 1, total) + [Progress(n, total)]
  }

  /** Reported progress never goes back and stays between 30 and 80, ending at 80. */
  lemma ProgressBounds(total: nat)
    requires 0 < total
    ensures var r := MediaReports(total, total);
            && NonDecreasing(r)
            && (forall i :: 0 <= i < |r| ==> 30.0 < r[i] <= 80.0)
            && r[|r| - 1] == 80.0
  {
    var r := MediaReports(total, total);
    forall i, j | 0 <= i <= j < |r| ensures r[i] <= r[j] {
      ProgressMonotone(i + 1, j + 1, total);
    }
    forall i | 0 <= i < |r| ensures 30.0 < r[i] <= 80.0 {
      ProgressMonotone(i + 1, total, total);
    }
  }

  lemma ProgressMonotone(a: nat, b: nat, total: nat)
    requires 0 < a <= b <= total
    ensures 30.0 < Progress(a, total) <= Progress(b, total) <= 80.0
  {
    var t := total as real;
    assert a as real / t <= b as real / t;
    assert b as real / t <= 1.0;
    assert 0.0 < a as real / t;
  }

  function NameIs(name: string): Entry -> bool {
    (e: Entry) => e.name == name
  }

  /** What the media loop reports for `total` media entries. */
  function MediaProgress(total: nat): (r: seq<real>)
    ensures |r| == total
  {
    if total == 0 then [] else MediaReports(total, total)
  }

  /** Reading the entry stored under `name`: `zip.files[name].async('string')`.
      Nothing is read when no entry has that name or the first entry that has
      it cannot be read. */
  function ReadEntry(entries: seq<Entry>, name: string): (r: Option<string>)
    ensures r.Some? ==> exists c :: 0 <= c < |entries| && entries[c].name == name && entries[c].content == r
    ensures (forall c :: 0 <= c < |entries| ==> entries[c].name != name) ==> r.None?
    ensures forall c :: (0 <= c < |entries| && entries[c].name == name && forall j :: 0 <= j < c ==> entries[j].name != name)
                          ==> r == entries[c].content
  {
    match FirstIndex(entries, NameIs(name))
    case None => None
    case Some(c) => entries[c].content
  }

  /** What `extractZipFile` returns, and the progress values it reports. */
  function ExtractSpec(entries: seq<Entry>): (r: (Outcome, seq<real>)) {
    match FindChatFile(Names(entries))
    case None => (Failure(NoChatFile), [0.0, 10.0])
    case Some(chatName) =>
      match ReadEntry(entries, chatName)
      case None => (Failure(ChatUnreadable), [0.0, 10.0, 20.0])
      case Some(chatText) =>
        var media := Filter(entries, IsMediaEntry);
        (Success(Extracted(chatText, MediaFold(media))),
         [0.0, 10.0, 20.0, 30.0] + MediaProgress(|media|) + [100.0])
  }

  /** The extraction fails exactly when no base name ends in `.txt` or the
      transcript cannot be read; otherwise its media map holds exactly the
      last stored media entry of each key. */
  lemma ExtractSpecProperties(entries: seq<Entry>, key: string)
    ensures var (out, _) := ExtractSpec(entries);
            && (out == Failure(NoChatFile) <==>
                  forall j :: 0 <= j < |entries| ==> !IsTextFile(entries[j].name))
            && (out == Failure(ChatUnreadable) <==>
                  FindChatFile(Names(entries)).Some? && ReadEntry(entries, FindChatFile(Names(entries)).value).None?)
            && (out.Success? ==> MapGet(out.data.mediaFiles, key) == LastStored(Filter(entries, IsMediaEntry), key))
  {
    FindChatFileNone(Names(entries));
    MediaFoldLookup(Filter(entries, IsMediaEntry), key);
    match FindChatFile(Names(entries))
    case None =>
    case Some(chatName) =>
      assert chatName in Names(entries);
  }

  /** Every stored file comes from a media-named, readable, non-directory
      entry, under that entry's base name, without `/`. */
  lemma ExtractedMedia(entries: seq<Entry>)
    ensures var (out, _) := ExtractSpec(entries);
            out.Success? ==>
              && KeysDistinct(out.data.mediaFiles)
              && forall f :: f in out.data.mediaFiles ==>
                   '/' !in f.name && exists e :: e in entries && IsMediaFile(e.name) && Stored(e) && f == FileOf(e)
  {
    var media := Filter(entries, IsMediaEntry);
    MediaFoldKeys(media);
    forall f | f in MediaFold(media)
      ensures exists e :: e in entries && IsMediaFile(e.name) && Stored(e) && f == FileOf(e)
    {
      var j :| 0 <= j < |media| && Stored(media[j]) && f == FileOf(media[j]);
      assert media[j] in media;
    }
  }

  predicate NonDecreasing(p: seq<real>) {
    forall i, j :: 0 <= i <= j < |p| ==> p[i] <= p[j]
  }

  predicate Within(p: seq<real>, lo: real, hi: real) {
    forall i :: 0 <= i < |p| ==> lo <= p[i] <= hi
  }

  /** Progress values around a non-decreasing stretch in [30, 80]. */
  lemma FramedProgress(r: seq<real>)
    requires NonDecreasing(r) && Within(r, 30.0, 80.0)
    ensures var p := [0.0, 10.0, 20.0, 30.0] + r + [100.0];
            NonDecreasing(p) && Within(p, 0.0, 100.0)
  {
    var p := [0.0, 10.0, 20.0, 30.0] + r + [100.0];
    forall i | 0 <= i < |p|
      ensures (i < 4 ==> p[i] == 10.0 * i as real) && (4 <= i < |p| - 1 ==> 30.0 <= p[i] <= 80.0 && p[i] == r[i - 4])
    {
    }
  }

  /** The three shapes of the progress trace. */
  lemma ExtractTrace(entries: seq<Entry>)
    ensures var p := ExtractSpec(entries).1;
            || p == [0.0, 10.0]
            || p == [0.0, 10.0, 20.0]
            || p == [0.0, 10.0, 20.0, 30.0] + MediaProgress(|Filter(entries, IsMediaEntry)|) + [100.0]
  {
  }

  lemma ShortTraces()
    ensures NonDecreasing([0.0, 10.0]) && Within([0.0, 10.0], 0.0, 100.0)
    ensures NonDecreasing([0.0, 10.0, 20.0]) && Within([0.0, 10.0, 20.0], 0.0, 100.0)
  {
  }

  /** The reported progress of an extraction starts at 0, never goes back,
      and stays within [0, 100]. */
  lemma ExtractProgress(entries: seq<Entry>)
    ensures var p := ExtractSpec(entries).1;
            p[0] == 0.0 && NonDecreasing(p) && Within(p, 0.0, 100.0)
  {
    ExtractTrace(entries);
    ShortTraces();
    var n := |Filter(entries, IsMediaEntry)|;
    if n > 0 {
      ProgressBounds(n);
    }
    FramedProgress(MediaProgress(n));
  }

  /** The media loop of `extractZipFile`: visit every media-named entry,
      skip directories and failed reads, store the rest under their base
      names, and report progress after each entry. */
  method CollectMedia(mediaEntries: seq<Entry>) returns (mediaFiles: MediaMap, reports: seq<real>)
    ensures mediaFiles == MediaFold(mediaEntries)
    ensures reports == MediaProgress(|mediaEntries|)
  {
    mediaFiles := [];
    reports := [];
    var processed := 0;
    var total := |mediaEntries|;
    while processed < total
      invariant 0 <= processed <= total
      invariant mediaFiles == MediaFold(mediaEntries[..processed])
      invariant total > 0 ==> reports == MediaReports(processed, total)
      invariant total == 0 ==> reports == []
    {
      assert mediaEntries[..processed + 1][..processed] == mediaEntries[..processed];
      var e := mediaEntries[processed];
      if !e.isDir && e.content.Some? {
        mediaFiles := MapSet(mediaFiles, FileOf(e));
      }
      processed := processed + 1;
      reports := reports + [Progress(processed, total)];
    }
    assert mediaEntries[..processed] == mediaEntries;
  }

  /** `extractZipFile`: choose and read the transcript, then collect the media. */
  method ExtractZipFile(entries: seq<Entry>) returns (outcome: Outcome, progress: seq<real>)
    ensures (outcome, progress) == ExtractSpec(entries)
  {
    progress := [0.0, 10.0];
    var chatFileName := FindChatFile(Names(entries));
    if chatFileName.None? {
      return Failure(NoChatFile), progress;
    }
    progress := progress + [20.0];
    var chatText := ReadEntry(entries, chatFileName.value);
    if chatText.None? {
      assert progress == [0.0, 10.0, 20.0];
      return Failure(ChatUnreadable), progress;
    }
    var mediaFiles, reports := CollectMedia(Filter(entries, IsMediaEntry));
    progress := [0.0, 10.0, 20.0, 30.0] + reports + [100.0];
    outcome := Success(Extracted(chatText.value, mediaFiles));
  }
}
