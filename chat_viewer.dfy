/** The logic of src/components/chat/ChatViewer.tsx: the outgoing flag
    recomputed for the chosen user, search and its cyclic navigation, find and
    replace, the visibility filters, delete and edit, and the export name. The
    component's `useState` cells are the fields of `Viewer`. */
module ChatViewer {
  import opened Options
  import opened Strings
  import opened Sequences
  import opened ChatTypes

  // ---------------------------------------------------------------------------
  // The outgoing flag

  /** `processedMessages`: every message, with `isOutgoing` set exactly when
      its sender is the chosen user. */
  function ProcessedMessages(ms: seq<Message>, user: string): (r: seq<Message>)
    ensures |r| == |ms|
    ensures forall i :: 0 <= i < |ms| ==> (r[i].isOutgoing <==> ms[i].sender == user)
    ensures forall i :: 0 <= i < |ms| ==> r[i].(isOutgoing := ms[i].isOutgoing) == ms[i]
  {
    seq(|ms|, i requires 0 <= i < |ms| => ms[i].(isOutgoing := ms[i].sender == user))
  }

  // ---------------------------------------------------------------------------
  // Search

  /** The search test: the lower-cased content or sender contains the
      lower-cased query. */
  predicate Hit(m: Message, query: string) {
    Contains(LowerStr(m.content), LowerStr(query)) || Contains(LowerStr(m.sender), LowerStr(query))
  }

  function HitOf(query: string): Message -> bool {
    (m: Message) => Hit(m, query)
  }

  /** The indices of the hits among `ms`, ascending. */
  function Hits(ms: seq<Message>, query: string): (r: seq<nat>)
    ensures Increasing(r)
    ensures forall x :: x in r ==> x < |ms|
    ensures forall k :: 0 <= k < |ms| ==> (k in r <==> Hit(ms[k], query))
  {
    IndicesWhere(ms, HitOf(query))
  }

  /** `searchResults`: nothing for the empty query, otherwise the ascending
      indices of the hits. */
  function SearchResults(ms: seq<Message>, query: string): (r: seq<nat>)
    ensures query == [] ==> r == []
    ensures Increasing(r) && forall x :: x in r ==> x < |ms|
    ensures query != [] ==> forall k :: 0 <= k < |ms| ==> (k in r <==> Hit(ms[k], query))
  {
    if query == [] then [] else Hits(ms, query)
  }

  /** Hits do not depend on the outgoing flag, so the search over the shown
      messages finds exactly the indices the stored messages give. */
  lemma HitsIgnoreOutgoing(ms: seq<Message>, user: string, query: string)
    ensures Hits(ProcessedMessages(ms, user), query) == Hits(ms, query)
  {
    IndicesIgnoreOutgoing(ms, ProcessedMessages(ms, user), HitOf(query));
  }

  lemma {:induction false} IndicesIgnoreOutgoing(ms: seq<Message>, ps: seq<Message>, p: Message -> bool)
    requires |ps| == |ms| && forall k :: 0 <= k < |ms| ==> p(ps[k]) == p(ms[k])
    ensures IndicesWhere(ps, p) == IndicesWhere(ms, p)
  {
    if ms != [] {
      var n := |ms| - 1;
      IndicesIgnoreOutgoing(ms[..n], ps[..n], p);
    }
  }

  /** The loop of `searchResults`: visit every message, push the index of each hit. */
  method Search(ms: seq<Message>, query: string) returns (results: seq<nat>)
    ensures results == SearchResults(ms, query)
  {
    results := [];
    if query == [] {
      return;
    }
    var index := 0;
    while index < |ms|
      invariant 0 <= index <= |ms|
      invariant results == IndicesWhere(ms[..index], HitOf(query))
    {
      assert ms[..index + 1][..index] == ms[..index];
      if Contains(LowerStr(ms[index].content), LowerStr(query))
         || Contains(LowerStr(ms[index].sender), LowerStr(query)) {
        results := results + [index];
      }
      index := index + 1;
    }
    assert ms[..index] == ms;
  }

  // ---------------------------------------------------------------------------
  // Navigation

  /** `handleSearchNext`: one step forward, wrapping; nothing without results. */
  function NextIndex(i: nat, n: nat): nat {
    if n == 0 then i else (i + 1) % n
  }

  /** `handleSearchPrev`: one step back, wrapping; `i - 1 + n` is never
      negative, so the remainder agrees with JavaScript's. */
  function PrevIndex(i: nat, n: nat): nat {
    if n == 0 then i else (i - 1 + n) % n
  }

  /** With results, both steps land in range. */
  lemma NavigationInRange(i: nat, n: nat)
    requires n > 0
    ensures NextIndex(i, n) < n && PrevIndex(i, n) < n
  {
  }

  lemma MulAtLeast(a: int, n: int)
    requires a >= 1 && n > 0
    ensures a * n >= n
  {
  }

  /** The remainder is determined by any quotient-remainder decomposition. */
  lemma ModOf(x: int, n: int, q: int, r: int)
    requires n > 0 && 0 <= r < n && x == q * n + r
    ensures x % n == r
  {
    var q', r' := x / n, x % n;
    assert x == q' * n + r';
    assert (q - q') * n == r' - r;
    if q > q' {
      MulAtLeast(q - q', n);
    } else if q' > q {
      MulAtLeast(q' - q, n);
    }
  }

  /** On an in-range index, next and prev undo each other. */
  lemma NextPrevInverse(i: nat, n: nat)
    requires i < n
    ensures PrevIndex(NextIndex(i, n), n) == i
    ensures NextIndex(PrevIndex(i, n), n) == i
  {
    if i + 1 == n {
      ModOf(i + 1, n, 1, 0);
      ModOf(n - 1 + n, n, 1, n - 1);
    } else {
      ModOf(i + 1, n, 0, i + 1);
      ModOf(i + n, n, 1, i);
    }
    if i == 0 {
      ModOf(n - 1, n, 0, n - 1);
      ModOf(n, n, 1, 0);
    } else {
      ModOf(i - 1 + n, n, 1, i - 1);
      ModOf(i, n, 0, i);
    }
  }

  function NextTimes(i: nat, n: nat, k: nat): nat {
    if k == 0 then i else NextIndex(NextTimes(i, n, k - 1), n)
  }

  /** Stepping forward `k` times from an in-range index moves it by `k`
      modulo the count, so `n` steps come back to the start. */
  lemma {:induction false} NextCycles(i: nat, n: nat, k: nat)
    requires i < n
    ensures NextTimes(i, n, k) == (i + k) % n
    decreases k
  {
    if k == 0 {
      ModOf(i, n, 0, i);
    } else {
      NextCycles(i, n, k - 1);
      NextOfRemainder(i + k - 1, n);
    }
  }

  /** One step forward from `a % n` is `(a + 1) % n`. */
  lemma NextOfRemainder(a: nat, n: nat)
    requires n > 0
    ensures NextIndex(a % n, n) == (a + 1) % n
  {
    var q, r := a / n, a % n;
    if r + 1 < n {
      ModOf(r + 1, n, 0, r + 1);
      ModOf(a + 1, n, q, r + 1);
    } else {
      ModOf(r + 1, n, 1, 0);
      ModOf(a + 1, n, q + 1, 0);
    }
  }

  /** The effect that resets an out-of-range index once results exist. */
  function Settled(i: nat, n: nat): (r: nat)
    ensures n > 0 ==> r < n
    ensures i < n || n == 0 ==> r == i
  {
    if n > 0 && i >= n then 0 else i
  }

  /** `highlightedMessageId`: the id of the message at the current result. */
  function Highlight(ms: seq<Message>, results: seq<nat>, i: nat): (r: Option<nat>)
    ensures r.Some? <==> i < |results| && results[i] < |ms|
    ensures r.Some? ==> r.value == ms[results[i]].id
  {
    if |results| == 0 || i >= |results| then None
    else if results[i] < |ms| then Some(ms[results[i]].id)
    else None
  }

  /** With a query and an in-range index, the highlighted id is that of a
      message the search found. */
  lemma HighlightIsHit(ms: seq<Message>, query: string, i: nat)
    requires query != [] && i < |SearchResults(ms, query)|
    ensures var h := Highlight(ms, SearchResults(ms, query), i);
            h.Some? && exists k :: 0 <= k < |ms| && ms[k].id == h.value && Hit(ms[k], query)
  {
    var r := SearchResults(ms, query);
    assert r[i] in r;
  }

  /** Once the index has settled, a message is highlighted exactly when the
      search found something. */
  lemma SettledHighlight(ms: seq<Message>, query: string, i: nat)
    ensures var r := SearchResults(ms, query);
            Highlight(ms, r, Settled(i, |r|)).Some? <==> |r| > 0
  {
    var r := SearchResults(ms, query);
    if |r| > 0 {
      assert r[Settled(i, |r|)] in r;
    }
  }

  // ---------------------------------------------------------------------------
  // Find and replace

  lemma LowerConcat(a: string, b: string)
    ensures LowerStr(a + b) == LowerStr(a) + LowerStr(b)
  {
  }

  lemma LowerSlice(s: string, i: nat, j: nat)
    requires i <= j <= |s|
    ensures LowerStr(s[i..j]) == LowerStr(s)[i..j]
  {
  }

  /** The first case-insensitive occurrence of `query` in `s`. */
  function FirstMatch(s: string, query: string): (r: Option<nat>)
    ensures r.Some? ==> r.value + |query| <= |s| && LowerStr(s[r.value..r.value + |query|]) == LowerStr(query)
    ensures r.Some? ==> forall j :: 0 <= j < r.value ==> !OccursAt(LowerStr(s), LowerStr(query), j)
    ensures r.None? <==> !ContainsCI(s, query)
  {
    match IndexOf(LowerStr(s), LowerStr(query))
    case None => None
    case Some(k) =>
      LowerSlice(s, k, k + |query|);
      Some(k)
  }

  /** `content.replace(new RegExp(escaped, 'i'), replacement)`: the first
      case-insensitive occurrence of the literal query is replaced. */
  function ReplaceFirstCI(s: string, query: string, replacement: string): (t: string)
    ensures !ContainsCI(s, query) ==> t == s
    ensures ContainsCI(s, query) ==>
              exists k :: 0 <= k && k + |query| <= |s| && LowerStr(s[k..k + |query|]) == LowerStr(query)
                && (forall j :: 0 <= j < k ==> !OccursAt(LowerStr(s), LowerStr(query), j))
                && t == s[..k] + replacement + s[k + |query|..]
  {
    match FirstMatch(s, query)
    case None => s
    case Some(k) => s[..k] + replacement + s[k + |query|..]
  }

  /** `content.replace(new RegExp(escaped, 'gi'), replacement)`: occurrences
      are replaced left to right, the search resuming after each one. */
  function ReplaceAllCI(s: string, query: string, replacement: string): (t: string)
    requires query != []
    ensures !ContainsCI(s, query) ==> t == s
    decreases |s|
  {
    match FirstMatch(s, query)
    case None => s
    case Some(k) => s[..k] + replacement + ReplaceAllCI(s[k + |query|..], query, replacement)
  }

  /** Both replacements start the same way: up to the first occurrence, the
      replace-all result is the single-replace result. */
  lemma ReplaceAllStartsLikeFirst(s: string, query: string, replacement: string)
    requires query != [] && ContainsCI(s, query)
    ensures var k := FirstMatch(s, query).value;
            var n := k + |replacement|;
            n <= |ReplaceAllCI(s, query, replacement)| && n <= |ReplaceFirstCI(s, query, replacement)|
            && ReplaceAllCI(s, query, replacement)[..n] == ReplaceFirstCI(s, query, replacement)[..n]
  {
  }

  lemma ReplaceAllUnfold(s: string, query: string, replacement: string, k: nat)
    requires query != [] && FirstMatch(s, query) == Some(k)
    ensures ReplaceAllCI(s, query, replacement) == s[..k] + replacement + ReplaceAllCI(s[k + |query|..], query, replacement)
  {
  }

  /** Replacing every occurrence by the query itself changes only letter case. */
  lemma {:induction false} ReplaceAllByQuery(s: string, query: string)
    requires query != []
    ensures LowerStr(ReplaceAllCI(s, query, query)) == LowerStr(s)
    decreases |s|
  {
    var m := FirstMatch(s, query);
    if m.Some? {
      var k := m.value;
      var pre, hit, rest := s[..k], s[k..k + |query|], s[k + |query|..];
      ReplaceAllUnfold(s, query, query, k);
      ReplaceAllByQuery(rest, query);
      Slices3(s, k, k + |query|);
      LowerGlue(pre, hit, rest, query, ReplaceAllCI(rest, query, query));
    }
  }

  /** Swapping pieces for ones equal up to case keeps the lowered text. */
  lemma LowerGlue(pre: string, hit: string, rest: string, hit': string, rest': string)
    requires LowerStr(hit') == LowerStr(hit) && LowerStr(rest') == LowerStr(rest)
    ensures LowerStr(pre + hit' + rest') == LowerStr(pre + hit + rest)
  {
    LowerConcat(pre + hit', rest');
    LowerConcat(pre, hit');
    LowerConcat(pre + hit, rest);
    LowerConcat(pre, hit);
  }

  /** `handleFindReplace`: with a query and the current index inside the
      results, replace in the message at the current result and step to the
      next result unless at the last. */
  function ReplaceCurrent(ms: seq<Message>, results: seq<nat>, current: nat, query: string, replacement: string)
    : (r: (seq<Message>, nat))
  {
    if query == [] || |results| == 0 || current >= |results| || results[current] >= |ms| then (ms, current)
    else
      var i := results[current];
      (ms[i := ms[i].(content := ReplaceFirstCI(ms[i].content, query, replacement))],
       if current < |results| - 1 then current + 1 else current)
  }

  /** Only the message at the current result changes, and only its content;
      the index advances exactly when it is in range and not at the last result. */
  lemma ReplaceCurrentEffect(ms: seq<Message>, results: seq<nat>, current: nat, query: string, replacement: string)
    requires forall x :: x in results ==> x < |ms|
    ensures var (ms', current') := ReplaceCurrent(ms, results, current, query, replacement);
            && |ms'| == |ms|
            && (forall k :: 0 <= k < |ms| ==> ms'[k].(content := ms[k].content) == ms[k])
            && (forall k :: 0 <= k < |ms| && ms'[k] != ms[k] ==>
                  query != [] && current < |results| && k == results[current]
                  && ms'[k].content == ReplaceFirstCI(ms[k].content, query, replacement))
            && (current' == current + 1 <==> query != [] && current + 1 < |results|)
            && (current' != current + 1 ==> current' == current)
  {
    if query != [] && current < |results| {
      assert results[current] in results;
    }
  }

  /** The replacement every message gets under `handleFindReplaceAll`. */
  function ReplaceInMessage(m: Message, query: string, replacement: string): Message
    requires query != []
  {
    if ContainsCI(m.content, query) then m.(content := ReplaceAllCI(m.content, query, replacement)) else m
  }

  /** `handleFindReplaceAll`: in every message whose content (the sender is not
      looked at) contains the query, replace all occurrences; nothing for the
      empty query. */
  function ReplaceAllMessages(ms: seq<Message>, query: string, replacement: string): (r: seq<Message>)
    ensures |r| == |ms|
    ensures forall k :: 0 <= k < |ms| ==> r[k].(content := ms[k].content) == ms[k]
    ensures forall k :: 0 <= k < |ms| && !ContainsCI(ms[k].content, query) ==> r[k] == ms[k]
    ensures query != [] ==> forall k :: 0 <= k < |ms| && ContainsCI(ms[k].content, query) ==>
              r[k].content == ReplaceAllCI(ms[k].content, query, replacement)
  {
    if query == [] then ms
    else seq(|ms|, k requires 0 <= k < |ms| => ReplaceInMessage(ms[k], query, replacement))
  }

  // ---------------------------------------------------------------------------
  // Filters

  /** The visibility toggles of the side bar. */
  datatype Filters = Filters(
    hideMediaOmitted: bool,
    hideTextMessages: bool,
    hideMediaMessages: bool,
    hideVoiceNotes: bool,
    hideDeletedMessages: bool,
    hideSystemMessages: bool)

  const NoFilters := Filters(false, false, false, false, false, false)

  /** The eight phrase tests of the omitted toggle, on the lower-cased content. */
  predicate MentionsOmitted(content: string) {
    var c := LowerStr(content);
    Contains(c, "omitted") || Contains(c, "<media omitted>") || Contains(c, "image omitted")
    || Contains(c, "video omitted") || Contains(c, "audio omitted") || Contains(c, "sticker omitted")
    || Contains(c, "document omitted") || Contains(c, "gif omitted")
  }

  /** Containment is transitive. */
  lemma ContainsWithin(s: string, p: string, w: string)
    requires Contains(s, p) && Contains(p, w)
    ensures Contains(s, w)
  {
    ContainsIff(s, p);
    ContainsIff(p, w);
    var i :| OccursAt(s, p, i);
    var j :| OccursAt(p, w, j);
    assert forall t :: 0 <= t < |w| ==> s[i + j + t] == s[i..i + |p|][j + t] == p[j + t] == w[t];
    assert OccursAt(s, w, i + j);
    ContainsIff(s, w);
  }

  /** A content containing a phrase around `omitted` contains `omitted`. */
  lemma PhraseImpliesOmitted(c: string, pre: string, post: string)
    ensures Contains(c, pre + "omitted" + post) ==> Contains(c, "omitted")
  {
    var p := pre + "omitted" + post;
    if Contains(c, p) {
      ContainsIff(p, "omitted");
      assert p[|pre|..|pre| + 7] == "omitted";
      assert OccursAt(p, "omitted", |pre|);
      ContainsWithin(c, p, "omitted");
    }
  }

  /** Each of the longer phrases contains `omitted`. */
  lemma PhrasesImplyOmitted(c: string)
    ensures Contains(c, "<media omitted>") ==> Contains(c, "omitted")
    ensures Contains(c, "image omitted") ==> Contains(c, "omitted")
    ensures Contains(c, "video omitted") ==> Contains(c, "omitted")
    ensures Contains(c, "audio omitted") ==> Contains(c, "omitted")
    ensures Contains(c, "sticker omitted") ==> Contains(c, "omitted")
    ensures Contains(c, "document omitted") ==> Contains(c, "omitted")
    ensures Contains(c, "gif omitted") ==> Contains(c, "omitted")
  {
    PhraseImpliesOmitted(c, "<media ", ">");
    assert "<media " + "omitted" + ">" == "<media omitted>";
    PhraseImpliesOmitted(c, "image ", "");
    assert "image " + "omitted" + "" == "image omitted";
    PhraseImpliesOmitted(c, "video ", "");
    assert "video " + "omitted" + "" == "video omitted";
    PhraseImpliesOmitted(c, "audio ", "");
    assert "audio " + "omitted" + "" == "audio omitted";
    PhraseImpliesOmitted(c, "sticker ", "");
    assert "sticker " + "omitted" + "" == "sticker omitted";
    PhraseImpliesOmitted(c, "document ", "");
    assert "document " + "omitted" + "" == "document omitted";
    PhraseImpliesOmitted(c, "gif ", "");
    assert "gif " + "omitted" + "" == "gif omitted";
  }

  /** The eight tests come down to one. */
  lemma MentionsOmittedIff(content: string)
    ensures MentionsOmitted(content) <==> Contains(LowerStr(content), "omitted")
  {
    PhrasesImplyOmitted(LowerStr(content));
  }

  /** The filter callback of `filteredChatData`, test by test. */
  predicate Shown(f: Filters, m: Message) {
    if f.hideTextMessages && m.mtype == Text then false
    else if f.hideMediaMessages && (m.mtype == Image || m.mtype == Video || m.mtype == Document) then false
    else if f.hideVoiceNotes && m.mtype == Audio then false
    else if f.hideDeletedMessages && m.mtype == Deleted then false
    else if f.hideSystemMessages && m.mtype == System then false
    else if f.hideMediaOmitted && MentionsOmitted(m.content) then false
    else true
  }

  function ShownUnder(f: Filters): Message -> bool {
    (m: Message) => Shown(f, m)
  }

  /** Why a message is hidden: its type is hidden by an active toggle, or the
      omitted toggle is on and its lower-cased content contains `omitted`. */
  lemma ShownIff(f: Filters, m: Message)
    ensures !Shown(f, m) <==>
              || (f.hideTextMessages && m.mtype == Text)
              || (f.hideMediaMessages && (m.mtype == Image || m.mtype == Video || m.mtype == Document))
              || (f.hideVoiceNotes && m.mtype == Audio)
              || (f.hideDeletedMessages && m.mtype == Deleted)
              || (f.hideSystemMessages && m.mtype == System)
              || (f.hideMediaOmitted && Contains(LowerStr(m.content), "omitted"))
  {
    MentionsOmittedIff(m.content);
  }

  /** The messages of `filteredChatData`. */
  function VisibleMessages(ms: seq<Message>, f: Filters): (r: seq<Message>)
    ensures forall m :: m in r <==> m in ms && Shown(f, m)
  {
    Filter(ms, ShownUnder(f))
  }

  /** The filter keeps the order and drops only hidden messages; with no
      toggle on, nothing is dropped. */
  lemma VisibleIsSubsequence(ms: seq<Message>, f: Filters)
    ensures IsSubsequence(VisibleMessages(ms, f), ms)
    ensures f == NoFilters ==> VisibleMessages(ms, f) == ms
  {
    FilterIsSubsequence(ms, ShownUnder(f));
    if f == NoFilters {
      FilterAll(ms, ShownUnder(f));
    }
  }

  // ---------------------------------------------------------------------------
  // Delete and edit

  const DeletedText := "This message was deleted"

  /** `handleDeleteMessage`: the message with the id becomes a deleted message;
      everything else is left as it was, its media file included. */
  function DeleteMessage(ms: seq<Message>, id: nat): (r: seq<Message>)
    ensures |r| == |ms|
    ensures forall k :: 0 <= k < |ms| && ms[k].id != id ==> r[k] == ms[k]
    ensures forall k :: 0 <= k < |ms| && ms[k].id == id ==>
              r[k].mtype == Deleted && r[k].content == DeletedText
              && r[k].(mtype := ms[k].mtype, content := ms[k].content) == ms[k]
  {
    seq(|ms|, k requires 0 <= k < |ms| =>
      if ms[k].id == id then ms[k].(mtype := Deleted, content := DeletedText) else ms[k])
  }

  /** `handleEditMessage`: the message with the id gets the new content. */
  function EditMessage(ms: seq<Message>, id: nat, content: string): (r: seq<Message>)
    ensures |r| == |ms|
    ensures forall k :: 0 <= k < |ms| && ms[k].id != id ==> r[k] == ms[k]
    ensures forall k :: 0 <= k < |ms| && ms[k].id == id ==>
              r[k].content == content && r[k].(content := ms[k].content) == ms[k]
  {
    seq(|ms|, k requires 0 <= k < |ms| => if ms[k].id == id then ms[k].(content := content) else ms[k])
  }

  /** Deleting twice is deleting once; of two edits the later one wins. */
  lemma DeleteEditLaws(ms: seq<Message>, id: nat, a: string, b: string)
    ensures DeleteMessage(DeleteMessage(ms, id), id) == DeleteMessage(ms, id)
    ensures EditMessage(EditMessage(ms, id, a), id, b) == EditMessage(ms, id, b)
    ensures EditMessage(DeleteMessage(ms, id), id, DeletedText) == DeleteMessage(ms, id)
  {
  }

  // ---------------------------------------------------------------------------
  // Export name

  /** The number of UTF-16 code units JavaScript counts for a character:
      two for one outside the Basic Multilingual Plane, one otherwise. */
  function CodeUnits(c: char): nat {
    if c as int >= 0x10000 then 2 else 1
  }

  /** The JavaScript `length` of a string. */
  function Utf16Length(s: string): (n: nat)
    ensures n >= |s|
  {
    if s == [] then 0 else CodeUnits(s[0]) + Utf16Length(s[1..])
  }

  /** What the pattern `[^a-z0-9]` with flags `gi` and no `u` flag does to
      one character: the regex works on code units, so a character outside
      the Basic Multilingual Plane (a surrogate pair) becomes two `_`. */
  function UnderscoreChar(c: char): (r: string)
    ensures |r| == CodeUnits(c)
  {
    if IsAsciiAlnum(c) then [c] else if c as int >= 0x10000 then "__" else "_"
  }

  /** `name.replace(/[^a-z0-9]/gi, '_')`. */
  function UnderscoreOthers(name: string): (r: string)
    ensures |r| == Utf16Length(name)
    ensures forall i :: 0 <= i < |r| ==> IsAsciiAlnum(r[i]) || r[i] == '_'
  {
    if name == [] then [] else UnderscoreChar(name[0]) + UnderscoreOthers(name[1..])
  }

  /** Within the Basic Multilingual Plane each character is one code unit,
      and the replacement works character by character. */
  lemma {:induction false} UnderscoreOthersBmp(name: string)
    requires forall i :: 0 <= i < |name| ==> name[i] as int < 0x10000
    ensures |UnderscoreOthers(name)| == |name|
    ensures forall i :: 0 <= i < |name| ==>
              UnderscoreOthers(name)[i] == (if IsAsciiAlnum(name[i]) then name[i] else '_')
  {
    if name != [] {
      UnderscoreOthersBmp(name[1..]);
      var r := UnderscoreOthers(name);
      assert r == UnderscoreChar(name[0]) + UnderscoreOthers(name[1..]);
      forall i | 0 <= i < |name|
        ensures r[i] == (if IsAsciiAlnum(name[i]) then name[i] else '_')
      {
        if i > 0 { assert r[i] == UnderscoreOthers(name[1..])[i - 1]; }
      }
    }
  }

  predicate IsNameChar(c: char) {
    'a' <= c <= 'z' || IsDigit(c) || c == '_'
  }

  /** `sanitizedName`: the chat name with every code unit outside
      `[A-Za-z0-9]` turned into `_`, then lower-cased. Its length is the
      JavaScript length of the name. */
  function SanitizedName(name: string): (r: string)
    ensures |r| == Utf16Length(name)
    ensures forall i :: 0 <= i < |r| ==> IsNameChar(r[i])
  {
    LowerStr(UnderscoreOthers(name))
  }

  /** For a name within the Basic Multilingual Plane, the sanitised name has
      one character per character: `_` exactly where the name has a
      character outside `[A-Za-z0-9]` or `_`, and the lower-cased letter or
      digit elsewhere. */
  lemma SanitizedNameBmp(name: string)
    requires forall i :: 0 <= i < |name| ==> name[i] as int < 0x10000
    ensures |SanitizedName(name)| == |name|
    ensures forall i :: 0 <= i < |name| ==>
              (SanitizedName(name)[i] == '_' <==> !IsAsciiAlnum(name[i]) || name[i] == '_')
    ensures forall i :: 0 <= i < |name| && IsAsciiAlnum(name[i]) ==>
              SanitizedName(name)[i] == Lower(name[i])
  {
    UnderscoreOthersBmp(name);
  }

  /** A character outside the Basic Multilingual Plane gives two `_`: an
      emoji in front of a name doubles its underscore. */
  lemma SanitizedNameEmojiExample()
    ensures SanitizedName("\U{1F600} Fam") == "___fam"
  {
    var u := UnderscoreOthers("\U{1F600} Fam");
    assert "\U{1F600} Fam"[1..] == " Fam";
    assert " Fam"[1..] == "Fam";
    assert "Fam"[1..] == "am";
    assert "am"[1..] == "m";
    assert "m"[1..] == "";
    assert u == "___Fam";
  }

  /** Sanitizing a sanitized name changes nothing. */
  lemma SanitizedNameIdempotent(name: string)
    ensures SanitizedName(SanitizedName(name)) == SanitizedName(name)
  {
    var r := SanitizedName(name);
    SanitizedNameBmp(r);
    forall i | 0 <= i < |r| ensures SanitizedName(r)[i] == r[i] {
      assert IsNameChar(r[i]);
    }
  }

  // ---------------------------------------------------------------------------
  // The component's state

  /** The state cells of `ChatViewer` that its logic reads and writes. */
  class Viewer {
    const chat: ChatData
    var modified: seq<Message>
    var defaultUser: string
    var query: string
    var replaceText: string
    var filters: Filters
    var current: nat

    /** The initial state: the parsed messages, the first participant (or
        nothing) as the chosen user, no query and no toggle on. */
    constructor(chatData: ChatData)
      ensures chat == chatData && modified == chatData.messages
      ensures defaultUser == (if |chatData.participants| > 0 then chatData.participants[0] else "")
      ensures query == "" && replaceText == "" && filters == NoFilters && current == 0
    {
      chat := chatData;
      modified := chatData.messages;
      defaultUser := if |chatData.participants| > 0 then chatData.participants[0] else "";
      query := "";
      replaceText := "";
      filters := NoFilters;
      current := 0;
    }

    function Processed(): seq<Message>
      reads this
    {
      ProcessedMessages(modified, defaultUser)
    }

    function Results(): seq<nat>
      reads this
    {
      SearchResults(Processed(), query)
    }

    function Highlighted(): Option<nat>
      reads this
    {
      Highlight(Processed(), Results(), current)
    }

    /** `filteredChatData`: the chat with only the shown messages. */
    function Filtered(): ChatData
      reads this
    {
      chat.(messages := VisibleMessages(Processed(), filters))
    }

    /** Typing a query: the effect on `searchQuery` resets the index. */
    method SetQuery(q: string)
      modifies this
      ensures query == q && current == 0
      ensures modified == old(modified) && defaultUser == old(defaultUser)
      ensures replaceText == old(replaceText) && filters == old(filters)
    {
      query := q;
      current := 0;
    }

    method SetDefaultUser(user: string)
      modifies this
      ensures defaultUser == user
      ensures modified == old(modified) && query == old(query) && replaceText == old(replaceText)
      ensures filters == old(filters) && current == old(current)
    {
      defaultUser := user;
    }

    method SetReplaceText(text: string)
      modifies this
      ensures replaceText == text
      ensures modified == old(modified) && defaultUser == old(defaultUser) && query == old(query)
      ensures filters == old(filters) && current == old(current)
    {
      replaceText := text;
    }

    method SetFilters(f: Filters)
      modifies this
      ensures filters == f
      ensures modified == old(modified) && defaultUser == old(defaultUser) && query == old(query)
      ensures replaceText == old(replaceText) && current == old(current)
    {
      filters := f;
    }

    /** The effect that resets an index left beyond the results. */
    method Settle()
      modifies this
      ensures current == Settled(old(current), |old(Results())|)
      ensures modified == old(modified) && defaultUser == old(defaultUser) && query == old(query)
      ensures replaceText == old(replaceText) && filters == old(filters)
    {
      var results := Search(Processed(), query);
      if |results| > 0 && current >= |results| {
        current := 0;
      }
    }

    method SearchNext()
      modifies this
      ensures current == NextIndex(old(current), |old(Results())|)
      ensures modified == old(modified) && defaultUser == old(defaultUser) && query == old(query)
      ensures replaceText == old(replaceText) && filters == old(filters)
    {
      var results := Search(Processed(), query);
      if |results| == 0 {
        return;
      }
      current := (current + 1) % |results|;
    }

    method SearchPrev()
      modifies this
      ensures current == PrevIndex(old(current), |old(Results())|)
      ensures modified == old(modified) && defaultUser == old(defaultUser) && query == old(query)
      ensures replaceText == old(replaceText) && filters == old(filters)
    {
      var results := Search(Processed(), query);
      if |results| == 0 {
        return;
      }
      current := (current - 1 + |results|) % |results|;
    }

    /** `handleFindReplace`: copy the messages and assign the one slot. */
    method FindReplace()
      modifies this
      ensures (modified, current) == ReplaceCurrent(old(modified), old(Results()), old(current), query, replaceText)
      ensures defaultUser == old(defaultUser) && query == old(query)
      ensures replaceText == old(replaceText) && filters == old(filters)
    {
      var results := Search(Processed(), query);
      if query == [] || |results| == 0 || current >= |results| || results[current] >= |modified| {
        return;
      }
      var messageIndex := results[current];
      var updated := modified;
      updated := updated[messageIndex := updated[messageIndex].(content :=
        ReplaceFirstCI(updated[messageIndex].content, query, replaceText))];
      modified := updated;
      if current < |results| - 1 {
        current := current + 1;
      }
    }

    method FindReplaceAll()
      modifies this
      ensures modified == ReplaceAllMessages(old(modified), query, replaceText)
      ensures defaultUser == old(defaultUser) && query == old(query) && replaceText == old(replaceText)
      ensures filters == old(filters) && current == old(current)
    {
      if query == [] {
        return;
      }
      modified := ReplaceAllMessages(modified, query, replaceText);
    }

    method Delete(id: nat)
      modifies this
      ensures modified == DeleteMessage(old(modified), id)
      ensures defaultUser == old(defaultUser) && query == old(query) && replaceText == old(replaceText)
      ensures filters == old(filters) && current == old(current)
    {
      modified := DeleteMessage(modified, id);
    }

    method Edit(id: nat, content: string)
      modifies this
      ensures modified == EditMessage(old(modified), id, content)
      ensures defaultUser == old(defaultUser) && query == old(query) && replaceText == old(replaceText)
      ensures filters == old(filters) && current == old(current)
    {
      modified := EditMessage(modified, id, content);
    }
  }
}
