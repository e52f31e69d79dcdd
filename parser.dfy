/** `parseWhatsAppChat` and `groupMessagesByDate` of
    src/lib/parser/whatsapp-parser.ts: the transcript is split into lines, each
    line is classified once, and a scan over the classified lines opens,
    extends and closes messages. The scan is defined one line at a time
    (`Run`), and the method that performs it is proved to compute it. */
module Parser {
  import opened Options
  import opened Strings
  import opened Sequences
  import opened ChatTypes
  import opened Timestamps
  import opened LineGrammar
  import opened Classifier

  /** What a line of the transcript is to the parser. */
  datatype LineKind =
    | Blank                 // only blanks: skipped
    | Dated(d: DatedLine, det: Detection) // a message pattern matched; what its body is
    | Notice(n: NoticeLine) // a sender-less pattern matched and the line has no ": "
    | Continuation          // anything else: more text for the open message

  function ClassifyLine(line: string): (k: LineKind)
    ensures k.Blank? <==> Trim(line) == []
    ensures k.Dated? <==> Trim(line) != [] && MatchMessageLine(line).Some?
    ensures k.Dated? ==> MatchMessageLine(line) == Some(k.d) && k.det == ClassifyBody(k.d.body)
    ensures k.Notice? <==> Trim(line) != [] && MatchMessageLine(line).None? && !Contains(line, ": ")
                           && MatchNoticeLine(line).Some?
    ensures k.Notice? ==> MatchNoticeLine(line) == Some(k.n)
  {
    if Trim(line) == [] then Blank
    else match MatchMessageLine(line)
      case Some(d) => Dated(d, ClassifyBody(d.body))
      case None =>
        if Contains(line, ": ") then Continuation
        else match MatchNoticeLine(line)
          case Some(n) => Notice(n)
          case None => Continuation
  }

  /** A line together with its kind. */
  type Classified = (string, LineKind)

  function ClassifyAll(lines: seq<string>): (r: seq<Classified>)
    ensures |r| == |lines|
    ensures forall i :: 0 <= i < |lines| ==> r[i] == (lines[i], ClassifyLine(lines[i]))
  {
    seq(|lines|, i requires 0 <= i < |lines| => (lines[i], ClassifyLine(lines[i])))
  }

  // ---------------------------------------------------------------------------
  // Building one message

  /** The file a detected name refers to: the first entry of the media map,
      in its iteration order, whose key links to the name; none when there is
      no name or no entry links to it. */
  function LinkedFile(media: MediaMap, name: Option<string>): (r: Option<MediaFile>)
    ensures name.None? ==> r.None?
    ensures r.Some? ==> name.Some? && exists i :: 0 <= i < |media| && r.value == media[i] && Links(media[i].name, name.value)
                                         && forall j :: 0 <= j < i ==> !Links(media[j].name, name.value)
    ensures name.Some? && r.None? ==> forall j :: 0 <= j < |media| ==> !Links(media[j].name, name.value)
  {
    match name
    case None => None
    case Some(ref) =>
      match FirstLinked(media, ref)
      case None => None
      case Some(i) => Some(media[i])
  }

  /** What the detection of a body promises: a file name only on media. */
  predicate DetectionOk(det: Detection) {
    det.mediaFileName.Some? ==> IsMediaType(det.mtype)
  }

  /** The message a dated line opens, given what its body was detected as. */
  function DatedMessage(d: DatedLine, det: Detection, line: string, id: nat, media: MediaMap): (m: Message)
    ensures m.id == id && m.rawLine == line && !m.isOutgoing
    ensures m.sender == Trim(d.sender) && m.content == Trim(d.body)
    ensures m.timestamp == ResolveTimestamp(d.token) && m.mtype == det.mtype
    ensures m.mediaFile == LinkedFile(media, det.mediaFileName)
    ensures det.mediaFileName.None? ==> m.mediaFile.None?
    ensures m.mediaFile.Some? ==> det.mediaFileName.Some? && m.mediaFile.value in media
                                    && Links(m.mediaFile.value.name, det.mediaFileName.value)
  {
    Message(id, ResolveTimestamp(d.token), Trim(d.sender), Trim(d.body), det.mtype,
            LinkedFile(media, det.mediaFileName), false, line)
  }

  /** The message a sender-less line opens. */
  function NoticeMessage(n: NoticeLine, line: string, id: nat): (m: Message)
    ensures m.id == id && m.rawLine == line && !m.isOutgoing
    ensures m.sender == "System" && m.mtype == System && m.mediaFile.None?
    ensures m.content == Trim(n.body) && m.timestamp == ResolveTimestamp(n.token)
  {
    Message(id, ResolveTimestamp(n.token), "System", Trim(n.body), System, None, false, line)
  }

  // ---------------------------------------------------------------------------
  // The scan

  /** The state of the scan: the closed messages, the open one, the next id
      and every sender name seen on a dated line, in order. */
  datatype Scan = Scan(done: seq<Message>, current: Option<Message>, nextId: nat, senders: seq<string>)

  /** The messages of a state once the open one is closed. */
  function Flushed(st: Scan): (ms: seq<Message>)
    ensures |ms| == |st.done| + (if st.current.Some? then 1 else 0)
    ensures forall k :: 0 <= k < |st.done| ==> ms[k] == st.done[k]
  {
    if st.current.Some? then st.done + [st.current.value] else st.done
  }

  function Step(st: Scan, c: Classified, media: MediaMap): Scan {
    match c.1
    case Blank => st
    case Continuation =>
      if st.current.None? then st
      else st.(current := Some(st.current.value.(content := st.current.value.content + "\n" + c.0)))
    case Dated(d, det) =>
      Scan(Flushed(st), Some(DatedMessage(d, det, c.0, st.nextId, media)), st.nextId + 1, st.senders + [Trim(d.sender)])
    case Notice(n) =>
      Scan(Flushed(st), Some(NoticeMessage(n, c.0, st.nextId)), st.nextId + 1, st.senders)
  }

  function Run(st: Scan, cs: seq<Classified>, media: MediaMap): Scan
    decreases |cs|
  {
    if cs == [] then st else Step(Run(st, cs[..|cs| - 1], media), cs[|cs| - 1], media)
  }

  /** The state before the first line. */
  function Initial(firstId: nat): Scan {
    Scan([], None, firstId, [])
  }

  /** Scanning a concatenation is scanning one part after the other. */
  lemma {:induction false} RunConcat(st: Scan, a: seq<Classified>, b: seq<Classified>, media: MediaMap)
    ensures Run(st, a + b, media) == Run(Run(st, a, media), b, media)
    decreases |b|
  {
    if b == [] {
      assert a + b == a;
    } else {
      assert (a + b)[..|a + b| - 1] == a + b[..|b| - 1];
      RunConcat(st, a, b[..|b| - 1], media);
    }
  }

  /** Text before the first message line is dropped: from a state with no open
      message, blank and continuation lines leave the state as it was. */
  lemma {:induction false} LeadingLinesDropped(st: Scan, cs: seq<Classified>, media: MediaMap)
    requires st.current.None?
    requires forall i :: 0 <= i < |cs| ==> cs[i].1.Blank? || cs[i].1.Continuation?
    ensures Run(st, cs, media) == st
    decreases |cs|
  {
    if cs != [] {
      LeadingLinesDropped(st, cs[..|cs| - 1], media);
    }
  }

  /** A continuation line adds `"\n" + line` to the open message and changes
      nothing else. */
  lemma ContinuationExtends(st: Scan, line: string, media: MediaMap)
    requires st.current.Some?
    ensures var ms := Flushed(Step(st, (line, Continuation), media));
            var old_ms := Flushed(st);
            && |ms| == |old_ms|
            && ms[..|ms| - 1] == old_ms[..|old_ms| - 1]
            && ms[|ms| - 1] == old_ms[|old_ms| - 1].(content := old_ms[|old_ms| - 1].content + "\n" + line)
  {
  }

  /** The number of lines that open a message. */
  function Opening(cs: seq<Classified>): (n: nat)
    ensures n <= |cs|
  {
    if cs == [] then 0
    else Opening(cs[..|cs| - 1]) + (if cs[|cs| - 1].1.Dated? || cs[|cs| - 1].1.Notice? then 1 else 0)
  }

  /** An attached file comes from the media map and sits on a media message. */
  predicate MediaOk(m: Message, media: MediaMap) {
    m.mediaFile.Some? ==> m.mediaFile.value in media && IsMediaType(m.mtype)
  }

  /** What the scan keeps true: ids are consecutive from `firstId` and every
      attached file is one of the media map. */
  predicate Good(st: Scan, firstId: nat, media: MediaMap) {
    var ms := Flushed(st);
    st.nextId == firstId + |ms| && GoodMessages(ms, firstId, media)
  }

  predicate GoodMessages(ms: seq<Message>, firstId: nat, media: MediaMap) {
    forall k :: 0 <= k < |ms| ==> ms[k].id == firstId + k && MediaOk(ms[k], media)
  }

  lemma GoodAppend(ms: seq<Message>, m: Message, firstId: nat, media: MediaMap)
    requires GoodMessages(ms, firstId, media) && m.id == firstId + |ms| && MediaOk(m, media)
    ensures GoodMessages(ms + [m], firstId, media)
  {
    forall k | 0 <= k < |ms| + 1
      ensures (ms + [m])[k].id == firstId + k && MediaOk((ms + [m])[k], media)
    {
      if k < |ms| { assert (ms + [m])[k] == ms[k]; }
    }
  }

  /** A dated line's detection keeps its promise. */
  predicate KindOk(c: Classified) {
    c.1.Dated? ==> DetectionOk(c.1.det)
  }

  lemma ClassifyAllOk(lines: seq<string>)
    ensures forall i :: 0 <= i < |lines| ==> KindOk(ClassifyAll(lines)[i])
  {
    forall i | 0 <= i < |lines| ensures KindOk(ClassifyAll(lines)[i]) {
      var k := ClassifyLine(lines[i]);
      if k.Dated? {
        assert DetectionOk(ClassifyBody(k.d.body));
      }
    }
  }

  lemma StepGood(st: Scan, c: Classified, media: MediaMap, firstId: nat)
    requires Good(st, firstId, media) && KindOk(c)
    ensures Good(Step(st, c, media), firstId, media)
    ensures |Flushed(Step(st, c, media))| == |Flushed(st)| + (if c.1.Dated? || c.1.Notice? then 1 else 0)
  {
    var ms := Flushed(st);
    match c.1
    case Blank =>
    case Continuation =>
      if st.current.Some? {
        ContinuationGood(st, c.0, media, firstId);
      }
    case Dated(d, det) =>
      var m := DatedMessage(d, det, c.0, st.nextId, media);
      GoodAppend(ms, m, firstId, media);
      assert Flushed(Step(st, c, media)) == ms + [m];
    case Notice(n) =>
      var m := NoticeMessage(n, c.0, st.nextId);
      GoodAppend(ms, m, firstId, media);
      assert Flushed(Step(st, c, media)) == ms + [m];
  }

  lemma ContinuationGood(st: Scan, line: string, media: MediaMap, firstId: nat)
    requires st.current.Some? && Good(st, firstId, media)
    ensures Good(Step(st, (line, Continuation), media), firstId, media)
  {
    var ms := Flushed(st);
    var ms' := Flushed(Step(st, (line, Continuation), media));
    ContinuationExtends(st, line, media);
    forall k | 0 <= k < |ms'|
      ensures ms'[k].id == firstId + k && MediaOk(ms'[k], media)
    {
      if k < |ms'| - 1 {
        assert ms'[k] == ms'[..|ms'| - 1][k];
      }
    }
  }

  /** One message per opening line, ids consecutive from `firstId`, the next
      id just past the last, and only files of the media map attached. */
  lemma {:induction false} RunGood(cs: seq<Classified>, media: MediaMap, firstId: nat)
    requires forall i :: 0 <= i < |cs| ==> KindOk(cs[i])
    ensures Good(Run(Initial(firstId), cs, media), firstId, media)
    ensures |Flushed(Run(Initial(firstId), cs, media))| == Opening(cs)
    decreases |cs|
  {
    if cs != [] {
      var cs' := cs[..|cs| - 1];
      RunGood(cs', media, firstId);
      StepGood(Run(Initial(firstId), cs', media), cs[|cs| - 1], media, firstId);
    }
  }

  /** The number of messages in `ms` sent under the name `x`. */
  function SentBy(ms: seq<Message>, x: string): (n: nat)
    ensures n <= |ms|
  {
    if ms == [] then 0 else SentBy(ms[..|ms| - 1], x) + (if ms[|ms| - 1].sender == x then 1 else 0)
  }

  lemma SentByAppend(ms: seq<Message>, m: Message, x: string)
    ensures SentBy(ms + [m], x) == SentBy(ms, x) + (if m.sender == x then 1 else 0)
  {
    assert (ms + [m])[..|ms|] == ms;
  }

  lemma {:induction false} SentByPositive(ms: seq<Message>, x: string)
    ensures SentBy(ms, x) > 0 <==> exists k :: 0 <= k < |ms| && ms[k].sender == x
  {
    if ms != [] {
      var ms' := ms[..|ms| - 1];
      SentByPositive(ms', x);
      if SentBy(ms', x) > 0 {
        var k :| 0 <= k < |ms'| && ms'[k].sender == x;
        assert ms[k] == ms'[k];
      }
      if exists k :: 0 <= k < |ms| && ms[k].sender == x {
        var k :| 0 <= k < |ms| && ms[k].sender == x;
        if k < |ms'| { assert ms'[k] == ms[k]; }
      }
    }
  }

  lemma CountAppend(s: seq<string>, y: string, x: string)
    ensures Count(s + [y], x) == Count(s, x) + (if y == x then 1 else 0)
  {
    assert (s + [y])[..|s|] == s;
  }

  /** The per-sender tally of the source (`senderMessageCounts`) counts
      messages: for every name other than `System`, the number of dated lines
      under that name is the number of messages with that sender. */
  lemma {:induction false} CountsAreMessageCounts(cs: seq<Classified>, media: MediaMap, firstId: nat, x: string)
    requires x != "System"
    ensures var st := Run(Initial(firstId), cs, media);
            Count(st.senders, x) == SentBy(Flushed(st), x)
    decreases |cs|
  {
    if cs != [] {
      var cs' := cs[..|cs| - 1];
      CountsAreMessageCounts(cs', media, firstId, x);
      var st' := Run(Initial(firstId), cs', media);
      var st := Run(Initial(firstId), cs, media);
      match cs[|cs| - 1].1
      case Blank =>
      case Continuation =>
        if st'.current.Some? {
          SentByAppend(st'.done, st'.current.value, x);
          SentByAppend(st'.done, st.current.value, x);
        }
      case Dated(d, det) =>
        SentByAppend(Flushed(st'), st.current.value, x);
        CountAppend(st'.senders, Trim(d.sender), x);
      case Notice(n) =>
        SentByAppend(Flushed(st'), st.current.value, x);
    }
  }

  // ---------------------------------------------------------------------------
  // The current user

  /** The loop over `senderMessageCounts` in insertion order: the first name
      whose count is strictly greater than every count before it wins. */
  function MaxScan(order: seq<string>, senders: seq<string>): (r: (Option<string>, nat))
    ensures r.0.Some? ==> r.0.value in order && Count(senders, r.0.value) == r.1
    ensures forall x :: x in order ==> Count(senders, x) <= r.1
    ensures r.0.None? ==> r.1 == 0
  {
    if order == [] then (None, 0)
    else
      var (b, mx) := MaxScan(order[..|order| - 1], senders);
      var x := order[|order| - 1];
      assert forall y :: y in order ==> y in order[..|order| - 1] || y == x;
      var c := Count(senders, x);
      if c > mx then (Some(x), c) else (b, mx)
  }

  /** The winner is the first name, in map order, with the highest count. */
  lemma {:induction false} MaxScanFirst(order: seq<string>, senders: seq<string>, k: nat)
    requires k < |order| && MaxScan(order, senders).0 == Some(order[k]) && AllDistinct(order)
    ensures forall j :: 0 <= j < k ==> Count(senders, order[j]) < Count(senders, order[k])
  {
    var n := |order|;
    var pre := order[..n - 1];
    if k == n - 1 {
      assert forall j :: 0 <= j < k ==> order[j] in pre;
    } else {
      assert MaxScan(pre, senders).0 == Some(order[k]);
      assert pre[k] == order[k];
      MaxScanFirst(pre, senders, k);
      assert forall j :: 0 <= j < k ==> pre[j] == order[j];
    }
  }

  /** `currentUser`: the hint unless it is missing or empty, otherwise the
      sender the tally loop picks, otherwise the hint again. */
  function CurrentUser(hint: Option<string>, order: seq<string>, senders: seq<string>): (r: Option<string>)
    ensures hint.Some? && hint.value != "" ==> r == hint
    ensures (hint.None? || hint.value == "") && MaxScan(order, senders).0.Some?
            ==> r == MaxScan(order, senders).0
    ensures (hint.None? || hint.value == "") && MaxScan(order, senders).0.None? ==> r == hint
  {
    if hint.Some? && hint.value != "" then hint
    else match MaxScan(order, senders).0
      case Some(b) => Some(b)
      case None => hint
  }

  /** Without a usable hint, the current user is a sender with the most
      dated lines. */
  lemma MostActiveIsCurrentUser(hint: Option<string>, senders: seq<string>)
    requires hint.None? || hint.value == ""
    requires senders != []
    ensures var cu := CurrentUser(hint, Distinct(senders), senders);
            && cu.Some? && cu.value in senders
            && (forall x :: x in senders ==> Count(senders, x) <= Count(senders, cu.value))
  {
    var order := Distinct(senders);
    assert senders[0] in order;
  }

  /** Ties go to the name that spoke first: every sender who first spoke
      before the current user has strictly fewer dated lines. */
  lemma FirstMostActive(hint: Option<string>, senders: seq<string>, k: nat)
    requires hint.None? || hint.value == ""
    requires senders != []
    requires k < |Distinct(senders)| && CurrentUser(hint, Distinct(senders), senders) == Some(Distinct(senders)[k])
    ensures forall j :: 0 <= j < k ==>
              Count(senders, Distinct(senders)[j]) < Count(senders, Distinct(senders)[k])
  {
    var order := Distinct(senders);
    assert senders[0] in order;
    MaxScanFirst(order, senders, k);
  }

  /** The loop of the source over the tally, in its insertion order. */
  method PickCurrentUser(hint: Option<string>, order: seq<string>, counts: map<string, nat>,
                         ghost senders: seq<string>)
    returns (cu: Option<string>)
    requires forall x :: x in order ==> x in counts && counts[x] == Count(senders, x)
    ensures cu == CurrentUser(hint, order, senders)
  {
    cu := hint;
    if hint.Some? && hint.value != "" {
      return;
    }
    var maxCount := 0;
    var i := 0;
    while i < |order|
      invariant 0 <= i <= |order|
      invariant MaxScan(order[..i], senders).1 == maxCount
      invariant cu == (match MaxScan(order[..i], senders).0 case Some(b) => Some(b) case None => hint)
    {
      assert order[..i + 1][..i] == order[..i];
      if counts[order[i]] > maxCount {
        maxCount := counts[order[i]];
        cu := Some(order[i]);
      }
      i := i + 1;
    }
    assert order[..i] == order;
  }

  // ---------------------------------------------------------------------------
  // Outgoing flags, participants, chat name

  function MarkedOutgoing(ms: seq<Message>, cu: Option<string>): (r: seq<Message>)
    ensures |r| == |ms|
    ensures forall k :: 0 <= k < |ms| ==> r[k] == ms[k].(isOutgoing := cu == Some(ms[k].sender))
  {
    seq(|ms|, k requires 0 <= k < |ms| => ms[k].(isOutgoing := cu == Some(ms[k].sender)))
  }

  /** The loop that sets `isOutgoing` on every message. */
  method MarkOutgoing(ms: seq<Message>, cu: Option<string>) returns (r: seq<Message>)
    ensures r == MarkedOutgoing(ms, cu)
  {
    r := ms;
    var i := 0;
    while i < |r|
      invariant 0 <= i <= |r| == |ms|
      invariant forall k :: 0 <= k < i ==> r[k] == ms[k].(isOutgoing := cu == Some(ms[k].sender))
      invariant forall k :: i <= k < |r| ==> r[k] == ms[k]
    {
      r := r[i := r[i].(isOutgoing := cu == Some(r[i].sender))];
      i := i + 1;
    }
  }

  function NotSystem(p: string): bool { p != "System" }

  /** `participants.find(p => p !== currentUser) || participants[0]` for two
      participants, the group name for more, the default otherwise. */
  function ChatName(participants: seq<string>, cu: Option<string>): (r: string)
    ensures |participants| < 2 ==> r == "WhatsApp Chat"
    ensures |participants| > 2 ==> r == "Group Chat (" + NatToString(|participants|) + " participants)"
    ensures |participants| == 2 ==> r in participants
    ensures (|participants| == 2 && Some(participants[0]) != cu && participants[0] != "")
            ==> r == participants[0]
    ensures (|participants| == 2 && Some(participants[0]) == cu && Some(participants[1]) != cu
             && participants[1] != "")
            ==> r == participants[1]
    ensures (|participants| == 2 && Some(participants[0]) != cu && participants[0] == "")
            ==> r == ""
    ensures (|participants| == 2 && Some(participants[0]) == cu
             && (Some(participants[1]) == cu || participants[1] == ""))
            ==> r == participants[0]
  {
    if |participants| == 2 then
      var found :=
        if Some(participants[0]) != cu then Some(participants[0])
        else if Some(participants[1]) != cu then Some(participants[1])
        else None;
      if found.Some? && found.value != "" then found.value else participants[0]
    else if |participants| > 2 then "Group Chat (" + NatToString(|participants|) + " participants)"
    else "WhatsApp Chat"
  }

  // ---------------------------------------------------------------------------
  // The whole parse as a function, and the method that computes it

  /** The chat built from the final scan state, and the id counter after it. */
  function Assemble(st: Scan, media: MediaMap, hint: Option<string>): (r: (ChatData, nat)) {
    var order := Distinct(st.senders);
    var cu := CurrentUser(hint, order, st.senders);
    var ms := MarkedOutgoing(Flushed(st), cu);
    var participants := Filter(order, NotSystem);
    (ChatData(ms, participants, media, ChatName(participants, cu),
              if ms != [] then Some(ms[0].timestamp) else None,
              if ms != [] then Some(ms[|ms| - 1].timestamp) else None,
              |ms|),
     st.nextId)
  }

  function ParseChat(chatText: string, media: MediaMap, hint: Option<string>, firstId: nat): (r: (ChatData, nat)) {
    Assemble(Run(Initial(firstId), ClassifyAll(Split(chatText, '\n')), media), media, hint)
  }

  /** The properties of a parse result. They hold for any sequence of
      classified lines, so in particular for the lines of any transcript. */
  lemma ParseProperties(cs: seq<Classified>, media: MediaMap, hint: Option<string>, firstId: nat)
    requires forall i :: 0 <= i < |cs| ==> KindOk(cs[i])
    ensures var (data, nextId) := Assemble(Run(Initial(firstId), cs, media), media, hint);
            var ms := data.messages;
            && data.messageCount == |ms| == Opening(cs)
            && nextId == firstId + |ms|
            && (forall k :: 0 <= k < |ms| ==> ms[k].id == firstId + k && MediaOk(ms[k], media))
            && (ms == [] <==> data.startDate.None?)
            && (ms != [] ==> data.startDate == Some(ms[0].timestamp) && data.endDate == Some(ms[|ms| - 1].timestamp))
            && "System" !in data.participants
            && AllDistinct(data.participants)
            && data.mediaFiles == media
  {
    var st := Run(Initial(firstId), cs, media);
    RunGood(cs, media, firstId);
    var cu := CurrentUser(hint, Distinct(st.senders), st.senders);
    MarkedGood(Flushed(st), cu, firstId, media);
    FilterKeepsDistinct(Distinct(st.senders), NotSystem);
  }

  lemma MarkedGood(ms: seq<Message>, cu: Option<string>, firstId: nat, media: MediaMap)
    requires GoodMessages(ms, firstId, media)
    ensures GoodMessages(MarkedOutgoing(ms, cu), firstId, media)
  {
    var r := MarkedOutgoing(ms, cu);
    forall k | 0 <= k < |r| ensures r[k].id == firstId + k && MediaOk(r[k], media) {
      assert r[k].id == ms[k].id && r[k].mediaFile == ms[k].mediaFile && r[k].mtype == ms[k].mtype;
    }
  }

  lemma {:induction false} FilterKeepsDistinct(s: seq<string>, p: string -> bool)
    requires AllDistinct(s)
    ensures AllDistinct(Filter(s, p))
  {
    if s != [] {
      var s' := s[..|s| - 1];
      FilterKeepsDistinct(s', p);
      assert s[|s| - 1] !in s';
    }
  }

  /** A participant is a name other than `System` that sent at least one
      message, and a message is outgoing exactly when its sender is the
      current user. */
  lemma ParticipantsAreSenders(cs: seq<Classified>, media: MediaMap, hint: Option<string>, firstId: nat, x: string)
    ensures var st := Run(Initial(firstId), cs, media);
            var data := Assemble(st, media, hint).0;
            x in data.participants <==>
              x != "System" && exists k :: 0 <= k < |data.messages| && data.messages[k].sender == x
  {
    var st := Run(Initial(firstId), cs, media);
    var data := Assemble(st, media, hint).0;
    if x != "System" {
      CountsAreMessageCounts(cs, media, firstId, x);
      SentByPositive(Flushed(st), x);
      if exists k :: 0 <= k < |data.messages| && data.messages[k].sender == x {
        var k :| 0 <= k < |data.messages| && data.messages[k].sender == x;
        assert Flushed(st)[k].sender == x;
      } else {
        forall k | 0 <= k < |Flushed(st)| ensures Flushed(st)[k].sender != x {
          assert data.messages[k].sender == Flushed(st)[k].sender;
        }
      }
    }
  }

  /** The participant set and the tally the source keeps beside the scan. */
  ghost predicate Tally(participantSet: seq<string>, counts: map<string, nat>, senders: seq<string>) {
    && participantSet == Distinct(senders)
    && (forall x :: x in counts <==> x in senders)
    && (forall x :: x in counts ==> counts[x] == Count(senders, x))
  }

  /** `participantSet.add(senderName)` and the tally increment. */
  method RecordSender(participantSet: seq<string>, counts: map<string, nat>, ghost senders: seq<string>, name: string)
    returns (participantSet': seq<string>, counts': map<string, nat>)
    requires Tally(participantSet, counts, senders)
    ensures Tally(participantSet', counts', senders + [name])
  {
    participantSet' := participantSet;
    if name !in counts {
      participantSet' := participantSet + [name];
    }
    assert (senders + [name])[..|senders|] == senders;
    counts' := counts[name := (if name in counts then counts[name] else 0) + 1];
    forall x | x in counts' ensures counts'[x] == Count(senders + [name], x) {
      CountAppend(senders, name, x);
    }
  }

  /** The message a dated line opens, with the lookup loop over the media map. */
  method OpenDated(d: DatedLine, det: Detection, line: string, id: nat, media: MediaMap) returns (msg: Message)
    ensures msg == DatedMessage(d, det, line, id, media)
  {
    var mediaFile: Option<MediaFile> := None;
    if det.mediaFileName.Some? {
      mediaFile := FindMediaFile(media, det.mediaFileName.value);
    }
    msg := Message(id, ResolveTimestamp(d.token), Trim(d.sender), Trim(d.body), det.mtype,
                   mediaFile, false, line);
  }

  /** The body of the loop over lines, for a line of the given kind. */
  method ProcessLine(messages: seq<Message>, current: Option<Message>, nextId: nat,
                     participantSet: seq<string>, counts: map<string, nat>, ghost senders: seq<string>,
                     line: string, kind: LineKind, media: MediaMap)
    returns (messages': seq<Message>, current': Option<Message>, nextId': nat,
             participantSet': seq<string>, counts': map<string, nat>, ghost senders': seq<string>)
    requires Tally(participantSet, counts, senders)
    ensures Scan(messages', current', nextId', senders')
            == Step(Scan(messages, current, nextId, senders), (line, kind), media)
    ensures Tally(participantSet', counts', senders')
  {
    messages', current', nextId', participantSet', counts', senders' :=
      messages, current, nextId, participantSet, counts, senders;
    ghost var st := Scan(messages, current, nextId, senders);
    match kind {
      case Blank =>
      case Continuation =>
        if current.Some? {
          current' := Some(current.value.(content := current.value.content + "\n" + line));
        }
      case Dated(d, det) =>
        if current.Some? {
          messages' := messages + [current.value];
        }
        assert messages' == Flushed(st);
        participantSet', counts' := RecordSender(participantSet, counts, senders, Trim(d.sender));
        senders' := senders + [Trim(d.sender)];
        var msg := OpenDated(d, det, line, nextId, media);
        current' := Some(msg);
        nextId' := nextId + 1;
        StepDated(st, line, d, det, media);
      case Notice(n) =>
        if current.Some? {
          messages' := messages + [current.value];
        }
        assert messages' == Flushed(st);
        current' := Some(NoticeMessage(n, line, nextId));
        nextId' := nextId + 1;
        StepNotice(st, line, n, media);
    }
  }

  lemma StepDated(st: Scan, line: string, d: DatedLine, det: Detection, media: MediaMap)
    ensures Step(st, (line, Dated(d, det)), media)
            == Scan(Flushed(st), Some(DatedMessage(d, det, line, st.nextId, media)), st.nextId + 1,
                    st.senders + [Trim(d.sender)])
  {
  }

  lemma StepNotice(st: Scan, line: string, n: NoticeLine, media: MediaMap)
    ensures Step(st, (line, Notice(n)), media)
            == Scan(Flushed(st), Some(NoticeMessage(n, line, st.nextId)), st.nextId + 1, st.senders)
  {
  }

  /** The loop of `parseWhatsAppChat` over the lines, with the open message,
      the participant set and the tally as variables. How a line is classified
      depends on that line alone, so the lines arrive already classified. */
  method ScanLines(cs: seq<Classified>, media: MediaMap, firstId: nat)
    returns (messages: seq<Message>, current: Option<Message>, nextId: nat,
             participantSet: seq<string>, counts: map<string, nat>, ghost senders: seq<string>)
    ensures Run(Initial(firstId), cs, media) == Scan(messages, current, nextId, senders)
    ensures Tally(participantSet, counts, senders)
  {
    messages, current, nextId := [], None, firstId;
    participantSet, counts, senders := [], map[], [];
    var i := 0;
    while i < |cs|
      invariant 0 <= i <= |cs|
      invariant Run(Initial(firstId), cs[..i], media) == Scan(messages, current, nextId, senders)
      invariant Tally(participantSet, counts, senders)
    {
      assert cs[..i + 1][..i] == cs[..i];
      messages, current, nextId, participantSet, counts, senders :=
        ProcessLine(messages, current, nextId, participantSet, counts, senders, cs[i].0, cs[i].1, media);
      i := i + 1;
    }
    assert cs[..i] == cs;
  }

  /** `parseWhatsAppChat`: the scan, the last message closed, then the
      current user, the outgoing flags, the participants and the chat name. */
  method ParseWhatsAppChat(chatText: string, media: MediaMap, hint: Option<string>, firstId: nat)
    returns (data: ChatData, nextId: nat)
    ensures (data, nextId) == ParseChat(chatText, media, hint, firstId)
  {
    var messages, current, participantSet, counts;
    ghost var senders;
    messages, current, nextId, participantSet, counts, senders := ScanLines(ClassifyAll(Split(chatText, '\n')), media, firstId);
    ghost var st := Scan(messages, current, nextId, senders);
    if current.Some? {
      messages := messages + [current.value];
    }
    assert messages == Flushed(st);
    var currentUser := PickCurrentUser(hint, participantSet, counts, senders);
    messages := MarkOutgoing(messages, currentUser);
    var participants := Filter(participantSet, NotSystem);
    var chatName := ChatName(participants, currentUser);
    data := ChatData(messages, participants, media, chatName,
                     if |messages| > 0 then Some(messages[0].timestamp) else None,
                     if |messages| > 0 then Some(messages[|messages| - 1].timestamp) else None,
                     |messages|);
  }

  // ---------------------------------------------------------------------------
  // groupMessagesByDate

  /** A day and its messages, in order. */
  datatype DateGroup = DateGroup(date: DayKey, messages: seq<Message>)

  function DaysOf(ms: seq<Message>): (r: seq<DayKey>)
    ensures |r| == |ms| && forall k :: 0 <= k < |ms| ==> r[k] == DayOf(ms[k].timestamp)
  {
    seq(|ms|, k requires 0 <= k < |ms| => DayOf(ms[k].timestamp))
  }

  function GroupKeys(gs: seq<DateGroup>): (r: seq<DayKey>)
    ensures |r| == |gs| && forall k :: 0 <= k < |gs| ==> r[k] == gs[k].date
  {
    seq(|gs|, k requires 0 <= k < |gs| => gs[k].date)
  }

  function OnDay(day: DayKey): Message -> bool {
    (m: Message) => DayOf(m.timestamp) == day
  }

  function HasDay(day: DayKey): DateGroup -> bool {
    (g: DateGroup) => g.date == day
  }

  /** The loop body of the source: a message goes to the group of its day,
      which is created at the end if the day has none yet. */
  function AddToGroups(gs: seq<DateGroup>, m: Message): (r: seq<DateGroup>) {
    var day := DayOf(m.timestamp);
    match FirstIndex(gs, HasDay(day))
    case Some(i) => gs[i := gs[i].(messages := gs[i].messages + [m])]
    case None => gs + [DateGroup(day, [m])]
  }

  /** The groups of `ms`: the source's map, kept as a sequence in insertion order. */
  function Groups(ms: seq<Message>): (gs: seq<DateGroup>) {
    if ms == [] then [] else AddToGroups(Groups(ms[..|ms| - 1]), ms[|ms| - 1])
  }

  /** Each group holds exactly the messages of its day, in order. */
  predicate GroupsHold(gs: seq<DateGroup>, ms: seq<Message>) {
    forall i :: 0 <= i < |gs| ==> gs[i].messages == Filter(ms, OnDay(gs[i].date))
  }

  /** One group per day, in order of each day's first message, holding that
      day's messages in their original order. */
  lemma {:induction false} GroupsSpec(ms: seq<Message>)
    ensures GroupKeys(Groups(ms)) == Distinct(DaysOf(ms))
    ensures GroupsHold(Groups(ms), ms)
  {
    if ms != [] {
      var ms' := ms[..|ms| - 1];
      GroupsSpec(ms');
      AddKeeps(Groups(ms'), ms', ms[|ms| - 1]);
      assert ms' + [ms[|ms| - 1]] == ms;
    }
  }

  /** Adding one message keeps the groups the groups of the longer list. */
  lemma AddKeeps(gs: seq<DateGroup>, ms: seq<Message>, m: Message)
    requires GroupKeys(gs) == Distinct(DaysOf(ms)) && GroupsHold(gs, ms)
    ensures GroupKeys(AddToGroups(gs, m)) == Distinct(DaysOf(ms + [m]))
    ensures GroupsHold(AddToGroups(gs, m), ms + [m])
  {
    var day := DayOf(m.timestamp);
    var ms1 := ms + [m];
    assert ms1[..|ms1| - 1] == ms;
    assert DaysOf(ms1)[..|ms1| - 1] == DaysOf(ms);
    match FirstIndex(gs, HasDay(day))
    case Some(i) =>
      AddJoins(gs, ms, m, i);
    case None =>
      AddOpens(gs, ms, m);
  }

  lemma AddJoins(gs: seq<DateGroup>, ms: seq<Message>, m: Message, i: nat)
    requires GroupKeys(gs) == Distinct(DaysOf(ms)) && GroupsHold(gs, ms)
    requires i < |gs| && gs[i].date == DayOf(m.timestamp)
    requires AddToGroups(gs, m) == gs[i := gs[i].(messages := gs[i].messages + [m])]
    requires DaysOf(ms + [m])[..|ms|] == DaysOf(ms)
    ensures GroupKeys(AddToGroups(gs, m)) == Distinct(DaysOf(ms + [m]))
    ensures GroupsHold(AddToGroups(gs, m), ms + [m])
  {
    var day := DayOf(m.timestamp);
    var r := AddToGroups(gs, m);
    DaysSnoc(ms, m);
    DistinctSnoc(DaysOf(ms), day);
    assert GroupKeys(gs)[i] == day;
    JoinedKeys(gs, i, gs[i].messages + [m]);
    JoinedHold(gs, ms, m, i);
  }

  lemma DaysSnoc(ms: seq<Message>, m: Message)
    ensures DaysOf(ms + [m]) == DaysOf(ms) + [DayOf(m.timestamp)]
  {
  }

  lemma JoinedKeys(gs: seq<DateGroup>, i: nat, ms: seq<Message>)
    requires i < |gs|
    ensures GroupKeys(gs[i := gs[i].(messages := ms)]) == GroupKeys(gs)
  {
  }

  lemma JoinedHold(gs: seq<DateGroup>, ms: seq<Message>, m: Message, i: nat)
    requires AllDistinct(GroupKeys(gs)) && GroupsHold(gs, ms)
    requires i < |gs| && gs[i].date == DayOf(m.timestamp)
    ensures GroupsHold(gs[i := gs[i].(messages := gs[i].messages + [m])], ms + [m])
  {
    var r := gs[i := gs[i].(messages := gs[i].messages + [m])];
    forall j | 0 <= j < |r| ensures r[j].messages == Filter(ms + [m], OnDay(r[j].date)) {
      FilterSnoc(ms, m, OnDay(r[j].date));
      if j != i {
        assert GroupKeys(gs)[j] != GroupKeys(gs)[i];
      }
    }
  }

  lemma FilterSnoc(ms: seq<Message>, m: Message, p: Message -> bool)
    ensures Filter(ms + [m], p) == Filter(ms, p) + (if p(m) then [m] else [])
  {
    assert (ms + [m])[..|ms|] == ms;
  }

  lemma AddOpens(gs: seq<DateGroup>, ms: seq<Message>, m: Message)
    requires GroupKeys(gs) == Distinct(DaysOf(ms)) && GroupsHold(gs, ms)
    requires forall j :: 0 <= j < |gs| ==> gs[j].date != DayOf(m.timestamp)
    requires AddToGroups(gs, m) == gs + [DateGroup(DayOf(m.timestamp), [m])]
    requires DaysOf(ms + [m])[..|ms|] == DaysOf(ms)
    ensures GroupKeys(AddToGroups(gs, m)) == Distinct(DaysOf(ms + [m]))
    ensures GroupsHold(AddToGroups(gs, m), ms + [m])
  {
    var day := DayOf(m.timestamp);
    var r := AddToGroups(gs, m);
    assert day !in Distinct(DaysOf(ms)) by {
      assert forall j :: 0 <= j < |gs| ==> GroupKeys(gs)[j] != day;
    }
    assert GroupKeys(r) == GroupKeys(gs) + [day];
    forall j | 0 <= j < |r| ensures r[j].messages == Filter(ms + [m], OnDay(r[j].date)) {
      FilterSnoc(ms, m, OnDay(r[j].date));
      if j == |gs| {
        NoneOnDay(ms, day);
      }
    }
  }

  lemma NoneOnDay(ms: seq<Message>, day: DayKey)
    requires day !in DaysOf(ms)
    ensures Filter(ms, OnDay(day)) == []
  {
  }

  /** `groupMessagesByDate`. */
  method GroupMessagesByDate(ms: seq<Message>) returns (gs: seq<DateGroup>)
    ensures gs == Groups(ms)
  {
    gs := [];
    var i := 0;
    while i < |ms|
      invariant 0 <= i <= |ms|
      invariant gs == Groups(ms[..i])
    {
      assert ms[..i + 1][..i] == ms[..i];
      var day := DayOf(ms[i].timestamp);
      match FirstIndex(gs, HasDay(day)) {
        case Some(j) => gs := gs[j := gs[j].(messages := gs[j].messages + [ms[i]])];
        case None => gs := gs + [DateGroup(day, [ms[i]])];
      }
      i := i + 1;
    }
    assert ms[..i] == ms;
  }
}
