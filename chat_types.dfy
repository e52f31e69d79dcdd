/** The entities of the conversation model (src/types/chat.ts). */
module ChatTypes {
  import opened Options
  import opened Strings

  datatype MessageType = Text | Image | Video | Audio | Document | System | Deleted

  /** The string a `MessageType` has in the source (`msg.type`). */
  function TypeName(t: MessageType): (r: string)
    ensures |r| >= 4
  {
    match t
    case Text => "text"
    case Image => "image"
    case Video => "video"
    case Audio => "audio"
    case Document => "document"
    case System => "system"
    case Deleted => "deleted"
  }

  lemma TypeNameInjective(a: MessageType, b: MessageType)
    requires TypeName(a) == TypeName(b)
    ensures a == b
  {
    assert TypeName(a)[0] == TypeName(b)[0];
    if a.Document? || a.Deleted? {
      assert TypeName(a)[1] == TypeName(b)[1];
    }
  }

  /** The kinds that can carry a media file. */
  predicate IsMediaType(t: MessageType) {
    t.Image? || t.Video? || t.Audio? || t.Document?
  }

  /** The arguments the source passes to `new Date(year, month - 1, day, ...)`,
      kept as components: no normalisation of out-of-range values. */
  datatype Timestamp = Timestamp(year: nat, month: nat, day: nat, hour: nat, minute: nat, second: nat)

  /** The calendar day of a timestamp, standing for `toDateString()`. */
  datatype DayKey = DayKey(year: nat, month: nat, day: nat)

  function DayOf(t: Timestamp): DayKey {
    DayKey(t.year, t.month, t.day)
  }

  /** A media entry of the archive: its bare name, its content type and its
      bytes (carried as an opaque string). */
  datatype MediaFile = MediaFile(name: string, mimeType: string, data: string)

  /** A JavaScript `Map<string, MediaFile>` keyed by `name`: iteration follows
      insertion order, and `set` on a present key replaces its value in place. */
  type MediaMap = seq<MediaFile>

  predicate KeysDistinct(m: MediaMap) {
    forall i, j :: 0 <= i < j < |m| ==> m[i].name != m[j].name
  }

  /** `map.get(name)`. */
  function MapGet(m: MediaMap, name: string): (r: Option<MediaFile>)
    ensures r.Some? ==> r.value in m && r.value.name == name
    ensures r.None? <==> forall i :: 0 <= i < |m| ==> m[i].name != name
  {
    if m == [] then None
    else if m[0].name == name then Some(m[0])
    else MapGet(m[1..], name)
  }

  /** `map.set(f.name, f)`. */
  function MapSet(m: MediaMap, f: MediaFile): (r: MediaMap)
    requires KeysDistinct(m)
    ensures KeysDistinct(r)
    ensures MapGet(r, f.name) == Some(f)
    ensures forall n :: n != f.name ==> MapGet(r, n) == MapGet(m, n)
    ensures |r| == |m| || |r| == |m| + 1
    ensures forall g :: g in r ==> g == f || g in m
  {
    if m == [] then [f]
    else if m[0].name == f.name then
      assert MapGet(m[1..], f.name).None?;
      [f] + m[1..]
    else
      var t := MapSet(m[1..], f);
      assert MapGet(m[1..], m[0].name).None?;
      [m[0]] + t
  }

  /** `set` on a new key appends it: the map keeps insertion order. */
  lemma {:induction false} MapSetNew(m: MediaMap, f: MediaFile)
    requires KeysDistinct(m) && MapGet(m, f.name).None?
    ensures MapSet(m, f) == m + [f]
  {
    if m != [] {
      assert m[0].name != f.name;
      assert MapGet(m[1..], f.name).None?;
      MapSetNew(m[1..], f);
      assert [m[0]] + (m[1..] + [f]) == m + [f];
    }
  }

  /** `set` on a present key replaces its value where it stands. */
  lemma {:induction false} MapSetPresent(m: MediaMap, f: MediaFile, i: nat)
    requires KeysDistinct(m) && i < |m| && m[i].name == f.name
    ensures MapSet(m, f) == m[i := f]
  {
    if i == 0 {
      assert [f] + m[1..] == m[0 := f];
    } else {
      assert m[0].name != f.name;
      MapSetPresent(m[1..], f, i - 1);
      assert [m[0]] + m[1..][i - 1 := f] == m[i := f];
    }
  }

  datatype Message = Message(
    id: nat,
    timestamp: Timestamp,
    sender: string,
    content: string,
    mtype: MessageType,
    mediaFile: Option<MediaFile>,
    isOutgoing: bool,
    rawLine: string)

  datatype ChatData = ChatData(
    messages: seq<Message>,
    participants: seq<string>,
    mediaFiles: MediaMap,
    chatName: string,
    startDate: Option<Timestamp>,
    endDate: Option<Timestamp>,
    messageCount: nat)

  /** Message `k` is on a different day from the message before it, or is the
      first: where the list view and the exporters start a new date. */
  predicate StartsDay(ms: seq<Message>, k: nat)
    requires k < |ms|
  {
    k == 0 || DayOf(ms[k].timestamp) != DayOf(ms[k - 1].timestamp)
  }

  /** The number of messages that start a day. */
  function DayStarts(ms: seq<Message>): (n: nat)
    ensures n <= |ms|
    ensures ms != [] ==> n >= 1
  {
    if ms == [] then 0
    else DayStarts(ms[..|ms| - 1]) + (if StartsDay(ms, |ms| - 1) then 1 else 0)
  }
}
