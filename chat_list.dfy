/** The list logic of src/components/chat/ChatList.tsx: the messages
    flattened into render items with a date separator at every day change and
    the sender label rule, and the backward scan for the sticky date. */
module ChatList {
  import opened Options
  import opened ChatTypes

  datatype RenderItem = DateItem(date: Timestamp) | MessageItem(message: Message, showSender: bool)

  /** `isGroupChat`. */
  predicate IsGroupChat(chat: ChatData) {
    |chat.participants| > 2
  }

  // ---------------------------------------------------------------------------
  // The loop of `renderItems`

  /** The loop's variables: the items so far, the day of the last message
      (standing for its `toDateString()`), and the last sender. */
  datatype Flat = Flat(items: seq<RenderItem>, currentDate: Option<DayKey>, lastSender: Option<string>)

  /** One turn of the loop. */
  function FlattenStep(st: Flat, m: Message, isGroup: bool): Flat {
    var day := DayOf(m.timestamp);
    var newDay := st.currentDate != Some(day);
    var items := if newDay then st.items + [DateItem(m.timestamp)] else st.items;
    var last := if newDay then None else st.lastSender;
    var showSender := isGroup && last != Some(m.sender) && m.mtype != System;
    Flat(items + [MessageItem(m, showSender)], Some(day), Some(m.sender))
  }

  function Flatten(ms: seq<Message>, isGroup: bool): Flat {
    if ms == [] then Flat([], None, None)
    else FlattenStep(Flatten(ms[..|ms| - 1], isGroup), ms[|ms| - 1], isGroup)
  }

  /** `renderItems`. */
  method BuildRenderItems(messages: seq<Message>, isGroup: bool) returns (items: seq<RenderItem>)
    ensures items == Flatten(messages, isGroup).items
  {
    items := [];
    var currentDate: Option<DayKey> := None;
    var lastSender: Option<string> := None;
    var i := 0;
    while i < |messages|
      invariant 0 <= i <= |messages|
      invariant Flat(items, currentDate, lastSender) == Flatten(messages[..i], isGroup)
    {
      assert messages[..i + 1][..i] == messages[..i];
      var message := messages[i];
      var messageDate := DayOf(message.timestamp);
      if Some(messageDate) != currentDate {
        items := items + [DateItem(message.timestamp)];
        currentDate := Some(messageDate);
        lastSender := None;
      }
      var showSender := isGroup && lastSender != Some(message.sender) && message.mtype != System;
      lastSender := Some(message.sender);
      items := items + [MessageItem(message, showSender)];
      i := i + 1;
    }
    assert messages[..i] == messages;
  }

  // ---------------------------------------------------------------------------
  // The items, message by message

  /** The sender label of message `j`, in closed form: only in a group chat,
      never on a system message, and only when the sender differs from the
      previous message's on the same day (the first message of a day always
      shows it). */
  predicate ShowSender(ms: seq<Message>, j: nat, isGroup: bool)
    requires j < |ms|
  {
    isGroup && ms[j].mtype != System && (StartsDay(ms, j) || ms[j].sender != ms[j - 1].sender)
  }

  /** The items message `j` contributes: a separator when it starts a day,
      then the message itself. */
  function ItemsFor(ms: seq<Message>, j: nat, isGroup: bool): (r: seq<RenderItem>)
    requires j < |ms|
    ensures |r| == (if StartsDay(ms, j) then 2 else 1)
  {
    (if StartsDay(ms, j) then [DateItem(ms[j].timestamp)] else [])
    + [MessageItem(ms[j], ShowSender(ms, j, isGroup))]
  }

  /** The items of all messages, in order. */
  function Expected(ms: seq<Message>, isGroup: bool): seq<RenderItem> {
    if ms == [] then [] else Expected(ms[..|ms| - 1], isGroup) + ItemsFor(ms, |ms| - 1, isGroup)
  }

  /** The loop builds exactly the message-by-message items, ending with the
      last message's day and sender. */
  lemma {:induction false} FlattenIsExpected(ms: seq<Message>, isGroup: bool)
    ensures Flatten(ms, isGroup).items == Expected(ms, isGroup)
    ensures ms == [] ==> Flatten(ms, isGroup).currentDate.None? && Flatten(ms, isGroup).lastSender.None?
    ensures ms != [] ==> (Flatten(ms, isGroup).currentDate == Some(DayOf(ms[|ms| - 1].timestamp))
                          && Flatten(ms, isGroup).lastSender == Some(ms[|ms| - 1].sender))
  {
    if ms != [] {
      var n := |ms| - 1;
      FlattenIsExpected(ms[..n], isGroup);
      var st := Flatten(ms[..n], isGroup);
      if n > 0 {
        assert ms[..n][n - 1] == ms[n - 1];
        assert StartsDay(ms, n) <==> st.currentDate != Some(DayOf(ms[n].timestamp));
      }
    }
  }

  /** The messages carried by a list of items, in order. */
  function MessagesOf(items: seq<RenderItem>): seq<Message> {
    if items == [] then []
    else
      var last := items[|items| - 1];
      MessagesOf(items[..|items| - 1]) + (if last.MessageItem? then [last.message] else [])
  }

  lemma {:induction false} MessagesOfConcat(a: seq<RenderItem>, b: seq<RenderItem>)
    ensures MessagesOf(a + b) == MessagesOf(a) + MessagesOf(b)
    decreases |b|
  {
    if b == [] {
      assert a + b == a;
    } else {
      var b' := b[..|b| - 1];
      assert (a + b)[..|a + b| - 1] == a + b';
      MessagesOfConcat(a, b');
    }
  }

  /** The number of date items. */
  function DateCount(items: seq<RenderItem>): nat {
    if items == [] then 0
    else DateCount(items[..|items| - 1]) + (if items[|items| - 1].DateItem? then 1 else 0)
  }

  lemma {:induction false} DateCountConcat(a: seq<RenderItem>, b: seq<RenderItem>)
    ensures DateCount(a + b) == DateCount(a) + DateCount(b)
    decreases |b|
  {
    if b == [] {
      assert a + b == a;
    } else {
      var b' := b[..|b| - 1];
      assert (a + b)[..|a + b| - 1] == a + b';
      DateCountConcat(a, b');
    }
  }

  /** What one message contributes: itself, and a date item when it starts a day. */
  lemma ItemsForParts(ms: seq<Message>, j: nat, isGroup: bool)
    requires j < |ms|
    ensures MessagesOf(ItemsFor(ms, j, isGroup)) == [ms[j]]
    ensures DateCount(ItemsFor(ms, j, isGroup)) == if StartsDay(ms, j) then 1 else 0
  {
    var m := [MessageItem(ms[j], ShowSender(ms, j, isGroup))];
    if StartsDay(ms, j) {
      var d := [DateItem(ms[j].timestamp)];
      MessagesOfConcat(d, m);
      DateCountConcat(d, m);
    } else {
      assert ItemsFor(ms, j, isGroup) == m;
    }
  }

  /** Every message appears exactly once, in input order. */
  lemma {:induction false} ExpectedMessages(ms: seq<Message>, isGroup: bool)
    ensures MessagesOf(Expected(ms, isGroup)) == ms
  {
    if ms != [] {
      var n := |ms| - 1;
      ExpectedMessages(ms[..n], isGroup);
      MessagesOfConcat(Expected(ms[..n], isGroup), ItemsFor(ms, n, isGroup));
      ItemsForParts(ms, n, isGroup);
      assert ms == ms[..n] + [ms[n]];
    }
  }

  /** There is one date item per day change, so the items number the
      messages plus the day changes. */
  lemma {:induction false} ExpectedDates(ms: seq<Message>, isGroup: bool)
    ensures DateCount(Expected(ms, isGroup)) == DayStarts(ms)
    ensures |Expected(ms, isGroup)| == |ms| + DayStarts(ms)
  {
    if ms != [] {
      var n := |ms| - 1;
      ExpectedDates(ms[..n], isGroup);
      DateCountConcat(Expected(ms[..n], isGroup), ItemsFor(ms, n, isGroup));
      ItemsForParts(ms, n, isGroup);
    }
  }

  /** A non-empty list starts with the first message's date. */
  lemma {:induction false} ExpectedFirst(ms: seq<Message>, isGroup: bool)
    requires ms != []
    ensures Expected(ms, isGroup)[0] == DateItem(ms[0].timestamp)
  {
    var n := |ms| - 1;
    if n == 0 {
      assert Expected(ms, isGroup) == ItemsFor(ms, 0, isGroup);
    } else {
      ExpectedFirst(ms[..n], isGroup);
      ExpectedNonEmpty(ms[..n], isGroup);
    }
  }

  lemma ExpectedNonEmpty(ms: seq<Message>, isGroup: bool)
    requires ms != []
    ensures |Expected(ms, isGroup)| > 0
  {
  }

  /** Outside a group chat, and on system messages, no sender is shown. */
  lemma SenderFlagOff(ms: seq<Message>, j: nat, isGroup: bool)
    requires j < |ms| && (!isGroup || ms[j].mtype == System)
    ensures !ShowSender(ms, j, isGroup)
  {
  }

  // ---------------------------------------------------------------------------
  // The sticky date

  /** The nearest date item at or before index `i`. */
  function NearestDate(items: seq<RenderItem>, i: nat): (r: Option<nat>)
    requires i < |items|
    ensures r.Some? ==> r.value <= i && items[r.value].DateItem?
    ensures r.Some? ==> forall k :: r.value < k <= i ==> !items[k].DateItem?
    ensures r.None? ==> forall k :: 0 <= k <= i ==> !items[k].DateItem?
  {
    if items[i].DateItem? then Some(i)
    else if i == 0 then None
    else NearestDate(items, i - 1)
  }

  /** `updateStickyDate`: scan back from the first visible item to the
      nearest date item, and take its date. */
  method StickyDate(items: seq<RenderItem>, firstVisible: nat) returns (date: Option<Timestamp>)
    requires firstVisible < |items|
    ensures date.Some? <==> NearestDate(items, firstVisible).Some?
    ensures date.Some? ==> date.value == items[NearestDate(items, firstVisible).value].date
  {
    var i: int := firstVisible;
    date := None;
    while i >= 0
      invariant -1 <= i <= firstVisible
      invariant forall k :: i < k <= firstVisible ==> !items[k].DateItem?
      decreases i
    {
      var item := items[i];
      if item.DateItem? {
        date := Some(item.date);
        assert NearestDate(items, firstVisible) == Some(i as nat) by {
          NearestDateIs(items, firstVisible, i);
        }
        return;
      }
      i := i - 1;
    }
  }

  lemma {:induction false} NearestDateIs(items: seq<RenderItem>, i: nat, k: nat)
    requires k <= i < |items| && items[k].DateItem?
    requires forall j :: k < j <= i ==> !items[j].DateItem?
    ensures NearestDate(items, i) == Some(k)
    decreases i
  {
    if i > k {
      NearestDateIs(items, i - 1, k);
    }
  }

  /** On the items of a non-empty chat the scan always finds a date, since
      the first item is one. */
  lemma StickyDateFound(ms: seq<Message>, isGroup: bool, firstVisible: nat)
    requires ms != [] && firstVisible < |Expected(ms, isGroup)|
    ensures NearestDate(Expected(ms, isGroup), firstVisible).Some?
  {
    ExpectedFirst(ms, isGroup);
  }
}
