/**
 * The bookkeeping store of tg_listener/db.py: three tables (channels,
 * messages, summaries) kept in place by the `Database` methods.
 *
 * Each table is a sequence of rows in insertion order; a row's primary key is
 * its 1-based position, as SQLite assigns integer keys when rows are never
 * deleted. Dates are abstract integers and the current time is passed in by
 * the caller.
 */
module Store {
  import opened Wrappers

  datatype Channel = Channel(id: int, username: string, title: string, isActive: bool)

  datatype Message = Message(
    id: int, msgId: int, chatId: int, sender: string, text: string, date: int, isSummarized: bool)

  datatype Summary = Summary(
    id: int, channelId: int, createdAt: int, rangeStart: int, rangeEnd: int, content: string)

  /** The result of `get_stats`. */
  datatype Stats = Stats(total: nat, analyzed: nat, lastSummary: Option<int>)

  /** Stored instead of an empty (or missing) message text. */
  const EmptyTextPlaceholder: string := "[Медиа или пустое сообщение]"

  // ---------------------------------------------------------------------------
  // Channels

  predicate UsernameTaken(chs: seq<Channel>, username: string)
  {
    exists i :: 0 <= i < |chs| && chs[i].username == username
  }

  /** The UNIQUE constraint on `username` (SQLite compares case-sensitively). */
  predicate UniqueUsernames(chs: seq<Channel>)
  {
    forall i, j :: 0 <= i < j < |chs| ==> chs[i].username != chs[j].username
  }

  predicate AtMostOneActive(chs: seq<Channel>)
  {
    forall i, j :: 0 <= i < |chs| && 0 <= j < |chs| && chs[i].isActive && chs[j].isActive ==> i == j
  }

  /**
   * `set_active_channel(id)` as one update: the channel with that id becomes
   * active, every other one inactive, and nothing else changes.
   */
  function Activated(chs: seq<Channel>, id: int): (r: seq<Channel>)
    ensures |r| == |chs|
  {
    seq(|chs|, i requires 0 <= i < |chs| => chs[i].(isActive := chs[i].id == id))
  }

  /**
   * After Activated, with distinct ids: at most one channel is active, it is
   * the one with the requested id, and none is active when no channel has it.
   * Only the active flags differ from the old table.
   */
  lemma ActivatedIsExclusive(chs: seq<Channel>, id: int)
    requires forall i :: 0 <= i < |chs| ==> chs[i].id == i + 1
    ensures AtMostOneActive(Activated(chs, id))
    ensures forall i :: 0 <= i < |chs| ==> (Activated(chs, id)[i].isActive <==> chs[i].id == id)
    ensures (exists i :: 0 <= i < |chs| && Activated(chs, id)[i].isActive) <==> 1 <= id <= |chs|
    ensures forall i :: 0 <= i < |chs| ==> Activated(chs, id)[i].(isActive := chs[i].isActive) == chs[i]
  {
    var r := Activated(chs, id);
    if 1 <= id <= |chs| {
      assert r[id - 1].isActive;
    }
  }

  /** Activating the same channel twice is the same as once. */
  lemma ActivatedIdempotent(chs: seq<Channel>, id: int)
    ensures Activated(Activated(chs, id), id) == Activated(chs, id)
  {
  }

  /** The first active channel, if any. */
  function ActiveChannel(chs: seq<Channel>): (r: Option<Channel>)
    ensures r.Some? <==> exists i :: 0 <= i < |chs| && chs[i].isActive
    ensures r.Some? ==> r.value in chs && r.value.isActive
  {
    if chs == [] then None
    else if chs[0].isActive then Some(chs[0])
    else
      var r := ActiveChannel(chs[1..]);
      assert forall i :: 1 <= i < |chs| ==> chs[i] == chs[1..][i - 1];
      r
  }

  /** With at most one active channel, the first active one is the only one. */
  lemma ActiveChannelUnique(chs: seq<Channel>)
    requires AtMostOneActive(chs)
    ensures ActiveChannel(chs).Some? ==>
      forall i :: 0 <= i < |chs| && chs[i].isActive ==> chs[i] == ActiveChannel(chs).value
  {
    if ActiveChannel(chs).Some? {
      var k :| 0 <= k < |chs| && chs[k] == ActiveChannel(chs).value;
    }
  }

  // Titles are ordered as SQLite's BINARY collation orders them: code point by
  // code point, a proper prefix first.

  predicate TitleLe(a: string, b: string)
  {
    a == [] || (b != [] && (a[0] < b[0] || (a[0] == b[0] && TitleLe(a[1..], b[1..]))))
  }

  lemma {:induction false} TitleLeTotal(a: string, b: string)
    ensures TitleLe(a, b) || TitleLe(b, a)
  {
    if a != [] && b != [] && a[0] == b[0] {
      TitleLeTotal(a[1..], b[1..]);
    }
  }

  lemma {:induction false} TitleLeTransitive(a: string, b: string, c: string)
    requires TitleLe(a, b) && TitleLe(b, c)
    ensures TitleLe(a, c)
  {
    if a != [] && b != [] && c != [] && a[0] == b[0] && b[0] == c[0] {
      TitleLeTransitive(a[1..], b[1..], c[1..]);
    }
  }

  predicate SortedByTitle(chs: seq<Channel>)
  {
    forall i, j :: 0 <= i < j < |chs| ==> TitleLe(chs[i].title, chs[j].title)
  }

  /** Inserts `c` after every channel whose title is not greater (so equal titles keep their order). */
  function InsertByTitle(s: seq<Channel>, c: Channel): (r: seq<Channel>)
    ensures multiset(r) == multiset(s) + multiset{c}
  {
    if s == [] then [c]
    else if TitleLe(s[|s| - 1].title, c.title) then s + [c]
    else
      assert s == s[..|s| - 1] + [s[|s| - 1]];
      InsertByTitle(s[..|s| - 1], c) + [s[|s| - 1]]
  }

  lemma {:induction false} InsertByTitleSorted(s: seq<Channel>, c: Channel)
    requires SortedByTitle(s)
    ensures SortedByTitle(InsertByTitle(s, c))
  {
    if s != [] {
      var last := s[|s| - 1];
      if TitleLe(last.title, c.title) {
        forall i | 0 <= i < |s| - 1 ensures TitleLe(s[i].title, c.title) {
          TitleLeTransitive(s[i].title, last.title, c.title);
        }
        assert SortedByTitle(s + [c]);
      } else {
        var init := s[..|s| - 1];
        InsertByTitleSorted(init, c);
        var head := InsertByTitle(init, c);
        TitleLeTotal(last.title, c.title);
        forall x | x in head ensures TitleLe(x.title, last.title) {
          assert x in multiset(head);
          if x in multiset(init) {
            var k :| 0 <= k < |init| && init[k] == x;
            assert s[k] == x;
          }
        }
        var r := head + [last];
        forall i, j | 0 <= i < j < |r| ensures TitleLe(r[i].title, r[j].title) {
          if j == |r| - 1 {
            assert r[i] in head;
          }
        }
      }
    }
  }

  /** The channel table as `ORDER BY title` returns it. */
  function SortByTitle(chs: seq<Channel>): (r: seq<Channel>)
    ensures SortedByTitle(r)
    ensures multiset(r) == multiset(chs)
  {
    if chs == [] then []
    else
      assert chs == chs[..|chs| - 1] + [chs[|chs| - 1]];
      InsertByTitleSorted(SortByTitle(chs[..|chs| - 1]), chs[|chs| - 1]);
      InsertByTitle(SortByTitle(chs[..|chs| - 1]), chs[|chs| - 1])
  }

  // ---------------------------------------------------------------------------
  // Messages and summaries

  /** `text or placeholder`: the text to store for a message. */
  function StoredText(text: string): (r: string)
    ensures r != []
    ensures text != [] ==> r == text
    ensures text == [] ==> r == EmptyTextPlaceholder
  {
    if text == [] then EmptyTextPlaceholder else text
  }

  /** The rows `save_summary` marks: same channel, date in [start, end] inclusive. */
  predicate Covers(m: Message, channelId: int, start: int, end: int)
  {
    m.chatId == channelId && start <= m.date <= end
  }

  /** The message table after `save_summary`'s bulk update. */
  function MarkSummarized(msgs: seq<Message>, channelId: int, start: int, end: int): (r: seq<Message>)
    ensures |r| == |msgs|
    ensures forall i :: 0 <= i < |msgs| ==>
      r[i].isSummarized == (msgs[i].isSummarized || Covers(msgs[i], channelId, start, end))
    ensures forall i :: 0 <= i < |msgs| ==> r[i].(isSummarized := msgs[i].isSummarized) == msgs[i]
  {
    seq(|msgs|, i requires 0 <= i < |msgs| =>
      if Covers(msgs[i], channelId, start, end) then msgs[i].(isSummarized := true) else msgs[i])
  }

  /** Marking the same range twice leaves the table as marking it once. */
  lemma MarkSummarizedIdempotent(msgs: seq<Message>, channelId: int, start: int, end: int)
    ensures var once := MarkSummarized(msgs, channelId, start, end);
      MarkSummarized(once, channelId, start, end) == once
  {
    var once := MarkSummarized(msgs, channelId, start, end);
    var twice := MarkSummarized(once, channelId, start, end);
    forall i | 0 <= i < |msgs| ensures twice[i] == once[i] {
      assert once[i].(isSummarized := msgs[i].isSummarized) == msgs[i];
    }
  }

  /** Messages outside the channel or the range are left exactly as they were. */
  lemma MarkSummarizedFrame(msgs: seq<Message>, channelId: int, start: int, end: int, i: nat)
    requires i < |msgs| && !Covers(msgs[i], channelId, start, end)
    ensures MarkSummarized(msgs, channelId, start, end)[i] == msgs[i]
  {
    var r := MarkSummarized(msgs, channelId, start, end);
    assert r[i].(isSummarized := msgs[i].isSummarized) == msgs[i];
  }

  /** The number of summarised messages (`count(...) where is_summarized`). */
  function CountSummarized(msgs: seq<Message>): (n: nat)
    ensures n <= |msgs|
    ensures n == 0 <==> forall i :: 0 <= i < |msgs| ==> !msgs[i].isSummarized
  {
    if msgs == [] then 0
    else
      var init := msgs[..|msgs| - 1];
      assert forall i :: 0 <= i < |init| ==> init[i] == msgs[i];
      CountSummarized(init) + (if msgs[|msgs| - 1].isSummarized then 1 else 0)
  }

  /** Setting flags never lowers the summarised count. */
  lemma {:induction false} CountSummarizedMonotone(a: seq<Message>, b: seq<Message>)
    requires |a| == |b|
    requires forall i :: 0 <= i < |a| ==> a[i].isSummarized ==> b[i].isSummarized
    ensures CountSummarized(a) <= CountSummarized(b)
  {
    if a != [] {
      CountSummarizedMonotone(a[..|a| - 1], b[..|b| - 1]);
    }
  }

  /** The latest `created_at` of all summaries, None when there are none. */
  function LatestCreatedAt(sums: seq<Summary>): (r: Option<int>)
    ensures r.None? <==> sums == []
    ensures r.Some? ==> exists i :: 0 <= i < |sums| && sums[i].createdAt == r.value
    ensures r.Some? ==> forall i :: 0 <= i < |sums| ==> sums[i].createdAt <= r.value
  {
    if sums == [] then None
    else
      var last := sums[|sums| - 1].createdAt;
      var init := sums[..|sums| - 1];
      assert forall i :: 0 <= i < |init| ==> init[i] == sums[i];
      match LatestCreatedAt(init)
      case None => Some(last)
      case Some(t) => if t < last then Some(last) else Some(t)
  }

  // ---------------------------------------------------------------------------
  // The store

  class Database {
    var channels: seq<Channel>
    var messages: seq<Message>
    var summaries: seq<Summary>

    /**
     * Keys are positions; usernames are unique; and at most one channel is
     * active, which every method keeps, so `get_active_channel` never meets
     * more than one active row.
     */
    ghost predicate Valid()
      reads this
    {
      && (forall i :: 0 <= i < |channels| ==> channels[i].id == i + 1)
      && (forall i :: 0 <= i < |messages| ==> messages[i].id == i + 1)
      && (forall i :: 0 <= i < |summaries| ==> summaries[i].id == i + 1)
      && UniqueUsernames(channels)
      && AtMostOneActive(channels)
    }

    constructor ()
      ensures Valid()
      ensures channels == [] && messages == [] && summaries == []
    {
      channels, messages, summaries := [], [], [];
    }

    /**
     * `add_channel`: inserts an inactive channel; a username already present
     * violates the UNIQUE constraint and the insert fails, changing nothing.
     */
    method AddChannel(username: string, title: string) returns (ok: bool)
      requires Valid()
      modifies this
      ensures Valid()
      ensures ok <==> !UsernameTaken(old(channels), username)
      ensures ok ==> channels == old(channels) + [Channel(|old(channels)| + 1, username, title, false)]
      ensures !ok ==> channels == old(channels)
      ensures messages == old(messages) && summaries == old(summaries)
    {
      ok := !UsernameTaken(channels, username);
      if ok {
        channels := channels + [Channel(|channels| + 1, username, title, false)];
      }
    }

    /** `get_all_channels`: every channel, ordered by title. */
    method GetAllChannels() returns (r: seq<Channel>)
      ensures SortedByTitle(r)
      ensures multiset(r) == multiset(channels)
    {
      r := SortByTitle(channels);
    }

    /**
     * `set_active_channel`: first every channel inactive, then the one with
     * the given id active.
     */
    method SetActiveChannel(id: int)
      requires Valid()
      modifies this
      ensures Valid()
      ensures channels == Activated(old(channels), id)
      ensures messages == old(messages) && summaries == old(summaries)
    {
      var before := channels;
      var cleared := seq(|before|, i requires 0 <= i < |before| => before[i].(isActive := false));
      channels := seq(|cleared|, i requires 0 <= i < |cleared| =>
        if cleared[i].id == id then cleared[i].(isActive := true) else cleared[i]);
      ActivatedIsExclusive(before, id);
      assert forall i :: 0 <= i < |before| ==> channels[i] == Activated(before, id)[i];
    }

    /** `get_active_channel`: the active channel, the only one, or None. */
    method GetActiveChannel() returns (r: Option<Channel>)
      requires Valid()
      ensures r.Some? <==> exists i :: 0 <= i < |channels| && channels[i].isActive
      ensures r.Some? ==> r.value in channels && r.value.isActive
      ensures r.Some? ==> forall i :: 0 <= i < |channels| && channels[i].isActive ==> channels[i] == r.value
    {
      r := ActiveChannel(channels);
      ActiveChannelUnique(channels);
    }

    /**
     * `save_message`: appends one unsummarised message; an empty text is
     * replaced by the placeholder.
     */
    method SaveMessage(channelId: int, msgId: int, sender: string, text: string, now: int)
      requires Valid()
      modifies this
      ensures Valid()
      ensures messages ==
        old(messages) + [Message(|old(messages)| + 1, msgId, channelId, sender, StoredText(text), now, false)]
      ensures channels == old(channels) && summaries == old(summaries)
    {
      messages := messages + [Message(|messages| + 1, msgId, channelId, sender, StoredText(text), now, false)];
    }

    /** `get_stats`: message count, summarised count, latest summary time. */
    method GetStats() returns (s: Stats)
      ensures s.total == |messages|
      ensures s.analyzed == CountSummarized(messages) && s.analyzed <= s.total
      ensures s.lastSummary == LatestCreatedAt(summaries)
    {
      s := Stats(|messages|, CountSummarized(messages), LatestCreatedAt(summaries));
    }

    /**
     * `save_summary`: appends the summary and marks every message of the
     * channel dated within [start, end] as summarised; no flag is cleared.
     */
    method SaveSummary(channelId: int, content: string, start: int, end: int, now: int)
      requires Valid()
      modifies this
      ensures Valid()
      ensures summaries ==
        old(summaries) + [Summary(|old(summaries)| + 1, channelId, now, start, end, content)]
      ensures messages == MarkSummarized(old(messages), channelId, start, end)
      ensures forall i :: 0 <= i < |messages| && old(messages)[i].isSummarized ==> messages[i].isSummarized
      ensures CountSummarized(old(messages)) <= CountSummarized(messages)
      ensures channels == old(channels)
    {
      summaries := summaries + [Summary(|summaries| + 1, channelId, now, start, end, content)];
      var before := messages;
      messages := MarkSummarized(messages, channelId, start, end);
      CountSummarizedMonotone(before, messages);
    }
  }
}
