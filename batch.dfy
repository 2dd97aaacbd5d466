/**
 * The `/summary` command of bot/bot.py: select the channel's unsummarised
 * messages (earliest first, at most BatchLimit), summarise their texts, and
 * record the summary over the date range of the selection.
 *
 * The channel is given by the caller (None when there is none); what the bot
 * sends to the chat is modelled by the Reply value.
 */
module Batch {
  import opened Wrappers
  import opened Store
  import Text
  import Summarizer

  /** The `.limit(100)` of the selection query. */
  const BatchLimit: nat := 100

  /** What the command answers in the chat. */
  datatype Reply =
    | Failed                  // the error path: an exception was caught
    | NothingNew(title: string)
    | Digest(title: string, start: int, end: int, digest: string)

  predicate Pending(m: Message, channelId: int)
  {
    m.chatId == channelId && !m.isSummarized
  }

  /**
   * The channel's unsummarised messages, in table order: each pending message
   * is kept as many times as the table holds it, every other one dropped.
   */
  function PendingOf(msgs: seq<Message>, channelId: int): (r: seq<Message>)
    ensures forall m :: multiset(r)[m] == if Pending(m, channelId) then multiset(msgs)[m] else 0
    ensures forall m :: m in r <==> m in msgs && Pending(m, channelId)
    ensures |r| <= |msgs|
  {
    if msgs == [] then []
    else
      var init := msgs[..|msgs| - 1];
      var last := msgs[|msgs| - 1];
      assert msgs == init + [last];
      PendingOf(init, channelId) + (if Pending(last, channelId) then [last] else [])
  }

  predicate SortedByDate(s: seq<Message>)
  {
    forall i, j :: 0 <= i < j < |s| ==> s[i].date <= s[j].date
  }

  /** Inserts `m` after every message not later than it (equal dates keep their order). */
  function InsertByDate(s: seq<Message>, m: Message): (r: seq<Message>)
    ensures multiset(r) == multiset(s) + multiset{m}
  {
    if s == [] then [m]
    else if s[|s| - 1].date <= m.date then s + [m]
    else
      assert s == s[..|s| - 1] + [s[|s| - 1]];
      InsertByDate(s[..|s| - 1], m) + [s[|s| - 1]]
  }

  /** Every message of InsertByDate(s, m) comes from `s` or is `m`. */
  lemma InsertByDateFrom(s: seq<Message>, m: Message, k: nat)
    requires k < |InsertByDate(s, m)|
    ensures InsertByDate(s, m)[k] == m || InsertByDate(s, m)[k] in s
  {
    var x := InsertByDate(s, m)[k];
    assert x in multiset(InsertByDate(s, m));
  }

  lemma {:induction false} InsertByDateSorted(s: seq<Message>, m: Message)
    requires SortedByDate(s)
    ensures SortedByDate(InsertByDate(s, m))
  {
    if s != [] && s[|s| - 1].date > m.date {
      var init := s[..|s| - 1];
      var last := s[|s| - 1];
      InsertByDateSorted(init, m);
      var head := InsertByDate(init, m);
      assert InsertByDate(s, m) == head + [last];
      forall k | 0 <= k < |head| ensures head[k].date <= last.date {
        InsertByDateFrom(init, m, k);
        if head[k] in init {
          var p :| 0 <= p < |init| && init[p] == head[k];
          assert s[p] == head[k];
        }
      }
    }
  }

  /** `ORDER BY date ASC`. */
  function SortByDate(s: seq<Message>): (r: seq<Message>)
    ensures SortedByDate(r)
    ensures multiset(r) == multiset(s)
  {
    if s == [] then []
    else
      assert s == s[..|s| - 1] + [s[|s| - 1]];
      InsertByDateSorted(SortByDate(s[..|s| - 1]), s[|s| - 1]);
      InsertByDate(SortByDate(s[..|s| - 1]), s[|s| - 1])
  }

  /** The selection query: pending messages, ascending by date, the first BatchLimit of them. */
  function SelectRows(msgs: seq<Message>, channelId: int): (rows: seq<Message>)
    ensures |rows| <= BatchLimit
    ensures SortedByDate(rows)
  {
    var sorted := SortByDate(PendingOf(msgs, channelId));
    if |sorted| <= BatchLimit then sorted else sorted[..BatchLimit]
  }

  /**
   * The rows are a leading part of the date-sorted pending messages, so no
   * message is selected more often than the table holds it.
   */
  lemma SelectRowsSubMultiset(msgs: seq<Message>, channelId: int)
    ensures var sorted := SortByDate(PendingOf(msgs, channelId));
      var rows := SelectRows(msgs, channelId);
      |rows| <= |sorted| && rows == sorted[..|rows|]
      && multiset(rows) <= multiset(PendingOf(msgs, channelId))
  {
    var sorted := SortByDate(PendingOf(msgs, channelId));
    var rows := SelectRows(msgs, channelId);
    assert sorted == rows + sorted[|rows|..];
    assert multiset(sorted) == multiset(rows) + multiset(sorted[|rows|..]);
  }

  lemma SortByDateLength(s: seq<Message>)
    ensures |SortByDate(s)| == |s|
  {
    assert |multiset(SortByDate(s))| == |multiset(s)|;
  }

  /** Only the channel's unsummarised messages are selected. */
  lemma SelectRowsArePending(msgs: seq<Message>, channelId: int)
    ensures forall m :: m in SelectRows(msgs, channelId) ==> m in msgs && Pending(m, channelId)
  {
    var pending := PendingOf(msgs, channelId);
    var sorted := SortByDate(pending);
    forall m | m in SelectRows(msgs, channelId) ensures m in msgs && Pending(m, channelId) {
      assert m in sorted;
      assert m in multiset(pending);
    }
  }

  /** As many pending messages are selected as there are, up to BatchLimit. */
  lemma SelectRowsCount(msgs: seq<Message>, channelId: int)
    ensures var n := |PendingOf(msgs, channelId)|;
      |SelectRows(msgs, channelId)| == if n < BatchLimit then n else BatchLimit
  {
    SortByDateLength(PendingOf(msgs, channelId));
  }

  /**
   * The selection holds the earliest pending messages: one left out is dated
   * no earlier than any selected one, and is left out only because the limit
   * was reached.
   */
  lemma SelectRowsEarliest(msgs: seq<Message>, channelId: int, m: Message)
    requires m in msgs && Pending(m, channelId) && m !in SelectRows(msgs, channelId)
    ensures var rows := SelectRows(msgs, channelId);
      |rows| == BatchLimit && forall k :: 0 <= k < |rows| ==> rows[k].date <= m.date
  {
    var pending := PendingOf(msgs, channelId);
    var sorted := SortByDate(pending);
    var rows := SelectRows(msgs, channelId);
    assert m in multiset(sorted);
    var p :| 0 <= p < |sorted| && sorted[p] == m;
    assert p >= |rows|;
  }

  /** The texts handed to the summariser, in row order. */
  function Texts(rows: seq<Message>): (ts: seq<string>)
    ensures |ts| == |rows| && forall k :: 0 <= k < |rows| ==> ts[k] == rows[k].text
  {
    seq(|rows|, k requires 0 <= k < |rows| => rows[k].text)
  }

  /** The selected rows all lie within the range [first row's date, last row's date]. */
  lemma RowsWithinRange(msgs: seq<Message>, channelId: int)
    requires SelectRows(msgs, channelId) != []
    ensures var rows := SelectRows(msgs, channelId);
      rows[0].date <= rows[|rows| - 1].date
      && forall m :: m in rows ==> Covers(m, channelId, rows[0].date, rows[|rows| - 1].date)
  {
    var rows := SelectRows(msgs, channelId);
    SelectRowsArePending(msgs, channelId);
    forall m | m in rows ensures Covers(m, channelId, rows[0].date, rows[|rows| - 1].date) {
      var k :| 0 <= k < |rows| && rows[k] == m;
    }
  }

  /**
   * The range mark can reach past what was read: a pending message marked by
   * the command without having been selected exists only when the limit was
   * reached, and then it is dated exactly at the end of the range.
   */
  lemma MarkedUnreadOnlyAtRangeEnd(msgs: seq<Message>, channelId: int, m: Message)
    requires SelectRows(msgs, channelId) != []
    requires var rows := SelectRows(msgs, channelId);
      m in msgs && Pending(m, channelId) && m !in rows
      && Covers(m, channelId, rows[0].date, rows[|rows| - 1].date)
    ensures var rows := SelectRows(msgs, channelId);
      |rows| == BatchLimit && m.date == rows[|rows| - 1].date
  {
    SelectRowsEarliest(msgs, channelId, m);
  }

  /**
   * `summary_command`. Returns the reply, the selected rows and the prompts
   * sent to the provider, in call order.
   */
  method SummaryCommand(db: Database, channel: Option<Channel>, provider: string -> string, now: int)
    returns (reply: Reply, rows: seq<Message>, prompts: seq<string>)
    requires db.Valid()
    modifies db
    ensures db.Valid()
    ensures db.channels == old(db.channels)
    // no channel: dereferencing it fails, the error is caught, nothing is saved
    ensures channel.None? ==>
      reply == Failed && rows == [] && prompts == []
      && db.messages == old(db.messages) && db.summaries == old(db.summaries)
    ensures channel.Some? ==> rows == SelectRows(old(db.messages), channel.value.id)
    // nothing pending: no provider call, no write
    ensures channel.Some? && rows == [] ==>
      reply == NothingNew(channel.value.title) && prompts == []
      && db.messages == old(db.messages) && db.summaries == old(db.summaries)
    // otherwise: summarise the row texts, record the summary, mark the range
    ensures channel.Some? && rows != [] ==>
      var id := channel.value.id;
      var start := rows[0].date;
      var end := rows[|rows| - 1].date;
      var calls := Summarizer.ChunkPrompts(Summarizer.ChunkTexts(Texts(rows)));
      && start <= end
      && reply.Digest? && reply.title == channel.value.title && reply.start == start && reply.end == end
      && |calls| >= 1
      && (|calls| == 1 ==> prompts == calls)
      && (|calls| > 1 ==>
            prompts == calls + [Summarizer.MergePrompt(Text.Join("\n", Summarizer.Responses(calls, provider)))])
      && reply.digest == provider(prompts[|prompts| - 1])
      && db.summaries == old(db.summaries) + [Summary(|old(db.summaries)| + 1, id, now, start, end, reply.digest)]
      && db.messages == MarkSummarized(old(db.messages), id, start, end)
    // every selected row ends up summarised
    ensures forall i :: 0 <= i < |db.messages| && old(db.messages)[i] in rows ==> db.messages[i].isSummarized
  {
    if channel.None? {
      return Failed, [], [];
    }
    var ch := channel.value;
    rows := SelectRows(db.messages, ch.id);
    if rows == [] {
      return NothingNew(ch.title), rows, [];
    }
    var texts := Texts(rows);
    var start := rows[0].date;
    var end := rows[|rows| - 1].date;
    var digest;
    digest, prompts := Summarizer.SummarizeMessages(texts, provider);
    RowsWithinRange(old(db.messages), ch.id);
    ghost var before := db.messages;
    db.SaveSummary(ch.id, digest, start, end, now);
    forall i | 0 <= i < |db.messages| && before[i] in rows ensures db.messages[i].isSummarized {
      assert Covers(before[i], ch.id, start, end);
    }
    reply := Digest(ch.title, start, end, digest);
  }
}
