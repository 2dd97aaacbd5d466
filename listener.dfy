/**
 * The live-event handler of tg_listener/listener.py: for each new message
 * event, store it for the active channel when the event's chat is that
 * channel, matched by username.
 */
module Listener {
  import opened Wrappers
  import opened Text
  import opened Store

  /** The chat an event comes from; `username` is None when the chat has none. */
  datatype Chat = Chat(username: Option<string>)

  datatype Event = Event(id: int, chat: Chat, senderId: Option<int>, text: Option<string>)

  /**
   * `str.lower()` on the letters the handles use: Latin and Cyrillic capitals.
   * Only ever applied to two strings already equal, so its exact extent does
   * not matter for the decision.
   */
  function Lower(s: string): (r: string)
    ensures |r| == |s|
  {
    seq(|s|, i requires 0 <= i < |s| =>
      if 'A' <= s[i] <= 'Z' then (s[i] as int + 32) as char
      else if 'А' <= s[i] <= 'Я' then (s[i] as int + 32) as char
      else if s[i] == 'Ё' then 'ё'
      else s[i])
  }

  /**
   * The `is_target` flag: the chat has a username equal to the active
   * channel's, and (a test implied by the first) the lower-cased forms agree.
   */
  predicate IsTarget(chat: Chat, active: Channel)
  {
    if chat.username.Some? && chat.username.value == active.username then
      Lower(chat.username.value) == Lower(active.username)
    else
      false
  }

  /** Matching is exact: a chat is the target iff its username equals the channel's. */
  lemma IsTargetIffSameUsername(chat: Chat, active: Channel)
    ensures IsTarget(chat, active) <==> chat.username == Some(active.username)
  {
  }

  /** A handle that differs only in case does not match. */
  lemma MatchIsCaseSensitive(active: Channel)
    requires active.username == "news"
    ensures !IsTarget(Chat(Some("News")), active)
  {
    assert "News"[0] != "news"[0];
  }

  /** `str(event.sender_id)`: the decimal id, or "None" when there is none. */
  function SenderText(senderId: Option<int>): (s: string)
    ensures s != []
  {
    if senderId.None? then "None" else IntToString(senderId.value)
  }

  /** `event.text or ""`. */
  function EventText(text: Option<string>): (t: string)
    ensures text.Some? ==> t == text.value
    ensures text.None? ==> t == ""
  {
    if text.None? then "" else text.value
  }

  /** A missing event text is stored as the placeholder. */
  lemma MissingTextStoresPlaceholder()
    ensures StoredText(EventText(None)) == EmptyTextPlaceholder
  {
  }

  /**
   * `handler`: look up the active channel; with none, write nothing; when the
   * chat is the target, save exactly one message attributed to that channel.
   */
  method Handle(db: Database, event: Event, now: int) returns (saved: bool)
    requires db.Valid()
    modifies db
    ensures db.Valid()
    ensures db.channels == old(db.channels) && db.summaries == old(db.summaries)
    ensures saved <==> ActiveChannel(old(db.channels)).Some? && IsTarget(event.chat, ActiveChannel(old(db.channels)).value)
    ensures saved ==> db.messages == old(db.messages) + [Message(
      |old(db.messages)| + 1, event.id, ActiveChannel(old(db.channels)).value.id,
      SenderText(event.senderId), StoredText(EventText(event.text)), now, false)]
    ensures !saved ==> db.messages == old(db.messages)
  {
    var active := db.GetActiveChannel();
    ActiveChannelUnique(db.channels);
    if active.None? {
      return false;
    }
    saved := IsTarget(event.chat, active.value);
    if saved {
      db.SaveMessage(active.value.id, event.id, SenderText(event.senderId), EventText(event.text), now);
    }
  }
}
