# AI-Tg-Live-Listener, core model

A Telegram channel monitor has three parts:

- A Telethon listener stores every new message of the one *active* channel in an SQLite database.
- A small Flask panel registers channels and chooses the active one.
- A Telegram bot's `/summary` command is meant to turn the channel's not-yet-summarised messages into a digest.
  As written, its channel lookup fails (see "## Left out"), so the model takes the channel as a parameter. The command works through a map-reduce over an LLM provider (GigaChat), records the digest, and marks the messages it covered.

This project models that core in Dafny and proves what it promises:

| file | module | models |
|---|---|---|
| `text.dfy` | `Text` | The Python built-ins the core relies on: `sep.join`, `str(int)` (with its parse-back round trip), `str.strip()`, `str.lstrip(c)` |
| `summarizer.dfy` | `Summarizer` | `summarize_messages`. The greedy chunking loop (a method proved equal to a prefix fold `Pack`), the per-chunk prompts, and the single-chunk shortcut against the merge call |
| `store.dfy` | `Store` | The `Database` of `tg_listener/db.py`, as a class with one `seq` field per table, its pure table transforms, and the invariant *keys are positions, usernames are unique, at most one channel is active* |
| `batch.dfy` | `Batch` | `/summary`. Row selection (filter, stable sort by date, limit 100), then summarise, then `save_summary` |
| `listener.dfy` | `Listener` | The live-event `handler`: the active-channel check, the `is_target` decision, and the single `save_message` |
| `admin.dfy` | `Admin` | The `channels` POST branch: form normalisation and the add-only-if-both-non-empty guard |
| `wrappers.dfy` | `Wrappers` | `Option` |

How the outside world is represented:

- The LLM provider is a total function `provider: string -> string` passed in by the caller, because the client turns every error into a reply string.
- The prompts sent to the provider come back from each method as an out-parameter, in call order.
- Dates are integers, and the current time `now` is a parameter.

## Model

| member | source | states |
|---|---|---|
| `Text.Join` | bot/summary_service.py:18-26 | Python's `sep.join(parts)`: the parts in order with `sep` between neighbours (no ensures; its length is stated by `Text.JoinLength`) |
| `Text.JoinLength` | bot/summary_service.py:18 | `len(sep.join(parts))` is the sum of the part lengths plus one separator between each neighbouring pair |
| `Text.NatToString` | bot/summary_service.py:33 | `str(n)` is a non-empty string of decimal digits. It starts with `0` only for `n == 0`, and then it is exactly `"0"` |
| `Text.ParseNatToString` | bot/summary_service.py:33 | Reading the numeral back gives `n`: the decimal printing round-trips |
| `Text.NatToStringInjective` | bot/summary_service.py:33 | Distinct part numbers print differently |
| `Text.IntToString` | tg_listener/listener.py:73 | `str(i)` starts with `-` exactly when `i < 0`. The digits after any `-` parse back to `abs(i)` and have no leading zero unless they are exactly `"0"` |
| `Text.IsSpace` | tg_listener/main.py:29-30 | The characters `str.strip()` removes: those for which Python's `str.isspace()` holds (no ensures; a definition) |
| `Text.SkipSpace` | tg_listener/main.py:29-30 | The first non-whitespace index at or after `i`, with everything skipped being whitespace |
| `Text.SkipSpaceBack` | tg_listener/main.py:29-30 | The end of the last non-whitespace run before `j`, not below `lo`, with everything skipped being whitespace |
| `Text.Strip` | tg_listener/main.py:29-30 | `s.strip()` is an inner slice of `s`, everything outside it is whitespace, and a non-empty result neither starts nor ends with whitespace |
| `Text.StripEmptyIff` | tg_listener/main.py:29-30 | `s.strip()` is empty exactly when every character of `s` is whitespace |
| `Text.LStripChar` | tg_listener/main.py:29 | `s.lstrip(c)` is a suffix of `s`, all the dropped characters are `c`, and a non-empty result does not start with `c` |
| `Summarizer.Step` | bot/summary_service.py:17-23 | One loop iteration: close the current chunk (even an empty one) and start `[msg]` when the total would pass `MAX_CHARS`, otherwise append `msg` (no ensures; a definition) |
| `Summarizer.Pack` | bot/summary_service.py:16-23 | The loop state after the messages, as a left fold of `Step` from `([], [], 0)` (no ensures; its properties are the `Pack*` lemmas) |
| `Summarizer.Groups` | bot/summary_service.py:16-26 | The chunks as message lists: the closed ones, then the last one if it is non-empty (no ensures; its properties are the `Groups*` lemmas) |
| `Summarizer.ChunkTexts` | bot/summary_service.py:18-26 | Each chunk's messages joined by `"\n"` (no ensures; `Summarizer.BuildChunks` is proved equal to it) |
| `Summarizer.PackCountsLength` | bot/summary_service.py:16-23 | `current_length` is at all times the total length of `current_chunk`, which is non-empty after the first message |
| `Summarizer.PackKeepsMessages` | bot/summary_service.py:16-23 | After any prefix of the messages, the closed chunks followed by the current one are exactly that prefix |
| `Summarizer.PackEmptyChunk` | bot/summary_service.py:13-20 | Only the first closed chunk can be empty, and it is empty iff the first message is longer than `MAX_CHARS` |
| `Summarizer.PackWithinBudget` | bot/summary_service.py:17-23 | Every chunk the loop builds totals at most `MAX_CHARS` or holds a single message |
| `Summarizer.PackGreedy` | bot/summary_service.py:17-20 | A chunk is closed only when the next message would push its total past `MAX_CHARS` |
| `Summarizer.PackInvariant` | bot/summary_service.py:12-23 | The conjunction of the loop invariants above |
| `Summarizer.GroupsConcatenate` | bot/summary_service.py:16-26 | The chunks, taken as message lists, concatenate back to exactly the input, in order |
| `Summarizer.GroupsEmptyIff` | bot/summary_service.py:25-26 | There are no chunks iff there are no messages, so a non-empty input gives at least one chunk |
| `Summarizer.GroupsWithinBudget` | bot/summary_service.py:17-23 | A chunk whose total exceeds `MAX_CHARS` holds exactly one message |
| `Summarizer.GroupsGreedy` | bot/summary_service.py:17 | For neighbouring chunks, `sum(len c_i) + len(first c_{i+1}) > MAX_CHARS` |
| `Summarizer.GroupsEmptyChunk` | bot/summary_service.py:13-20 | A chunk is empty iff it is chunk 0 and the first message is longer than `MAX_CHARS` |
| `Summarizer.ChunkTextLength` | bot/summary_service.py:18-26 | A chunk's text is longer than its budgeted total by its joining newlines |
| `Summarizer.JoinedChunkExceedsBudget` | bot/summary_service.py:17-26 | Two 5000-character messages share one chunk whose text is 10001 characters, so the budget does not count separators |
| `Summarizer.ThreeMessagesOf4000` | bot/summary_service.py:16-26 | Three 4000-character messages give the chunks `[m1, m2]` and `[m3]` |
| `Summarizer.LongFirstMessage` | bot/summary_service.py:13-26 | A first message longer than `MAX_CHARS` gives the chunk texts `["", m]`, with an empty leading chunk |
| `Summarizer.BuildChunks` | bot/summary_service.py:12-26 | The loop, run on the messages, yields exactly the chunk texts of the fold specification |
| `Summarizer.PartLabel` | bot/summary_service.py:33 | `ЧАСТЬ {i + 1} ИЗ {n}` (no ensures; a definition) |
| `Summarizer.ChunkPrompt` | bot/summary_service.py:31-39 | The fixed intro, the part label, the fixed rules and `ТЕКСТ:\n`, then the chunk text (no ensures; see `Summarizer.ChunkPromptCarriesLabel`) |
| `Summarizer.MergePrompt` | bot/summary_service.py:48-55 | The fixed merge instructions followed by the newline-joined partial summaries (no ensures; a definition) |
| `Summarizer.ChunkPrompts` | bot/summary_service.py:30-39 | One prompt per chunk |
| `Summarizer.Responses` | bot/summary_service.py:40-41 | One provider reply per prompt |
| `Summarizer.ChunkPromptCarriesLabel` | bot/summary_service.py:31-39 | Prompt `i` of `n` carries `ЧАСТЬ {i+1} ИЗ {n}` right after the intro and ends with the chunk text |
| `Summarizer.ChunkPromptDeterminesIndex` | bot/summary_service.py:33 | Two chunk prompts of one run that are equal have the same chunk index: the part number identifies the chunk |
| `Summarizer.SummarizeMessages` | bot/summary_service.py:7-56 | No messages: the fixed reply and zero provider calls. Otherwise the chunk prompts come first, in chunk order. One chunk: exactly those calls, and the digest is that reply verbatim. `k > 1` chunks: `k + 1` calls, and the digest is the reply to the merge prompt over the newline-joined replies |
| `Store.UsernameTaken` | tg_listener/db.py:28 | Some channel already has this username, compared exactly (no ensures; a definition) |
| `Store.Activated` | tg_listener/db.py:80-83 | The channel table after both bulk updates: each channel is active iff its id is the requested one. The table length is kept |
| `Store.ActivatedIsExclusive` | tg_listener/db.py:78-84 | After activation at most one channel is active. It is the one with the requested id, none is active when no channel has that id, and only `is_active` changes |
| `Store.ActivatedIdempotent` | tg_listener/db.py:78-84 | Activating the same channel twice equals activating it once |
| `Store.ActiveChannel` | tg_listener/db.py:86-89 | Some active channel exactly when one exists, and the result is an active row of the table |
| `Store.ActiveChannelUnique` | tg_listener/db.py:86-89 | Under the invariant, the active channel returned is the only active row |
| `Store.TitleLe` | tg_listener/db.py:75 | Title order as SQLite's BINARY collation compares: code point by code point, a proper prefix first (no ensures; total and transitive by `Store.TitleLeTotal` and `Store.TitleLeTransitive`) |
| `Store.TitleLeTotal` | tg_listener/db.py:75 | Any two titles are comparable |
| `Store.TitleLeTransitive` | tg_listener/db.py:75 | Title order is transitive |
| `Store.SortByTitle` | tg_listener/db.py:75 | The result is ordered by title and is a permutation of the table |
| `Store.InsertByTitle` | tg_listener/db.py:75 | Inserting a channel adds exactly that channel to the multiset of rows |
| `Store.StoredText` | tg_listener/db.py:100 | An empty text is stored as `[Медиа или пустое сообщение]`; any other text is stored unchanged |
| `Store.Covers` | tg_listener/db.py:135-136 | The rows the bulk update marks: same channel and `start <= date <= end`, inclusive as `BETWEEN` is (no ensures; a definition) |
| `Store.MarkSummarized` | tg_listener/db.py:133-138 | A message's flag becomes its old flag OR (same channel AND `start <= date <= end`, inclusive). Every other field is unchanged |
| `Store.MarkSummarizedIdempotent` | tg_listener/db.py:133-138 | Marking the same range twice leaves the table as marking it once |
| `Store.MarkSummarizedFrame` | tg_listener/db.py:133-138 | A message outside the channel or the range is left exactly as it was |
| `Store.CountSummarized` | tg_listener/db.py:110-112 | The summarised count is at most the message count, and is zero iff no message is summarised |
| `Store.CountSummarizedMonotone` | tg_listener/db.py:110-112 | Setting flags never lowers the summarised count |
| `Store.LatestCreatedAt` | tg_listener/db.py:114-116 | None iff there are no summaries. Otherwise the result is the `created_at` of some summary, and it is at least every summary's |
| `Store.Database.constructor` | tg_listener/db.py:63-65 | A fresh database file starts with three empty tables, which satisfy the invariant (`create_all` does not empty an existing file) |
| `Store.Database.AddChannel` | tg_listener/db.py:67-71 | An insert succeeds iff the username is not taken. On success one inactive channel is appended with the next key; otherwise nothing changes. The invariant is kept |
| `Store.Database.GetAllChannels` | tg_listener/db.py:73-76 | Every channel, ordered by title |
| `Store.Database.SetActiveChannel` | tg_listener/db.py:78-84 | The two bulk updates together give `Activated(old channels, id)`. The other tables are unchanged and the invariant is kept |
| `Store.Database.GetActiveChannel` | tg_listener/db.py:86-89 | The active channel, which is the only active one, or None when none is active |
| `Store.Database.SaveMessage` | tg_listener/db.py:91-105 | Exactly one unsummarised message is appended, with the given channel, id, sender and time, and with the placeholder for empty text |
| `Store.Database.GetStats` | tg_listener/db.py:107-121 | `total` is the number of messages, `analyzed` the summarised count (`<= total`), and `last_summary` the latest `created_at` or None |
| `Store.Database.SaveSummary` | tg_listener/db.py:123-139 | One summary is appended, the message table becomes `MarkSummarized(old, channel, start, end)`, no flag is cleared, and the summarised count never drops |
| `Batch.Pending` | bot/bot.py:63-64 | A message belongs to the channel and is unsummarised (no ensures; a definition) |
| `Batch.PendingOf` | bot/bot.py:63-64 | A filter: every pending message is kept exactly as many times as the table holds it, and every other message is dropped |
| `Batch.InsertByDate` | bot/bot.py:65 | Inserting a row adds exactly that row to the multiset |
| `Batch.SortByDate` | bot/bot.py:65 | The result is in ascending date order and is a permutation of the input |
| `Batch.SortByDateLength` | bot/bot.py:65 | Sorting keeps the number of rows |
| `Batch.SelectRows` | bot/bot.py:61-68 | At most 100 rows, in ascending date order |
| `Batch.SelectRowsSubMultiset` | bot/bot.py:65-66 | The rows are a leading part of the date-sorted pending messages, so no message is selected more often than the table holds it |
| `Batch.SelectRowsArePending` | bot/bot.py:61-64 | Every selected row is an unsummarised message of the chosen channel |
| `Batch.SelectRowsCount` | bot/bot.py:66 | `min(pending, 100)` rows are selected |
| `Batch.SelectRowsEarliest` | bot/bot.py:65-66 | A pending message left out is dated no earlier than any selected row, and is left out only because 100 rows were reached |
| `Batch.Texts` | bot/bot.py:75 | The texts are passed in row order |
| `Batch.RowsWithinRange` | bot/bot.py:76-77 | `start_dt <= end_dt`, and every selected row lies in the channel and in `[start_dt, end_dt]` |
| `Batch.MarkedUnreadOnlyAtRangeEnd` | bot/bot.py:66-87 | The range update can mark a pending message that was never read. That only happens when the limit was hit, and the message is then dated exactly `end_dt` |
| `Batch.SummaryCommand` | bot/bot.py:60-98 | No channel: the error path, with nothing saved and no provider call. No rows: the "nothing new" reply, with no provider call and no write. Otherwise the row texts are summarised. With one chunk, exactly that chunk's call is made. With `k > 1` chunks, the `k` chunk calls are followed by the merge call over the newline-joined replies. The digest is the reply to the last call. One summary over `[first date, last date]` holding the digest is appended, and the messages become `MarkSummarized` of that range. Every selected row ends up summarised |
| `Listener.Lower` | tg_listener/listener.py:65 | Lower-casing keeps the length |
| `Listener.IsTarget` | tg_listener/listener.py:63-66 | The `is_target` flag: the chat has a username equal to the channel's, and then the lower-cased forms agree (no ensures; see `Listener.IsTargetIffSameUsername`) |
| `Listener.IsTargetIffSameUsername` | tg_listener/listener.py:63-66 | The chat is the target iff it has a username exactly equal to the active channel's |
| `Listener.MatchIsCaseSensitive` | tg_listener/listener.py:64-65 | `News` does not match the channel `news` |
| `Listener.SenderText` | tg_listener/listener.py:73 | The sender is stringified, with `None` when there is none |
| `Listener.EventText` | tg_listener/listener.py:74 | A missing event text is passed as `""` |
| `Listener.MissingTextStoresPlaceholder` | tg_listener/listener.py:74 | A missing text ends up stored as the placeholder |
| `Listener.Handle` | tg_listener/listener.py:40-75 | A message is saved iff there is an active channel and the chat is the target. It is then exactly one message, attributed to the active channel's id, with `msg_id = event.id`, the stringified sender and the stored text. Otherwise nothing is written, and the other tables never change |
| `Admin.FormField` | tg_listener/main.py:29-30 | A missing form field reads as `""` |
| `Admin.NormalizeUsername` | tg_listener/main.py:29 | The username is a suffix of the stripped input with only `@`s dropped. If non-empty, it does not start with `@` and has no trailing whitespace |
| `Admin.NormalizeTitle` | tg_listener/main.py:30 | The title is the input with whitespace removed from both ends and nothing else |
| `Admin.ChannelToAdd` | tg_listener/main.py:32 | A channel is proposed iff both normalised fields are non-empty |
| `Admin.InnerSpaceSurvives` | tg_listener/main.py:29 | `"@ foo"` normalises to `" foo"`: inner whitespace after the `@` survives |
| `Admin.ChannelsPost` | tg_listener/main.py:27-34 | `add_channel` is called exactly once iff both normalised fields are non-empty. It adds the channel iff the username is free, and nothing else changes |

## Left out

- The GigaChat client (`bot/gigachat.py`) is not part of this model. Its OAuth token fetch, HTTPS calls, SSL and timeouts become the `provider` parameter, and the only property kept is that it always returns a string.
- `bot/utils.py` (logging, file reading with encoding detection) is I/O around foreign libraries and is not modelled.
- The Flask panel's other routes, templates and Hypercorn serving are not modelled. Neither are the Telethon client start, `.env` loading, Telebot polling, the chat messages' Markdown formatting and `strftime`. The bot's reply is modelled as the `Reply` value, and its text is not.
- The channel lookup of `/summary` is left out. `bot/bot.py:55-58` filters on `Channel.is_monitored`, which the `Channel` model does not define, so as written that query raises and the command always takes the error path. `Batch.SummaryCommand` takes the chosen channel as a parameter, with `None` for no channel.
- SQLAlchemy sessions, commit atomicity and schema creation are not modelled. Each operation is one sequential step, and the listener and the bot never interleave.
- Dates are abstract integers. `datetime.now()` / `utcnow()` become the `now` parameter, and nothing is assumed about clock increase.
- The `chat_id` column of `channels` is not modelled, because no core operation reads or writes it.
- `Store.Database.AddChannel` reports a taken username as `ok == false` and changes nothing. In the source the UNIQUE-constraint error escapes the Flask route (`tg_listener/main.py:33`): there is no redirect, and the panel answers with a server error. The effect on the store is the same.
- Foreign keys are not enforced (`save_message` and `save_summary` accept any channel id), and neither is the `String(255)` length limit on usernames and titles.
- `ORDER BY title` and `ORDER BY date`: SQL leaves the order of ties unspecified. The model uses a stable sort, so `Store.SortByTitle` and `Batch.SortByDate` fix one of the orders the database may return.
- Message text handed to `save_message` is always a string in the model. A `None` text is turned into `""` by the caller, as the listener does.
- `Listener.Lower`: models lower-casing for Latin and Cyrillic capitals only, and states only that the length is kept. The comparison it feeds is reached only for two equal strings, so it cannot change the decision.
- Behaviour that the code does not have is not modelled: a periodically refreshed set of monitored channels, suppressing a boilerplate prefix, toggling or deleting channels, and marking messages by id. The username constraint and the listener's match both compare case-sensitively, as the code does.
