/**
 * The map-reduce summariser of bot/summary_service.py.
 *
 * Messages are packed greedily, in order, into chunks whose running total of
 * message lengths stays within MaxChars; the provider is asked once per chunk
 * and, when there is more than one chunk, once more to merge the partial
 * summaries. The provider (the GigaChat client, which turns every failure into
 * a reply string) is a total function `string -> string` passed in by the
 * caller; the prompts sent to it are returned, in order, as the call trace.
 */
module Summarizer {
  import opened Text

  /** The character budget of one chunk. */
  const MaxChars: nat := 10000

  /** The reply for an empty message list. */
  const NoMessagesReply: string := "Нет сообщений для суммаризации."

  // ---------------------------------------------------------------------------
  // Greedy chunking, as the loop builds it: one Step per message

  /**
   * The loop's state: the chunks closed so far (as message lists), the chunk
   * being filled, and the running total of its message lengths.
   */
  datatype Packing = Packing(closed: seq<seq<string>>, current: seq<string>, currentLength: int)

  /**
   * One loop iteration. When the message does not fit, the current chunk is
   * closed even if it is empty (the first message of all can cause that).
   * The budget counts message lengths only, never the joining newlines.
   */
  function Step(p: Packing, msg: string): Packing
  {
    if p.currentLength + |msg| > MaxChars then Packing(p.closed + [p.current], [msg], |msg|)
    else Packing(p.closed, p.current + [msg], p.currentLength + |msg|)
  }

  /** The loop state after the messages `msgs`, taken in order. */
  function Pack(msgs: seq<string>): Packing
  {
    if msgs == [] then Packing([], [], 0) else Step(Pack(msgs[..|msgs| - 1]), msgs[|msgs| - 1])
  }

  /** The chunks as message lists: the closed ones, then the last one if it is non-empty. */
  function Groups(msgs: seq<string>): seq<seq<string>>
  {
    var p := Pack(msgs);
    if p.current != [] then p.closed + [p.current] else p.closed
  }

  /** The chunk texts sent to the provider: each chunk's messages joined by newlines. */
  function ChunkTexts(msgs: seq<string>): seq<string>
  {
    var g := Groups(msgs);
    seq(|g|, j requires 0 <= j < |g| => Join("\n", g[j]))
  }

  /** The messages of a list of chunks, in order. */
  function Flatten(gs: seq<seq<string>>): seq<string>
  {
    if gs == [] then [] else Flatten(gs[..|gs| - 1]) + gs[|gs| - 1]
  }

  /** A chunk respects the budget, or it is a single message too long to share a chunk. */
  predicate WithinBudget(g: seq<string>)
  {
    TotalLength(g) <= MaxChars || |g| == 1
  }

  /** Chunk `b` was started because its first message would not fit into `a`. */
  predicate GreedyBoundary(a: seq<string>, b: seq<string>)
  {
    b != [] && TotalLength(a) + |b[0]| > MaxChars
  }

  lemma TotalLengthSnoc(g: seq<string>, msg: string)
    ensures TotalLength(g + [msg]) == TotalLength(g) + |msg|
  {
    assert (g + [msg])[..|g + [msg]| - 1] == g;
  }

  /** The loop's running total is the total length of the chunk being filled. */
  lemma {:induction false} PackCountsLength(msgs: seq<string>)
    ensures Pack(msgs).currentLength == TotalLength(Pack(msgs).current)
    ensures msgs != [] ==> Pack(msgs).current != []
  {
    if msgs != [] {
      var init := msgs[..|msgs| - 1];
      var msg := msgs[|msgs| - 1];
      PackCountsLength(init);
      var q := Pack(init);
      if q.currentLength + |msg| > MaxChars {
        TotalLengthSnoc([], msg);
      } else {
        TotalLengthSnoc(q.current, msg);
      }
    }
  }

  lemma FlattenSnoc(gs: seq<seq<string>>, g: seq<string>)
    ensures Flatten(gs + [g]) == Flatten(gs) + g
  {
    assert (gs + [g])[..|gs|] == gs;
  }

  lemma PackSnoc(init: seq<string>, msg: string)
    ensures Pack(init + [msg]) == Step(Pack(init), msg)
  {
    assert (init + [msg])[..|init|] == init;
  }

  /** The chunking loop keeps the messages, in order. */
  lemma {:induction false} PackKeepsMessages(msgs: seq<string>)
    ensures Flatten(Pack(msgs).closed) + Pack(msgs).current == msgs
  {
    if msgs != [] {
      var init := msgs[..|msgs| - 1];
      var msg := msgs[|msgs| - 1];
      assert msgs == init + [msg];
      PackKeepsMessages(init);
      PackSnoc(init, msg);
      var q := Pack(init);
      if q.currentLength + |msg| > MaxChars {
        FlattenSnoc(q.closed, q.current);
      } else {
        assert Flatten(q.closed) + (q.current + [msg]) == (Flatten(q.closed) + q.current) + [msg];
      }
    }
  }

  /** Only the first closed chunk can be empty, and it is empty exactly when the first message is too long. */
  lemma {:induction false} PackEmptyChunk(msgs: seq<string>)
    ensures var p := Pack(msgs);
      && (forall j :: 0 < j < |p.closed| ==> p.closed[j] != [])
      && (msgs != [] ==> ((|p.closed| > 0 && p.closed[0] == []) <==> |msgs[0]| > MaxChars))
  {
    if msgs != [] {
      var init := msgs[..|msgs| - 1];
      PackEmptyChunk(init);
      PackCountsLength(init);
      assert init != [] ==> init[0] == msgs[0];
    }
  }

  /** Every chunk the loop builds is within budget or a single message. */
  lemma {:induction false} PackWithinBudget(msgs: seq<string>)
    ensures var p := Pack(msgs);
      && (forall j :: 0 <= j < |p.closed| ==> WithinBudget(p.closed[j]))
      && WithinBudget(p.current)
  {
    if msgs != [] {
      var init := msgs[..|msgs| - 1];
      var msg := msgs[|msgs| - 1];
      PackWithinBudget(init);
      PackCountsLength(init);
      var q := Pack(init);
      if q.currentLength + |msg| > MaxChars {
        TotalLengthSnoc([], msg);
      } else {
        TotalLengthSnoc(q.current, msg);
      }
    }
  }

  /** Neighbouring chunks the loop builds meet the greedy rule. */
  lemma {:induction false} PackGreedy(msgs: seq<string>)
    ensures var p := Pack(msgs);
      && (forall j :: 0 <= j < |p.closed| - 1 ==> GreedyBoundary(p.closed[j], p.closed[j + 1]))
      && (|p.closed| > 0 ==> GreedyBoundary(p.closed[|p.closed| - 1], p.current))
  {
    if msgs != [] {
      var init := msgs[..|msgs| - 1];
      var msg := msgs[|msgs| - 1];
      PackGreedy(init);
      PackCountsLength(init);
      var q := Pack(init);
      var p := Pack(msgs);
      if q.currentLength + |msg| <= MaxChars && q.current != [] {
        assert p.current[0] == q.current[0];
      }
    }
  }

  /** What every iteration of the chunking loop keeps true. */
  lemma PackInvariant(msgs: seq<string>)
    ensures var p := Pack(msgs);
      && Flatten(p.closed) + p.current == msgs
      && (msgs != [] ==> p.current != [])
      && (forall j :: 0 < j < |p.closed| ==> p.closed[j] != [])
      && (forall j :: 0 <= j < |p.closed| ==> WithinBudget(p.closed[j]))
      && WithinBudget(p.current)
      && (forall j :: 0 <= j < |p.closed| - 1 ==> GreedyBoundary(p.closed[j], p.closed[j + 1]))
      && (|p.closed| > 0 ==> GreedyBoundary(p.closed[|p.closed| - 1], p.current))
      && (msgs != [] ==> ((|p.closed| > 0 && p.closed[0] == []) <==> |msgs[0]| > MaxChars))
  {
    PackKeepsMessages(msgs);
    PackCountsLength(msgs);
    PackEmptyChunk(msgs);
    PackWithinBudget(msgs);
    PackGreedy(msgs);
  }

  /** Concatenating the chunks, in order, gives back exactly the input messages. */
  lemma GroupsConcatenate(msgs: seq<string>)
    ensures Flatten(Groups(msgs)) == msgs
  {
    PackInvariant(msgs);
    var p := Pack(msgs);
    if p.current != [] {
      assert (p.closed + [p.current])[..|p.closed|] == p.closed;
    }
  }

  /** No input, no chunk; some input, at least one chunk. */
  lemma GroupsEmptyIff(msgs: seq<string>)
    ensures Groups(msgs) == [] <==> msgs == []
  {
    PackInvariant(msgs);
  }

  /**
   * Every chunk totals at most MaxChars, except a chunk holding one message
   * that is by itself longer than MaxChars.
   */
  lemma GroupsWithinBudget(msgs: seq<string>)
    ensures forall j :: 0 <= j < |Groups(msgs)| ==> WithinBudget(Groups(msgs)[j])
  {
    PackInvariant(msgs);
  }

  /** The greedy rule: each chunk after the first starts with a message that did not fit into the one before. */
  lemma GroupsGreedy(msgs: seq<string>)
    ensures forall j :: 0 <= j < |Groups(msgs)| - 1 ==> GreedyBoundary(Groups(msgs)[j], Groups(msgs)[j + 1])
  {
    PackInvariant(msgs);
  }

  /**
   * An empty chunk can only be the first one, and it is there exactly when the
   * first message alone is longer than MaxChars.
   */
  lemma GroupsEmptyChunk(msgs: seq<string>)
    ensures Groups(msgs) != [] ==> msgs != []
    ensures forall j :: 0 <= j < |Groups(msgs)| ==> (Groups(msgs)[j] == [] <==> j == 0 && |msgs[0]| > MaxChars)
  {
    PackInvariant(msgs);
  }

  /**
   * A chunk's text is longer than its budgeted total by the newlines between its
   * messages, so up to |g| - 1 characters beyond MaxChars.
   */
  lemma ChunkTextLength(msgs: seq<string>, j: nat)
    requires j < |Groups(msgs)| && Groups(msgs)[j] != []
    ensures |ChunkTexts(msgs)| == |Groups(msgs)|
    ensures |ChunkTexts(msgs)[j]| == TotalLength(Groups(msgs)[j]) + |Groups(msgs)[j]| - 1
  {
    JoinLength("\n", Groups(msgs)[j]);
  }

  /** Two messages of 5000 characters share a chunk whose text is 10001 characters long. */
  lemma JoinedChunkExceedsBudget(a: string, b: string)
    requires |a| == 5000 && |b| == 5000
    ensures Groups([a, b]) == [[a, b]]
    ensures |ChunkTexts([a, b])| == 1 && |ChunkTexts([a, b])[0]| == MaxChars + 1
  {
    assert [a, b][..1] == [a];
    assert [a][..0] == [];
    assert Pack([a]) == Packing([], [a], 5000);
    assert Pack([a, b]) == Packing([], [a, b], 10000);
    TotalLengthSnoc([], a);
    JoinLength("\n", [a, b]);
    TotalLengthSnoc([a], b);
  }

  /** Three messages of 4000 characters: chunks [m1, m2] and [m3]. */
  lemma ThreeMessagesOf4000(m1: string, m2: string, m3: string)
    requires |m1| == 4000 && |m2| == 4000 && |m3| == 4000
    ensures Groups([m1, m2, m3]) == [[m1, m2], [m3]]
  {
    assert [m1, m2, m3][..2] == [m1, m2];
    assert [m1, m2][..1] == [m1];
    assert [m1][..0] == [];
    assert Pack([m1]) == Packing([], [m1], 4000);
    assert Pack([m1, m2]) == Packing([], [m1, m2], 8000);
    assert Pack([m1, m2, m3]) == Packing([[m1, m2]], [m3], 4000);
  }

  /** A first message longer than MaxChars yields an empty leading chunk. */
  lemma LongFirstMessage(m: string)
    requires |m| > MaxChars
    ensures Groups([m]) == [[], [m]]
    ensures ChunkTexts([m]) == ["", m]
  {
    assert [m][..0] == [];
    assert Pack([m]) == Packing([[]], [m], |m|);
  }

  /** The chunk texts, computed as the loop does. */
  method BuildChunks(messages: seq<string>) returns (chunks: seq<string>)
    ensures chunks == ChunkTexts(messages)
  {
    chunks := [];
    var currentChunk: seq<string> := [];
    var currentLength := 0;
    ghost var closed: seq<seq<string>> := [];
    for k := 0 to |messages|
      invariant Pack(messages[..k]) == Packing(closed, currentChunk, currentLength)
      invariant |chunks| == |closed|
      invariant forall j :: 0 <= j < |closed| ==> chunks[j] == Join("\n", closed[j])
    {
      var msg := messages[k];
      assert messages[..k + 1][..k] == messages[..k];
      if currentLength + |msg| > MaxChars {
        chunks := chunks + [Join("\n", currentChunk)];
        closed := closed + [currentChunk];
        currentChunk := [msg];
        currentLength := |msg|;
      } else {
        currentChunk := currentChunk + [msg];
        currentLength := currentLength + |msg|;
      }
    }
    assert messages[..|messages|] == messages;
    if currentChunk != [] {
      chunks := chunks + [Join("\n", currentChunk)];
    }
  }

  // ---------------------------------------------------------------------------
  // Prompts and provider calls

  const ChunkIntro: string := "Ты — аналитический помощник. Твоя задача — составить краткую сводку переписки.\n"

  const ChunkRules: string :=
    ":\n\n"
    + "ПРАВИЛА:\n"
    + "1. Только ключевые факты и решения.\n"
    + "2. Нейтральный тон, без имен и приветствий.\n"
    + "3. Не более 3 предложений для этой части.\n\n"
    + "ТЕКСТ:\n"

  const MergeIntro: string :=
    "Ты — главный аналитик. Перед тобой несколько кратких сводок одного канала.\n"
    + "Объедини их в один связный финальный дайджест.\n"
    + "ПРАВИЛА:\n"
    + "- Строго не более 5 предложений.\n"
    + "- Исключи повторы.\n"
    + "ВВОДНЫЕ ДАННЫЕ:\n"

  /** `ЧАСТЬ {i + 1} ИЗ {n}` for the chunk at 0-based index i of n. */
  function PartLabel(i: nat, n: nat): string
  {
    "ЧАСТЬ " + NatToString(i + 1) + " ИЗ " + NatToString(n)
  }

  /** The prompt for the chunk at 0-based index i of n. */
  function ChunkPrompt(i: nat, n: nat, chunkText: string): string
  {
    ChunkIntro + PartLabel(i, n) + ChunkRules + chunkText
  }

  /** The prompt of the merge call over the newline-joined partial summaries. */
  function MergePrompt(finalText: string): string
  {
    MergeIntro + finalText
  }

  /** The prompts of the per-chunk calls, in chunk order. */
  function ChunkPrompts(chunks: seq<string>): (ps: seq<string>)
    ensures |ps| == |chunks|
  {
    seq(|chunks|, i requires 0 <= i < |chunks| => ChunkPrompt(i, |chunks|, chunks[i]))
  }

  /** The provider's replies to the prompts, in order. */
  function Responses(prompts: seq<string>, provider: string -> string): (rs: seq<string>)
    ensures |rs| == |prompts|
  {
    seq(|prompts|, i requires 0 <= i < |prompts| => provider(prompts[i]))
  }

  /** Prompt i carries the label `ЧАСТЬ {i + 1} ИЗ {n}` right after the intro, and ends with the chunk text. */
  lemma ChunkPromptCarriesLabel(i: nat, n: nat, chunkText: string)
    ensures var p := ChunkPrompt(i, n, chunkText);
      var a := |ChunkIntro|;
      var b := a + |PartLabel(i, n)|;
      b <= |p| - |chunkText|
      && p[a..b] == PartLabel(i, n)
      && p[|p| - |chunkText|..] == chunkText
  {
    var p := ChunkPrompt(i, n, chunkText);
    assert p == (ChunkIntro + PartLabel(i, n)) + (ChunkRules + chunkText);
  }

  /** The number of decimal digits at the start of `s`. */
  function LeadingDigits(s: string): nat
  {
    if s != [] && '0' <= s[0] <= '9' then 1 + LeadingDigits(s[1..]) else 0
  }

  lemma {:induction false} LeadingDigitsOfNumeral(a: string, x: string)
    requires IsDigits(a)
    ensures LeadingDigits(a + " " + x) == |a|
  {
    if a != [] {
      assert (a + " " + x)[1..] == a[1..] + " " + x;
      LeadingDigitsOfNumeral(a[1..], x);
    }
  }

  /** A decimal numeral followed by a space is read back unambiguously. */
  lemma DigitsPrefixUnique(pre: string, a: string, b: string, x: string, y: string)
    requires IsDigits(a) && IsDigits(b)
    requires pre + (a + " " + x) == pre + (b + " " + y)
    ensures a == b
  {
    var u := a + " " + x;
    var v := b + " " + y;
    assert u == (pre + u)[|pre|..];
    assert v == (pre + v)[|pre|..];
    LeadingDigitsOfNumeral(a, x);
    LeadingDigitsOfNumeral(b, y);
    assert a == u[..|a|];
    assert b == v[..|b|];
  }

  lemma ChunkPromptShape(i: nat, n: nat, s: string)
    ensures ChunkPrompt(i, n, s)
      == (ChunkIntro + "ЧАСТЬ ") + (NatToString(i + 1) + " " + ("ИЗ " + NatToString(n) + ChunkRules + s))
  {
    assert " ИЗ " == " " + "ИЗ ";
  }

  /** Prompts with different part numbers differ: the prompt determines its chunk index. */
  lemma ChunkPromptDeterminesIndex(i: nat, j: nat, n: nat, s: string, t: string)
    requires ChunkPrompt(i, n, s) == ChunkPrompt(j, n, t)
    ensures i == j
  {
    ChunkPromptShape(i, n, s);
    ChunkPromptShape(j, n, t);
    DigitsPrefixUnique(ChunkIntro + "ЧАСТЬ ", NatToString(i + 1), NatToString(j + 1),
      "ИЗ " + NatToString(n) + ChunkRules + s, "ИЗ " + NatToString(n) + ChunkRules + t);
    NatToStringInjective(i + 1, j + 1);
  }

  /**
   * `summarize_messages`. Returns the digest and the prompts sent to the
   * provider, in call order.
   *  - no messages: the fixed reply, no provider call;
   *  - one chunk: one call, and that reply verbatim is the digest;
   *  - k > 1 chunks: k chunk calls in order, then one merge call over the
   *    newline-joined replies, whose reply is the digest.
   */
  method SummarizeMessages(messages: seq<string>, provider: string -> string)
    returns (digest: string, prompts: seq<string>)
    ensures messages == [] ==> digest == NoMessagesReply && prompts == []
    ensures messages != [] ==> |ChunkTexts(messages)| >= 1
    ensures messages != [] ==>
      var calls := ChunkPrompts(ChunkTexts(messages));
      |calls| <= |prompts| && prompts[..|calls|] == calls && digest == provider(prompts[|prompts| - 1])
    ensures messages != [] && |ChunkTexts(messages)| == 1 ==>
      prompts == ChunkPrompts(ChunkTexts(messages)) && digest == provider(prompts[0])
    ensures messages != [] && |ChunkTexts(messages)| > 1 ==>
      var calls := ChunkPrompts(ChunkTexts(messages));
      prompts == calls + [MergePrompt(Join("\n", Responses(calls, provider)))]
      && digest == provider(prompts[|calls|])
  {
    if messages == [] {
      return NoMessagesReply, [];
    }
    var chunks := BuildChunks(messages);
    GroupsEmptyIff(messages);
    var summaries: seq<string> := [];
    prompts := [];
    for i := 0 to |chunks|
      invariant |prompts| == i && |summaries| == i
      invariant forall j :: 0 <= j < i ==> prompts[j] == ChunkPrompt(j, |chunks|, chunks[j])
      invariant forall j :: 0 <= j < i ==> summaries[j] == provider(prompts[j])
    {
      var prompt := ChunkPrompt(i, |chunks|, chunks[i]);
      var res := provider(prompt);
      summaries := summaries + [res];
      prompts := prompts + [prompt];
    }
    assert prompts == ChunkPrompts(chunks);
    assert summaries == Responses(prompts, provider);
    var finalText := Join("\n", summaries);
    if |chunks| == 1 {
      assert prompts[..1] == prompts;
      return finalText, prompts;
    }
    var finalPrompt := MergePrompt(finalText);
    prompts := prompts + [finalPrompt];
    assert prompts[..|chunks|] == ChunkPrompts(chunks);
    digest := provider(finalPrompt);
  }
}
