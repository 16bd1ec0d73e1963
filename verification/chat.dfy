/** The values kept in the chat registry (messages, chat records), the prompt
    used to ask the provider for a title, and what one conversational turn does
    to a chat record. */
module Chat {
  import opened Wrappers
  import opened Text

  /** Chat identifiers are the strings of fresh UUIDs. */
  type ChatId = string

  datatype Role = User | Assistant

  /** One entry of a chat's `messages` list: `{"role": ..., "content": ...}`. */
  datatype Message = Message(role: Role, content: string)

  /** The value stored under a chat id: `{"messages": [...], "title": ...}`. */
  datatype ChatRecord = ChatRecord(messages: seq<Message>, title: string)

  /** The models offered in the sidebar, in display order. */
  const Models: seq<string> :=
    ["gemma-7b-it", "llama3-70b-8192", "llama3-8b-8192", "mixtral-8x7b-32768", "whisper-large-v3"]

  /** The title every chat carries until the provider has named it. */
  const PlaceholderTitle: string := "New Chat"

  /** A chat just created by `add_chat_to_list(id, [], "New Chat")`. */
  const EmptyChat: ChatRecord := ChatRecord([], PlaceholderTitle)

  const TitleHeader: string :=
    "Based on the following conversation, generate a short, concise title (max 6 words):\n\n"
  const TitleFooter: string := "\n\nTitle:"

  /** The string stored in a message's `role` field. */
  function RoleName(r: Role): (name: string) {
    match r
    case User => "user"
    case Assistant => "assistant"
  }

  /** The transcript line `f"{role}: {content}"` of one message. */
  function FormatLine(m: Message): (line: string) {
    RoleName(m.role) + ": " + m.content
  }

  /** The formatted lines of a conversation, one per message, in order. */
  function Lines(msgs: seq<Message>): (lines: seq<string>) {
    if msgs == [] then [] else [FormatLine(msgs[0])] + Lines(msgs[1..])
  }

  /** Line `k` of the transcript is the formatted message `k`. */
  lemma {:induction false} LinesAt(msgs: seq<Message>)
    ensures |Lines(msgs)| == |msgs|
    ensures forall k :: 0 <= k < |msgs| ==> Lines(msgs)[k] == FormatLine(msgs[k])
  {
    if msgs != [] {
      LinesAt(msgs[1..]);
      assert forall k :: 1 <= k < |msgs| ==> msgs[1..][k - 1] == msgs[k];
    }
  }

  /** The transcript: one formatted line per message, joined by newlines. */
  function Transcript(msgs: seq<Message>): (text: string) {
    Join(Lines(msgs))
  }

  /** Whether a name is one of the offered models. */
  predicate Offered(name: string) {
    name in Models
  }

  /** The prompt that asks the provider for a title: the transcript between a
      fixed header and footer. */
  function TitlePrompt(msgs: seq<Message>): (prompt: string) {
    TitleHeader + Transcript(msgs) + TitleFooter
  }

  /** The title prompt is the header, then exactly the transcript, then the
      footer. */
  lemma TitlePromptShape(msgs: seq<Message>)
    ensures var p := TitlePrompt(msgs);
      && |p| == |TitleHeader| + |Transcript(msgs)| + |TitleFooter|
      && p[..|TitleHeader|] == TitleHeader
      && p[|p| - |TitleFooter|..] == TitleFooter
      && p[|TitleHeader|..|p| - |TitleFooter|] == Transcript(msgs)
  {
  }

  // ---------------------------------------------------------------------------
  // Reading a title prompt back: the partner that shows the prompt carries the
  // whole conversation.

  /** Recovers the message of a transcript line, when it has one. */
  function ParseLine(line: string): (m: Option<Message>) {
    if |line| >= 6 && line[..6] == "user: " then Some(Message(User, line[6..]))
    else if |line| >= 11 && line[..11] == "assistant: " then Some(Message(Assistant, line[11..]))
    else None
  }

  /** Only a transcript line parses, and it parses to the message it shows. */
  lemma ParseLineSound(line: string)
    ensures ParseLine(line).Some? ==> FormatLine(ParseLine(line).value) == line
  {
    if |line| >= 6 && line[..6] == "user: " {
      assert line == "user: " + line[6..];
    } else if |line| >= 11 && line[..11] == "assistant: " {
      assert line == "assistant: " + line[11..];
    }
  }

  /** Formatting a message and parsing the line gives the message back. */
  lemma ParseFormatLine(m: Message)
    ensures ParseLine(FormatLine(m)) == Some(m)
  {
    var line := FormatLine(m);
    match m.role
    case User =>
      assert line[..6] == "user: ";
      assert line[6..] == m.content;
    case Assistant =>
      assert line[0] == 'a';
      assert line[..11] == "assistant: ";
      assert line[11..] == m.content;
  }

  /** Parses every line, or fails when one is not a transcript line. */
  function ParseLines(lines: seq<string>): (r: Option<seq<Message>>)
    ensures r.Some? ==> |r.value| == |lines|
  {
    if lines == [] then Some([])
    else
      var head := ParseLine(lines[0]);
      var tail := ParseLines(lines[1..]);
      if head.Some? && tail.Some? then Some([head.value] + tail.value) else None
  }

  /** The messages a title prompt was built from, if the text is one. */
  function ParseTitlePrompt(p: string): (msgs: Option<seq<Message>>) {
    if |p| >= |TitleHeader| + |TitleFooter|
       && p[..|TitleHeader|] == TitleHeader
       && p[|p| - |TitleFooter|..] == TitleFooter
    then ParseLines(Split(p[|TitleHeader|..|p| - |TitleFooter|]))
    else None
  }

  predicate SingleLine(m: Message) {
    '\n' !in m.content
  }

  /** Parsing the formatted lines of a conversation gives it back. */
  lemma {:induction false} ParseLinesOfMessages(msgs: seq<Message>)
    ensures ParseLines(Lines(msgs)) == Some(msgs)
  {
    if msgs != [] {
      var lines := Lines(msgs);
      assert ParseLine(lines[0]) == Some(msgs[0]) by {
        ParseFormatLine(msgs[0]);
      }
      assert ParseLines(lines[1..]) == Some(msgs[1..]) by {
        ParseLinesOfMessages(msgs[1..]);
        assert lines[1..] == Lines(msgs[1..]);
      }
      assert [msgs[0]] + msgs[1..] == msgs;
    }
  }

  /** The empty conversation is the one the round trip misses: its
      transcript `""` splits into the single empty line, which is no
      `role: content` line, so its prompt parses to nothing. */
  lemma EmptyPromptParsesToNone()
    ensures ParseTitlePrompt(TitlePrompt([])) == None
  {
    var p := TitlePrompt([]);
    assert Transcript([]) == "";
    assert p[|TitleHeader|..|p| - |TitleFooter|] == "";
  }

  /** The title prompt of a non-empty conversation whose messages are single
      lines gives that conversation back, in order: nothing is lost or
      reordered on the way to the provider. */
  lemma TitlePromptRoundTrip(msgs: seq<Message>)
    requires |msgs| >= 1
    requires forall k :: 0 <= k < |msgs| ==> SingleLine(msgs[k])
    ensures ParseTitlePrompt(TitlePrompt(msgs)) == Some(msgs)
  {
    TitlePromptShape(msgs);
    var lines := Lines(msgs);
    LinesAt(msgs);
    forall k | 0 <= k < |lines| ensures '\n' !in lines[k] {
      assert lines[k] == RoleName(msgs[k].role) + ": " + msgs[k].content;
      assert '\n' !in RoleName(msgs[k].role);
    }
    SplitJoin(lines);
    ParseLinesOfMessages(msgs);
  }

  // ---------------------------------------------------------------------------
  // Turns.

  /** The user's text and the two provider replies one turn consumes: the
      answer to the user, and the raw reply to the title prompt. */
  datatype TurnInput = TurnInput(userText: string, reply: string, titleReply: string)

  /** Messages alternate user, assistant, user, ... and come in whole pairs. */
  ghost predicate Alternates(msgs: seq<Message>) {
    && |msgs| % 2 == 0
    && forall i :: 0 <= i < |msgs| ==> msgs[i].role == (if i % 2 == 0 then User else Assistant)
  }

  /** One turn on a chat record: the user message, then the assistant's reply,
      are appended; when the chat then holds exactly two messages the title is
      replaced by the stripped title reply. */
  function ApplyTurn(rec: ChatRecord, t: TurnInput): (after: ChatRecord) {
    var msgs := rec.messages + [Message(User, t.userText)] + [Message(Assistant, t.reply)];
    ChatRecord(msgs, if |msgs| == 2 then Strip(t.titleReply) else rec.title)
  }

  /** A turn adds exactly two messages, the user's and then the reply, after
      the earlier ones, which it leaves as they were. */
  lemma ApplyTurnAppends(rec: ChatRecord, t: TurnInput)
    ensures var r := ApplyTurn(rec, t).messages;
      && |r| == |rec.messages| + 2
      && r[..|rec.messages|] == rec.messages
      && r[|rec.messages|] == Message(User, t.userText)
      && r[|rec.messages| + 1] == Message(Assistant, t.reply)
  {
  }

  /** A turn changes the title exactly when the chat had no messages before
      it, and then to the stripped title reply. */
  lemma ApplyTurnTitle(rec: ChatRecord, t: TurnInput)
    ensures ApplyTurn(rec, t).title == if rec.messages == [] then Strip(t.titleReply) else rec.title
  {
  }

  /** A turn keeps the user/assistant alternation of a chat. */
  lemma ApplyTurnAlternates(rec: ChatRecord, t: TurnInput)
    requires Alternates(rec.messages)
    ensures Alternates(ApplyTurn(rec, t).messages)
  {
    ApplyTurnAppends(rec, t);
    var r := ApplyTurn(rec, t).messages;
    var n := |rec.messages|;
    forall i | 0 <= i < |r| ensures r[i].role == (if i % 2 == 0 then User else Assistant) {
      if i < n {
        assert r[i] == r[..n][i];
      }
    }
  }

  /** The first turn of a new chat leaves exactly the user message and the
      reply, in that order, and replaces the placeholder title by the stripped
      title reply. */
  lemma FirstTurn(t: TurnInput)
    ensures ApplyTurn(EmptyChat, t) ==
      ChatRecord([Message(User, t.userText), Message(Assistant, t.reply)], Strip(t.titleReply))
  {
    assert [] + [Message(User, t.userText)] + [Message(Assistant, t.reply)]
        == [Message(User, t.userText), Message(Assistant, t.reply)];
  }

  /** Whether a turn rewrites the title: the message count reaches two. */
  predicate Retitles(rec: ChatRecord, t: TurnInput) {
    |ApplyTurn(rec, t).messages| == 2
  }

  /** A run of turns on one chat. */
  function Run(rec: ChatRecord, turns: seq<TurnInput>): (after: ChatRecord)
    decreases |turns|
  {
    if turns == [] then rec else Run(ApplyTurn(rec, turns[0]), turns[1..])
  }

  /** How many turns of a run rewrite the title. */
  function RetitleCount(rec: ChatRecord, turns: seq<TurnInput>): (count: nat)
    decreases |turns|
  {
    if turns == [] then 0
    else (if Retitles(rec, turns[0]) then 1 else 0) + RetitleCount(ApplyTurn(rec, turns[0]), turns[1..])
  }

  /** The title is rewritten at most once in the life of a chat: exactly once
      when the run starts from an empty chat and has a turn, never otherwise. */
  lemma {:induction false} RetitleAtMostOnce(rec: ChatRecord, turns: seq<TurnInput>)
    ensures RetitleCount(rec, turns) == if rec.messages == [] && turns != [] then 1 else 0
    decreases |turns|
  {
    if turns != [] {
      var next := ApplyTurn(rec, turns[0]);
      ApplyTurnAppends(rec, turns[0]);
      RetitleAtMostOnce(next, turns[1..]);
    }
  }

  /** A run of turns adds two messages per turn after the old messages,
      which it leaves as they were. */
  lemma {:induction false} RunExtends(rec: ChatRecord, turns: seq<TurnInput>)
    ensures |Run(rec, turns).messages| == |rec.messages| + 2 * |turns|
    ensures Run(rec, turns).messages[..|rec.messages|] == rec.messages
    decreases |turns|
  {
    if turns != [] {
      var next := ApplyTurn(rec, turns[0]);
      ApplyTurnAppends(rec, turns[0]);
      RunExtends(next, turns[1..]);
      var r := Run(next, turns[1..]).messages;
      var n := |rec.messages|;
      assert r[..n] == r[..n + 2][..n];
    }
  }

  /** After a run, turn `k`'s user message and reply sit at positions
      `n + 2k` and `n + 2k + 1`, where `n` is the old message count. */
  lemma {:induction false} RunAppendsPairs(rec: ChatRecord, turns: seq<TurnInput>)
    ensures |Run(rec, turns).messages| == |rec.messages| + 2 * |turns|
    ensures forall k :: 0 <= k < |turns| ==>
      && Run(rec, turns).messages[|rec.messages| + 2 * k] == Message(User, turns[k].userText)
      && Run(rec, turns).messages[|rec.messages| + 2 * k + 1] == Message(Assistant, turns[k].reply)
    decreases |turns|
  {
    RunExtends(rec, turns);
    if turns != [] {
      var next := ApplyTurn(rec, turns[0]);
      var r := Run(next, turns[1..]).messages;
      var n := |rec.messages|;
      assert r[n] == Message(User, turns[0].userText) && r[n + 1] == Message(Assistant, turns[0].reply) by {
        ApplyTurnAppends(rec, turns[0]);
        RunExtends(next, turns[1..]);
        assert r[n] == r[..n + 2][n] && r[n + 1] == r[..n + 2][n + 1];
      }
      assert forall k :: 1 <= k < |turns| ==>
        && r[n + 2 * k] == Message(User, turns[k].userText)
        && r[n + 2 * k + 1] == Message(Assistant, turns[k].reply)
      by {
        ApplyTurnAppends(rec, turns[0]);
        RunAppendsPairs(next, turns[1..]);
        forall k | 1 <= k < |turns|
          ensures r[n + 2 * k] == Message(User, turns[k].userText)
          ensures r[n + 2 * k + 1] == Message(Assistant, turns[k].reply)
        {
          assert turns[1..][k - 1] == turns[k];
          assert n + 2 * k == (n + 2) + 2 * (k - 1);
        }
      }
    }
  }

  /** A run keeps the user/assistant alternation of a chat. */
  lemma {:induction false} RunAlternates(rec: ChatRecord, turns: seq<TurnInput>)
    requires Alternates(rec.messages)
    ensures Alternates(Run(rec, turns).messages)
    decreases |turns|
  {
    if turns != [] {
      ApplyTurnAlternates(rec, turns[0]);
      RunAlternates(ApplyTurn(rec, turns[0]), turns[1..]);
    }
  }

  /** The title a chat ends up with: the stripped title reply of its first
      turn when it started empty, its old title otherwise. */
  lemma {:induction false} RunTitle(rec: ChatRecord, turns: seq<TurnInput>)
    ensures Run(rec, turns).title ==
      if rec.messages == [] && turns != [] then Strip(turns[0].titleReply) else rec.title
    decreases |turns|
  {
    if turns != [] {
      var next := ApplyTurn(rec, turns[0]);
      ApplyTurnAppends(rec, turns[0]);
      ApplyTurnTitle(rec, turns[0]);
      RunTitle(next, turns[1..]);
    }
  }
}
