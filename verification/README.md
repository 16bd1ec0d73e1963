# LLM-Chatbot session registry, in Dafny

`LLM-Chatbot.py` is a single-page chat front end. The page keeps its state in
the UI framework's per-user session store, `st.session_state`. That state is a
dictionary of chats (`chat id -> {"messages": [...], "title": ...}`), the id of
the chat on screen, a flag for "composing a chat not yet created", the selected
model and the provider binding for that model. Every click or submitted message
runs one event handler that updates that state and reruns the page.

This project models that registry and its handlers, and proves what they do:

- `wrappers.dfy` defines `Option`, standing for Python's `None`-or-value.
- `text.dfy` models the three string builtins the title prompt uses:
  `str.strip()` (with Python's whitespace set), `"\n".join` and
  `str.split("\n")` as its partner.
- `chat.dfy` holds the value-level model. It has:
  - the message and chat-record values;
  - the transcript and title prompt built by `generate_title`;
  - a parser that reads a title prompt back;
  - `ApplyTurn`, the effect of one turn on one chat record, and `Run`, a
    sequence of turns.
- `session.dfy` holds the class `SessionState`, whose fields are the session
  keys. Its methods are the handlers, and each method's `ensures` gives the
  whole new state. `Consistent()` is the invariant that every handler
  preserves. A dictionary iterates in insertion order, and the model keeps
  that order as the field `order`. So `next(iter(chats))` is `order[0]`.

The provider replies (the bot reply and the title reply) and the fresh
`uuid4()` id are parameters of the handlers. Each turn returns `sent`, the list
of prompts the turn sends to the provider, in order.

## Model

| member | source | states |
|---|---|---|
| Session.SessionState.Initialize | LLM-Chatbot.py:77-88 | Every key already present keeps its value. Each missing key gets its default: `{}`, `None`, `None`, `MODELS[0]`, `True`. A first run with no keys gives a consistent state. |
| Session.SessionState.AddChat | LLM-Chatbot.py:108-110 | `chats[id]` becomes `{messages, title}` and every other entry is unchanged. A new key goes to the end of the key order; an existing key keeps its place. |
| Session.KeyOrderAfterStore | LLM-Chatbot.py:110 | Storing under a key keeps `order` an exact, duplicate-free list of the keys, with a new key appended at the end. |
| Session.SessionState.AppendMessage | LLM-Chatbot.py:200 | The message is appended to that chat's list; nothing else changes. |
| Session.SessionState.SetTitle | LLM-Chatbot.py:212 | Only that chat's title changes. |
| Session.SessionState.GenerateTitle | LLM-Chatbot.py:101-106 | The prompt sent is the title prompt of that chat's messages. The title is the reply stripped of surrounding whitespace, so it has none at either end. |
| Session.Without | LLM-Chatbot.py:114-117 | Removing a key from the key order: exactly the other keys remain, without duplicates. The first remaining key is the old first key, or the second key when the first was removed. |
| Session.IndexOf | LLM-Chatbot.py:114 | The position found holds the key, and the key does not occur before it. |
| Session.WithoutAt | LLM-Chatbot.py:114 | Removing a key found at a position where it occurs once leaves the keys before that position and the keys after it, each in their order. |
| Session.WithoutCutsOut | LLM-Chatbot.py:114-117 | In a duplicate-free key order, `del` cuts out exactly the removed key's position, and the other keys keep their relative order. |
| Session.KeyOrderAfterDelete | LLM-Chatbot.py:114-117 | After `del`, the key order still lists exactly the keys. If any chat remains, its first key is a key of `chats`. |
| Session.WellFormedAfterDelete | LLM-Chatbot.py:114 | Removing a chat keeps every remaining chat well formed. |
| Session.SessionState.DeleteChat | LLM-Chatbot.py:112-120 | The entry is removed and the other entries are unchanged. If it was current and chats remain, the first remaining key in insertion order becomes current (and is a key). If none remain, current becomes `None` and new-session mode is set. Otherwise current and the flag are unchanged. Consistency is kept. |
| Session.SessionState.StartNewChat | LLM-Chatbot.py:147-150 | New-session mode is set, no chat is current and consistency is kept. |
| Session.SessionState.SelectChat | LLM-Chatbot.py:155-158 | The chosen chat becomes current, new-session mode is cleared and consistency is kept. |
| Chat.Models | LLM-Chatbot.py:17-23 | Definition of the offered model names, in the order of the `MODELS` list; `Initialize` defaults to its first entry. |
| Chat.Offered | LLM-Chatbot.py:146 | Definition of the condition under which `MODELS.index(model)` succeeds: the name is one of the offered models. `SwitchModel` requires it and `Consistent()` keeps it. |
| Session.SessionState.SwitchModel | LLM-Chatbot.py:163-165 | A different model becomes the model and gets a binding for that model. Choosing the same model changes nothing. Chats are untouched and consistency is kept. |
| Session.SessionState.CreateCurrentChat | LLM-Chatbot.py:194-198 | A fresh chat `{[], "New Chat"}` is added at the end of the key order and becomes current. New-session mode is cleared, the binding is for the selected model, and existing chats are untouched. |
| Session.SessionState.TitledExchange | LLM-Chatbot.py:178-182 | On the just-created chat: the prompt and then the reply are appended, and the title becomes the stripped title reply with no count check. It sends the user text, then the title prompt of the two messages. |
| Session.SessionState.ExamplePromptTurn | LLM-Chatbot.py:173-183 | From new-session mode, a fresh chat is created and made current. It holds `ApplyTurn(EmptyChat, turn)`, is appended to the key order, is bound to the selected model, and all other chats are untouched. Consistency is kept. |
| Session.SessionState.AppendExchange | LLM-Chatbot.py:200-208 | The user message and then the assistant message are appended to that chat; nothing else changes. |
| Session.SessionState.CompleteTurn | LLM-Chatbot.py:200-212 | The chat becomes `ApplyTurn(old record, turn)` and nothing else changes. It sends the user text, plus the title prompt exactly when the chat had no messages before. |
| Session.SessionState.SubmitMessage | LLM-Chatbot.py:193-214 | Empty input changes nothing and sends nothing. Otherwise, in new-session mode, a fresh chat is created first; the turn then goes to the current chat, which becomes `ApplyTurn(before, turn)` while every other chat is unchanged. It states the new key order, binding, flag and what was sent. Consistency is kept. |
| Session.TurnKeepsConsistent | LLM-Chatbot.py:193-212 | A completed turn, on a fresh chat or on the current one, takes a consistent session to a consistent session. |
| Session.WellFormedAfterTurn | LLM-Chatbot.py:200-212 | A turn on an alternating chat keeps every stored chat well formed: non-empty and alternating user/assistant. |
| Session.ConsistentStateAcceptsInput | LLM-Chatbot.py:193-200 | In every consistent state, a message typed outside new-session mode finds a current chat that exists and a binding to call. |
| Session.FirstMessageScenario | LLM-Chatbot.py:193-214 | A first run followed by one message leaves exactly one chat, which is current. It holds the message and the reply and is titled with the stripped title reply. |
| Session.DeleteActiveScenario | LLM-Chatbot.py:112-120 | With chats A then B and A current, deleting A leaves only B, and B is current. |
| Chat.ApplyTurn | LLM-Chatbot.py:200-212 | Definition of one turn on a chat record: the user message, then the reply, are appended, and the title becomes the stripped title reply when the chat then holds exactly two messages. Its properties are the `ApplyTurn*` and `FirstTurn` lemmas. |
| Chat.Run | LLM-Chatbot.py:200-212 | Definition of a sequence of turns on one chat, applied in order. Its properties are the `Run*` and `RetitleAtMostOnce` lemmas. |
| Chat.ApplyTurnAppends | LLM-Chatbot.py:200-208 | A turn adds exactly two messages, the user's then the assistant's, after the earlier messages, which are unchanged. |
| Chat.ApplyTurnTitle | LLM-Chatbot.py:210-212 | The title changes exactly when the chat had no messages, and then to the stripped title reply. |
| Chat.ApplyTurnAlternates | LLM-Chatbot.py:200-208 | A turn keeps the user/assistant alternation of a chat. |
| Chat.FirstTurn | LLM-Chatbot.py:198-212 | A turn on a new chat gives exactly `[user, assistant]`, titled with the stripped title reply. |
| Chat.Retitles | LLM-Chatbot.py:210 | Definition of the retitle test: after the turn's two appends the chat holds exactly two messages. |
| Chat.RetitleCount | LLM-Chatbot.py:210-212 | Definition of how many turns of a run take the retitle branch; `RetitleAtMostOnce` states its value. |
| Chat.RetitleAtMostOnce | LLM-Chatbot.py:210-212 | Over any sequence of turns, the title is rewritten once if the chat started empty and had a turn, and never otherwise. |
| Chat.RunExtends | LLM-Chatbot.py:200-208 | A sequence of turns adds two messages per turn and keeps the earlier messages unchanged. |
| Chat.RunAppendsPairs | LLM-Chatbot.py:200-208 | After a sequence of turns, turn `k`'s user message and reply sit at positions `n+2k` and `n+2k+1`. |
| Chat.RunAlternates | LLM-Chatbot.py:200-208 | A sequence of turns keeps the alternation. |
| Chat.RunTitle | LLM-Chatbot.py:210-212 | A chat's final title is its first turn's stripped title reply if it started empty, and its old title otherwise. |
| Chat.FormatLine | LLM-Chatbot.py:103 | Definition of the transcript line `role: content` of one message; `ParseFormatLine` reads it back. |
| Chat.Lines | LLM-Chatbot.py:103 | Definition of the transcript lines, one per message, in order; `LinesAt` states their number and contents. |
| Chat.Transcript | LLM-Chatbot.py:103 | Definition of the transcript: the lines joined by newlines; `TitlePromptRoundTrip` reads it back. |
| Chat.TitlePrompt | LLM-Chatbot.py:104 | Definition of the title prompt around the transcript; `TitlePromptShape` and `TitlePromptRoundTrip` state what it carries. |
| Chat.LinesAt | LLM-Chatbot.py:103 | There is one transcript line per message, and line `k` is `role: content` of message `k`. |
| Chat.TitlePromptShape | LLM-Chatbot.py:104 | The title prompt is the fixed header, then exactly the transcript, then the fixed footer. |
| Chat.ParseLineSound | LLM-Chatbot.py:103 | Only a `role: content` line parses, and it parses to the message it shows. |
| Chat.ParseFormatLine | LLM-Chatbot.py:103 | Formatting a message as `role: content` and parsing the line gives the message back. |
| Chat.ParseLinesOfMessages | LLM-Chatbot.py:103 | Parsing the transcript lines of a conversation gives that conversation back. |
| Chat.EmptyPromptParsesToNone | LLM-Chatbot.py:103-104 | The title prompt of the empty conversation does not parse back: its transcript splits into one empty line, which is no `role: content` line. |
| Chat.TitlePromptRoundTrip | LLM-Chatbot.py:103-104 | For a non-empty conversation of single-line messages, the title prompt parses back to exactly that conversation, in order. |
| Text.IsSpace | LLM-Chatbot.py:106 | Definition of the characters `str.strip()` removes: Python's `str.isspace()` set, the Unicode White_Space characters plus the four ASCII information separators. |
| Text.StripLeft | LLM-Chatbot.py:106 | `lstrip` drops a whitespace-only prefix and nothing else, and leaves no leading whitespace. |
| Text.StripRight | LLM-Chatbot.py:106 | `rstrip` drops a whitespace-only suffix and nothing else, and leaves no trailing whitespace. |
| Text.Strip | LLM-Chatbot.py:106 | The result has no whitespace at either end. It is empty exactly when the input is all whitespace. |
| Text.StripLeftStopsAt | LLM-Chatbot.py:106 | `lstrip` stops at the first non-whitespace character. |
| Text.StripRightStopsAt | LLM-Chatbot.py:106 | `rstrip` stops after the last non-whitespace character. |
| Text.StripUnique | LLM-Chatbot.py:106 | The slice with only whitespace around it and none at its own ends is exactly `strip()` of the string. |
| Text.StripIdempotent | LLM-Chatbot.py:106 | Stripping twice is stripping once. |
| Text.Join | LLM-Chatbot.py:103 | `"\n".join` of one or more lines is as long as the lines together plus one separator between each two neighbours. |
| Text.JoinAppend | LLM-Chatbot.py:103 | Joining two non-empty lists of lines is joining each and putting one newline between them. |
| Text.Split | LLM-Chatbot.py:103 | `split("\n")` gives at least one piece, no piece holds a newline, and joining the pieces gives the string back. |
| Text.SplitJoin | LLM-Chatbot.py:103 | Splitting the join of one or more newline-free lines gives those lines back. |

## Left out

- Rendering: Streamlit widgets, CSS, `st.markdown` and `st.chat_message` output are not modelled. Neither is the `if current_chat_id:` display guard (line 186), which only decides what is drawn.
- `st.rerun()`: each handler is one method call that ends where the source reruns the page. A run of the page handles one event.
- The provider: `create_conversation`, `get_bot_response` and the provider call in `generate_title` are foreign calls. Their replies are parameters. `Conversation` records only the model a binding was made for, and the provider's memory buffer (its history and its reset on a model switch) is not modelled.
- Provider failures: the model assumes every provider call returns. Three failures would break `Consistent()`. If `create_conversation` raises at line 197, lines 195-196 have already cleared the flag and set a fresh id, but line 198 never stores the chat. The current id then names a missing chat, and every later rerun fails at line 187, before the input box at line 192, until the user clicks New Chat (lines 147-150) or selects a chat (lines 155-158). If `get_bot_response` raises at line 205, the chat ends with an unanswered user message: on a first turn that is its only message. If `generate_title` raises at line 211, the chat keeps two messages and the placeholder title, and no later turn retitles it because the count never equals 2 again. The example-prompt branch has the same three points at lines 176, 179 and 181. So both clauses of `Consistent()` that say "the current id is a key of `chats`" and "every chat is non-empty and alternates user/assistant" rest on this assumption.
- `uuid.uuid4()`: replaced by a caller-supplied `freshId` that is not already a key.
- `generate_prompts`: `random.sample` over a constant list. The example prompt clicked is a parameter. A click on an example prompt is keyed to the prompt's text (lines 171-173), and the page redraws with a fresh sample, so in the running page a click may take effect only when the next sample draws that prompt again; `ExamplePromptTurn` treats every click as a turn.
- `load_dotenv` and `os.getenv`: environment I/O.
- Aliasing: a chat record is a value in the `chats` map, so the model does not capture two names sharing one Python message list. The source never creates such sharing.
- Session.SessionState.SubmitMessage: outside new-session mode it requires a current chat that exists and a binding. The source would raise without them. `ConsistentStateAcceptsInput` shows that every consistent state meets this.
- Session.SessionState.SwitchModel: requires the stored model to be one of the offered ones, because `MODELS.index` raises otherwise. The selectbox only offers those models.
- Chat.TitlePromptRoundTrip: holds only for single-line messages of a non-empty conversation. A newline inside a message makes the transcript ambiguous. The empty conversation is not ambiguous but parses to nothing, because `"".split("\n")` is `[""]` and the empty line is no `role: content` line (`EmptyPromptParsesToNone`); the source builds a title prompt only from two messages (lines 181 and 210-211). The prompt itself is modelled for all messages.
