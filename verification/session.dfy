/** The chat-session registry held in the UI framework's per-user session state,
    and the event handlers of the page that change it. */
module Session {
  import opened Wrappers
  import opened Text
  import opened Chat

  /** A provider binding built by `create_conversation(model)`: a chat chain on
      the named model with a fresh, empty memory buffer (the buffer itself is
      not modelled). */
  datatype Conversation = Conversation(modelName: string)

  predicate Distinct(s: seq<ChatId>) {
    forall i, j :: 0 <= i < j < |s| ==> s[i] != s[j]
  }

  /** The position of the first occurrence of `x` in `s`. */
  function IndexOf(s: seq<ChatId>, x: ChatId): (i: nat)
    requires x in s
    ensures i < |s| && s[i] == x && x !in s[..i]
  {
    if s[0] == x then 0 else 1 + IndexOf(s[1..], x)
  }

  /** The key order of a dictionary after `del d[x]`: `x` is gone, the other
      keys keep their relative order. */
  function Without(s: seq<ChatId>, x: ChatId): (r: seq<ChatId>)
    ensures forall y :: y in r <==> y in s && y != x
    ensures Distinct(s) ==> Distinct(r)
    ensures x !in s ==> r == s
    ensures |s| > 0 && s[0] != x ==> |r| > 0 && r[0] == s[0]
    ensures Distinct(s) && |s| >= 2 && s[0] == x ==> |r| > 0 && r[0] == s[1]
  {
    if s == [] then []
    else if s[0] == x then
      assert Distinct(s) ==> x !in s[1..];
      Without(s[1..], x)
    else
      var rest := Without(s[1..], x);
      assert Distinct(s) ==> s[0] !in s[1..];
      [s[0]] + rest
  }

  /** Removing the key at position `i`, where it occurs once, cuts out
      exactly that position. */
  lemma {:induction false} WithoutAt(s: seq<ChatId>, x: ChatId, i: nat)
    requires i < |s| && s[i] == x && x !in s[..i] && x !in s[i + 1..]
    ensures Without(s, x) == s[..i] + s[i + 1..]
  {
    if i == 0 {
      assert s[..0] + s[1..] == s[1..];
    } else {
      var tail := s[1..];
      assert tail[..i - 1] == s[1..i] && tail[i..] == s[i + 1..];
      WithoutAt(tail, x, i - 1);
      assert [s[0]] + tail[..i - 1] == s[..i];
    }
  }

  /** In a duplicate-free key order, removing a key cuts out exactly its one
      position: the keys before it and the keys after it stay, in order. */
  lemma WithoutCutsOut(s: seq<ChatId>, x: ChatId)
    requires Distinct(s) && x in s
    ensures Without(s, x) == s[..IndexOf(s, x)] + s[IndexOf(s, x) + 1..]
  {
    var i := IndexOf(s, x);
    assert x !in s[i + 1..] by {
      forall j | i + 1 <= j < |s| ensures s[j] != x {
        assert s[i] == x;
      }
    }
    WithoutAt(s, x, i);
  }

  /** Every stored chat holds at least one whole user/assistant exchange. */
  ghost predicate ChatsWellFormed(chats: map<ChatId, ChatRecord>) {
    forall id :: id in chats ==> WellFormedChat(chats[id])
  }

  ghost predicate WellFormedChat(rec: ChatRecord) {
    rec.messages != [] && Alternates(rec.messages)
  }

  lemma WellFormedAfterTurn(chats: map<ChatId, ChatRecord>, id: ChatId, before: ChatRecord, t: TurnInput)
    requires ChatsWellFormed(chats)
    requires Alternates(before.messages)
    ensures ChatsWellFormed(chats[id := ApplyTurn(before, t)])
  {
    ApplyTurnAlternates(before, t);
  }

  lemma UpdatedTwice(m: map<ChatId, ChatRecord>, k: ChatId, a: ChatRecord, b: ChatRecord)
    ensures m[k := a][k := b] == m[k := b]
  {
  }

  /** `order` lists the keys of `chats`, each once. */
  ghost predicate KeyOrder(chats: map<ChatId, ChatRecord>, order: seq<ChatId>) {
    && Distinct(order)
    && (forall id :: id in order <==> id in chats)
  }

  /** Storing a record under a key keeps the key order: a new key goes to
      the end, an existing key keeps its place. */
  lemma KeyOrderAfterStore(chats: map<ChatId, ChatRecord>, order: seq<ChatId>, id: ChatId, rec: ChatRecord)
    requires KeyOrder(chats, order)
    ensures KeyOrder(chats[id := rec], if id in chats then order else order + [id])
  {
    if id !in chats {
      assert id !in order;
    }
  }

  lemma KeyOrderAfterDelete(chats: map<ChatId, ChatRecord>, order: seq<ChatId>, id: ChatId)
    requires KeyOrder(chats, order)
    ensures KeyOrder(chats - {id}, Without(order, id))
    ensures chats - {id} != map[] ==> |Without(order, id)| > 0 && Without(order, id)[0] in chats - {id}
  {
    var rest := chats - {id};
    if rest != map[] {
      var k :| k in rest;
      assert k in Without(order, id);
    }
  }

  lemma WellFormedAfterDelete(chats: map<ChatId, ChatRecord>, id: ChatId)
    ensures ChatsWellFormed(chats) ==> ChatsWellFormed(chats - {id})
  {
  }

  /** What holds in every state the page can reach from a first run, over the
      six session keys: `order` lists the keys of `chats`; the new-session
      flag is set exactly when no chat is current; the current chat exists;
      every stored chat holds whole user/assistant exchanges and at least one;
      once a chat exists there is a binding, and the binding is for the
      selected model, which is one of the offered models. */
  ghost predicate ConsistentState(chats: map<ChatId, ChatRecord>, order: seq<ChatId>,
                                  current: Option<ChatId>, conversation: Option<Conversation>,
                                  model: string, isNew: bool) {
    && KeyOrder(chats, order)
    && (isNew <==> current.None?)
    && (current.Some? ==> current.value in chats)
    && (chats != map[] ==> conversation.Some?)
    && (conversation.Some? ==> conversation.value.modelName == model)
    && Offered(model)
    && ChatsWellFormed(chats)
  }

  /** A completed turn keeps the session consistent: in new-session mode on a
      fresh chat that gets the selected model's binding, otherwise on the
      current chat. */
  lemma TurnKeepsConsistent(chats: map<ChatId, ChatRecord>, order: seq<ChatId>,
                            current: Option<ChatId>, conversation: Option<Conversation>,
                            model: string, isNew: bool, freshId: ChatId, t: TurnInput)
    requires ConsistentState(chats, order, current, conversation, model, isNew)
    requires isNew ==> freshId !in chats
    ensures var id := if isNew then freshId else current.value;
      var before := if isNew then EmptyChat else chats[id];
      ConsistentState(chats[id := ApplyTurn(before, t)], if isNew then order + [id] else order,
                      Some(id), if isNew then Some(Conversation(model)) else conversation, model, false)
  {
    if isNew {
      KeyOrderAfterStore(chats, order, freshId, ApplyTurn(EmptyChat, t));
      WellFormedAfterTurn(chats, freshId, EmptyChat, t);
    } else {
      var id := current.value;
      KeyOrderAfterStore(chats, order, id, ApplyTurn(chats[id], t));
      WellFormedAfterTurn(chats, id, chats[id], t);
    }
  }

  /** `st.session_state`, restricted to the keys the page uses. */
  class SessionState {
    /** `chats`: chat id to record. */
    var chats: map<ChatId, ChatRecord>
    /** The insertion order of the keys of `chats`, which is the order a
        dictionary iterates in. */
    var order: seq<ChatId>
    /** `current_chat_id`: the chat shown and written to, if any. */
    var currentChatId: Option<ChatId>
    /** `conversation`: the provider binding replies come from, if any. */
    var conversation: Option<Conversation>
    /** `model`: the model selected in the sidebar. */
    var model: string
    /** `is_new_session`: the page is composing a chat not yet created. */
    var isNewSession: bool

    /** `order` lists the keys of `chats`, each once. */
    ghost predicate Valid()
      reads this
    {
      KeyOrder(chats, order)
    }

    /** The session keys are consistent with each other. */
    ghost predicate Consistent()
      reads this
    {
      ConsistentState(chats, order, currentChatId, conversation, model, isNewSession)
    }

    /** `initialize_session_state()`: every key already in the session state
        keeps its value; each missing one gets its default. `order0` is the key
        order of a stored `chats`. */
    constructor Initialize(chats0: Option<map<ChatId, ChatRecord>>, order0: seq<ChatId>,
                           current0: Option<Option<ChatId>>, conversation0: Option<Option<Conversation>>,
                           model0: Option<string>, isNew0: Option<bool>)
      requires chats0.Some? ==> Distinct(order0) && forall id :: id in order0 <==> id in chats0.value
      ensures Valid()
      ensures chats == (if chats0.Some? then chats0.value else map[])
      ensures order == (if chats0.Some? then order0 else [])
      ensures currentChatId == (if current0.Some? then current0.value else None)
      ensures conversation == (if conversation0.Some? then conversation0.value else None)
      ensures model == (if model0.Some? then model0.value else Models[0])
      ensures isNewSession == (if isNew0.Some? then isNew0.value else true)
      ensures chats0.None? && current0.None? && conversation0.None? && model0.None? && isNew0.None?
              ==> Consistent()
    {
      chats, order := map[], [];
      if chats0.Some? {
        chats, order := chats0.value, order0;
      }
      currentChatId := None;
      if current0.Some? {
        currentChatId := current0.value;
      }
      conversation := None;
      if conversation0.Some? {
        conversation := conversation0.value;
      }
      model := Models[0];
      if model0.Some? {
        model := model0.value;
      }
      isNewSession := true;
      if isNew0.Some? {
        isNewSession := isNew0.value;
      }
    }

    /** `add_chat_to_list(id, messages, title)`: `chats[id]` becomes the new
        record; a new key goes to the end of the key order, an existing one
        keeps its place; every other entry is untouched. */
    method AddChat(id: ChatId, messages: seq<Message>, title: string)
      requires Valid()
      modifies this`chats, this`order
      ensures Valid()
      ensures chats == old(chats)[id := ChatRecord(messages, title)]
      ensures forall k :: k in old(chats) && k != id ==> k in chats && chats[k] == old(chats)[k]
      ensures order == if id in old(chats) then old(order) else old(order) + [id]
    {
      if id !in chats {
        order := order + [id];
      }
      chats := chats[id := ChatRecord(messages, title)];
    }

    /** `chats[id]["messages"].append(m)`. */
    method AppendMessage(id: ChatId, m: Message)
      requires Valid()
      requires id in chats
      modifies this`chats
      ensures Valid()
      ensures chats == old(chats)[id := old(chats)[id].(messages := old(chats)[id].messages + [m])]
    {
      chats := chats[id := chats[id].(messages := chats[id].messages + [m])];
    }

    /** `chats[id]["title"] = title`. */
    method SetTitle(id: ChatId, title: string)
      requires Valid()
      requires id in chats
      modifies this`chats
      ensures Valid()
      ensures chats == old(chats)[id := old(chats)[id].(title := title)]
    {
      chats := chats[id := chats[id].(title := title)];
    }

    /** `generate_title(id)`: the effectful wrapper of `TitlePrompt` and
        `Strip`. It returns the prompt sent to the provider for chat `id`, and
        the title made of the provider's reply with surrounding whitespace
        removed. What the prompt carries is proved of `TitlePrompt`
        (`TitlePromptShape`, `TitlePromptRoundTrip`), what the title is, of
        `Strip` (`StripUnique`, `StripIdempotent`). */
    method GenerateTitle(id: ChatId, titleReply: string) returns (prompt: string, title: string)
      requires id in chats
      ensures prompt == TitlePrompt(chats[id].messages)
      ensures Trimmed(title) && title == Strip(titleReply)
    {
      prompt := TitlePrompt(chats[id].messages);
      title := Strip(titleReply);
    }

    /** `delete_chat(id)`: the entry goes; if it was the current chat, the
        first remaining key in insertion order becomes current, or, when none
        remains, the page returns to new-session mode. */
    method DeleteChat(id: ChatId)
      requires Valid()
      requires id in chats
      modifies this`chats, this`order, this`currentChatId, this`isNewSession
      ensures Valid()
      ensures chats == old(chats) - {id}
      ensures forall k :: k in chats ==> chats[k] == old(chats)[k]
      ensures order == Without(old(order), id)
      ensures old(currentChatId) == Some(id) && chats != map[] ==>
        && currentChatId == Some(order[0])
        && currentChatId.value in chats
        && isNewSession == old(isNewSession)
      ensures old(currentChatId) == Some(id) && chats == map[] ==>
        currentChatId == None && isNewSession
      ensures old(currentChatId) != Some(id) ==>
        currentChatId == old(currentChatId) && isNewSession == old(isNewSession)
      ensures old(Consistent()) ==> Consistent()
    {
      KeyOrderAfterDelete(chats, order, id);
      WellFormedAfterDelete(chats, id);
      chats := chats - {id};
      order := Without(order, id);
      if currentChatId == Some(id) {
        if chats != map[] {
          currentChatId := Some(order[0]);
        } else {
          currentChatId := None;
          isNewSession := true;
        }
      }
    }

    /** The "New Chat" button: back to new-session mode, no chat current. */
    method StartNewChat()
      requires Valid()
      modifies this`isNewSession, this`currentChatId
      ensures Valid()
      ensures isNewSession && currentChatId == None
      ensures old(Consistent()) ==> Consistent()
    {
      isNewSession := true;
      currentChatId := None;
    }

    /** A chat's button in the sidebar: that chat becomes current. */
    method SelectChat(id: ChatId)
      requires Valid()
      requires id in chats
      modifies this`isNewSession, this`currentChatId
      ensures Valid()
      ensures currentChatId == Some(id) && !isNewSession
      ensures old(Consistent()) ==> Consistent()
    {
      currentChatId := Some(id);
      isNewSession := false;
    }

    /** The model selectbox: a different choice becomes the model and gets a
        new binding; choosing the current model changes nothing. The stored
        chats are never touched. */
    method SwitchModel(choice: string)
      requires Valid()
      requires Offered(model) && Offered(choice)
      modifies this`model, this`conversation
      ensures Valid()
      ensures model == choice
      ensures conversation == if choice != old(model) then Some(Conversation(choice)) else old(conversation)
      ensures old(Consistent()) ==> Consistent()
    {
      if choice != model {
        model := choice;
        conversation := Some(Conversation(model));
      }
    }

    /** Leaves new-session mode with a fresh, empty chat `freshId` as the
        current chat and a new binding for the selected model. */
    method CreateCurrentChat(freshId: ChatId)
      requires Valid()
      requires freshId !in chats
      modifies this
      ensures Valid()
      ensures !isNewSession && currentChatId == Some(freshId)
      ensures conversation == Some(Conversation(model)) && model == old(model)
      ensures chats == old(chats)[freshId := EmptyChat]
      ensures order == old(order) + [freshId]
    {
      isNewSession := false;
      currentChatId := Some(freshId);
      conversation := Some(Conversation(model));
      AddChat(freshId, [], PlaceholderTitle);
    }

    /** Clicking an example prompt (offered only in new-session mode): a fresh
        chat is created and made current, the prompt and the reply are
        appended, and the chat is titled. `sent` lists what was sent to the
        provider, in order. */
    method ExamplePromptTurn(prompt: string, freshId: ChatId, reply: string, titleReply: string)
      returns (sent: seq<string>)
      requires Valid()
      requires isNewSession
      requires freshId !in chats
      modifies this
      ensures Valid()
      ensures
        && !isNewSession && currentChatId == Some(freshId)
        && chats == old(chats)[freshId := ApplyTurn(EmptyChat, TurnInput(prompt, reply, titleReply))]
        && order == old(order) + [freshId]
        && conversation == Some(Conversation(model)) && model == old(model)
        && sent == [prompt, TitlePrompt(chats[freshId].messages)]
      ensures old(Consistent()) ==> Consistent()
    {
      ghost var start, order0, current0, conversation0 := chats, order, currentChatId, conversation;
      ghost var t := TurnInput(prompt, reply, titleReply);
      CreateCurrentChat(freshId);
      sent := TitledExchange(freshId, prompt, reply, titleReply);
      assert chats[freshId] == ApplyTurn(EmptyChat, t) by {
        FirstTurn(t);
      }
      UpdatedTwice(start, freshId, EmptyChat, chats[freshId]);
      if ConsistentState(start, order0, current0, conversation0, model, true) {
        TurnKeepsConsistent(start, order0, current0, conversation0, model, true, freshId, t);
      }
    }

    /** The exchange of an example-prompt turn, on the chat just created:
        both appends, then the title prompt is sent and the chat takes the
        stripped reply as its title, with no check of the message count. */
    method TitledExchange(id: ChatId, userText: string, reply: string, titleReply: string)
      returns (sent: seq<string>)
      requires Valid()
      requires id in chats && chats[id].messages == []
      modifies this`chats
      ensures Valid()
      ensures chats == old(chats)[id := ChatRecord([Message(User, userText), Message(Assistant, reply)], Strip(titleReply))]
      ensures sent == [userText, TitlePrompt(chats[id].messages)]
    {
      ghost var start := chats;
      AppendExchange(id, userText, reply);
      ghost var exchanged := chats[id];
      assert exchanged.messages == [Message(User, userText), Message(Assistant, reply)];
      var titlePrompt, title := GenerateTitle(id, titleReply);
      UpdatedTwice(start, id, exchanged, exchanged.(title := title));
      SetTitle(id, title);
      assert chats[id].messages == exchanged.messages;
      sent := [userText, titlePrompt];
    }

    /** The two appends of a turn: the user message, then the reply. */
    method AppendExchange(id: ChatId, userText: string, reply: string)
      requires Valid()
      requires id in chats
      modifies this`chats
      ensures Valid()
      ensures chats == old(chats)[id := old(chats)[id].(messages :=
        old(chats)[id].messages + [Message(User, userText)] + [Message(Assistant, reply)])]
    {
      ghost var start := chats;
      AppendMessage(id, Message(User, userText));
      AppendMessage(id, Message(Assistant, reply));
      UpdatedTwice(start, id, start[id := chats[id]][id], chats[id]);
    }

    /** What every turn does to an existing chat `id`: the user message is
        appended, then the reply; when the chat now holds exactly two
        messages, the title prompt is sent and the chat gets the stripped
        title reply as its title. `sent` lists what was sent to the provider,
        in order. */
    method CompleteTurn(id: ChatId, t: TurnInput) returns (sent: seq<string>)
      requires Valid()
      requires id in chats
      modifies this`chats
      ensures Valid()
      ensures chats == old(chats)[id := ApplyTurn(old(chats)[id], t)]
      ensures sent == [t.userText] + (if old(chats)[id].messages == [] then [TitlePrompt(chats[id].messages)] else [])
    {
      ghost var start := chats;
      ghost var rec := chats[id];
      AppendExchange(id, t.userText, t.reply);
      sent := [t.userText];
      if |chats[id].messages| == 2 {
        ghost var exchanged := chats[id];
        var titlePrompt, title := GenerateTitle(id, t.titleReply);
        UpdatedTwice(start, id, exchanged, exchanged.(title := title));
        SetTitle(id, title);
        assert chats[id].messages == exchanged.messages;
        sent := sent + [titlePrompt];
      }
      assert chats[id] == ApplyTurn(rec, t);
    }

    /** The chat input. Empty input does nothing. Otherwise, in new-session
        mode a fresh chat is created and made current first; then the turn is
        completed on the current chat. `sent` lists what was sent to the
        provider, in order. */
    method SubmitMessage(input: string, freshId: ChatId, reply: string, titleReply: string)
      returns (sent: seq<string>)
      requires Valid()
      requires input != [] && isNewSession ==> freshId !in chats
      requires input != [] && !isNewSession ==>
        currentChatId.Some? && currentChatId.value in chats && conversation.Some?
      modifies this
      ensures Valid()
      ensures input == [] ==>
        && chats == old(chats) && order == old(order) && currentChatId == old(currentChatId)
        && conversation == old(conversation) && model == old(model) && isNewSession == old(isNewSession)
        && sent == []
      ensures input != [] ==>
        var id := if old(isNewSession) then freshId else old(currentChatId).value;
        var before := if old(isNewSession) then EmptyChat else old(chats)[id];
        && !isNewSession && currentChatId == Some(id)
        && chats == old(chats)[id := ApplyTurn(before, TurnInput(input, reply, titleReply))]
        && order == (if old(isNewSession) then old(order) + [id] else old(order))
        && conversation == (if old(isNewSession) then Some(Conversation(model)) else old(conversation))
        && model == old(model)
        && sent == [input] + (if before.messages == [] then [TitlePrompt(chats[id].messages)] else [])
      ensures old(Consistent()) ==> Consistent()
    {
      sent := [];
      if input != [] {
        ghost var start, order0, current0, conversation0, isNew0 :=
          chats, order, currentChatId, conversation, isNewSession;
        var t := TurnInput(input, reply, titleReply);
        if isNewSession {
          CreateCurrentChat(freshId);
        }
        var id := currentChatId.value;
        ghost var before := chats[id];
        sent := CompleteTurn(id, t);
        UpdatedTwice(start, id, before, chats[id]);
        if ConsistentState(start, order0, current0, conversation0, model, isNew0) {
          TurnKeepsConsistent(start, order0, current0, conversation0, model, isNew0, freshId, t);
        }
      }
    }
  }

  /** In every reachable state the chat input can be used without a missing
      chat or a missing binding. */
  lemma ConsistentStateAcceptsInput(s: SessionState)
    requires s.Consistent()
    ensures !s.isNewSession ==>
      s.currentChatId.Some? && s.currentChatId.value in s.chats && s.conversation.Some?
  {
  }

  /** A first run followed by one non-empty message leaves exactly one chat,
      current, holding that message and the reply, titled with the stripped
      title reply. */
  method FirstMessageScenario(text: string, freshId: ChatId, reply: string, titleReply: string)
    returns (chats: map<ChatId, ChatRecord>, current: Option<ChatId>, newSession: bool)
    requires text != []
    ensures chats == map[freshId := ChatRecord([Message(User, text), Message(Assistant, reply)], Strip(titleReply))]
    ensures current == Some(freshId) && !newSession
  {
    FirstTurn(TurnInput(text, reply, titleReply));
    ghost var turn := ApplyTurn(EmptyChat, TurnInput(text, reply, titleReply));
    assert map[][freshId := turn] == map[freshId := turn];
    var s := new SessionState.Initialize(None, [], None, None, None, None);
    var _ := s.SubmitMessage(text, freshId, reply, titleReply);
    chats, current, newSession := s.chats, s.currentChatId, s.isNewSession;
  }

  /** Two chats A and B, created in that order, A current: deleting A makes B
      current, and B is the only chat left. */
  method DeleteActiveScenario(a: ChatId, b: ChatId, recA: ChatRecord, recB: ChatRecord)
    returns (chats: map<ChatId, ChatRecord>, current: Option<ChatId>, newSession: bool)
    requires a != b
    ensures chats == map[b := recB]
    ensures current == Some(b) && !newSession
  {
    ghost var both := map[a := recA, b := recB];
    assert both - {a} == map[b := recB];
    var s := new SessionState.Initialize(Some(map[a := recA, b := recB]), [a, b],
                                         Some(Some(a)), None, None, Some(false));
    assert s.currentChatId == Some(a);
    s.DeleteChat(a);
    assert b in s.chats;
    assert s.order[0] == b;
    chats, current, newSession := s.chats, s.currentChatId, s.isNewSession;
  }
}
