/** The state of the chat page and its transitions: creating and
    switching conversations, the guarded submit with its optimistic append,
    and the filing of the reply (or the error) and of the suggested title
    into the conversation captured at submit time. The request is pending
    between `Submit` and `Resolve`; the title request between `Resolve` and
    `ResolveTitle`. Any number of `NewConversation` and `Switch` calls may
    come in between; the message box is disabled meanwhile. */
module ChatPage {
  import opened Wrappers
  import opened JsText
  import opened Conversations
  import opened Completion

  /** Where a send stands: waiting for the reply, or (after a first
      successful exchange) waiting for the suggested title, with the reply
      text that was filed. */
  datatype Stage = AwaitingReply | AwaitingTitle(answer: string)

  /** What a send captured when it was submitted: the position of its
      conversation and that conversation's id, its log including the new
      user message, and its title at that time. */
  datatype Pending = Pending(index: nat, id: int, log: seq<Message>, title: string, stage: Stage)

  /** What a submit did: nothing, only the missing-key notice, or send the
      given request contents. */
  datatype SubmitOutcome = Ignored | MissingApiKey | Sent(contents: seq<Content>)

  /** The conversation a pending send captured is still at its position,
      with its id, and has received nothing since the submit but, once the
      reply is in, that reply. Its captured log is completed exchanges
      followed by the new user message. */
  predicate Captured(convs: seq<Conversation>, p: Pending) {
    p.index < |convs| && convs[p.index].id == p.id &&
    p.log != [] && p.log[|p.log| - 1].role == UserRole && |p.log| % 2 == 1 &&
    match p.stage
    case AwaitingReply => convs[p.index].messages == p.log
    case AwaitingTitle(answer) =>
      convs[p.index].messages == p.log + [Message(AssistantRole, answer)] &&
      TitleEligible(p.log, p.title)
  }

  /** Every conversation but the one a pending send captured holds
      completed exchanges only: each user message got its one reply. */
  predicate Settled(convs: seq<Conversation>, pending: Option<Pending>) {
    forall k :: 0 <= k < |convs| && (pending.None? || k != pending.value.index) ==>
      |convs[k].messages| % 2 == 0
  }

  class ChatSession {
    var apiKey: string
    var convs: seq<Conversation>
    var cur: nat
    var input: string
    var sending: bool
    var pending: Option<Pending>

    /** The store is never empty and the current position is valid, the
        sending flag is up exactly while a send is pending, and the logs
        are settled. */
    ghost predicate Valid()
      reads this
    {
      |convs| > 0 && cur < |convs| &&
      (sending <==> pending.Some?) &&
      (pending.Some? ==> Captured(convs, pending.value)) &&
      Settled(convs, pending)
    }

    /** A first visit: one empty conversation, selected. */
    constructor (apiKey: string, id: int)
      ensures Valid()
      ensures this.apiKey == apiKey && convs == [EmptyConversation(id)] && cur == 0
      ensures input == "" && !sending && pending == None
    {
      this.apiKey := apiKey;
      convs := [EmptyConversation(id)];
      cur := 0;
      input := "";
      sending := false;
      pending := None;
    }

    /** Typing into the message box, which is disabled while sending. */
    method SetInput(text: string)
      requires Valid() && !sending
      modifies this`input
      ensures Valid() && input == text
    {
      input := text;
    }

    /** Appends an empty placeholder-titled conversation at the end and
        selects it; the conversations before it, and a pending send, are
        untouched. */
    method NewConversation(id: int)
      requires Valid()
      modifies this`convs, this`cur
      ensures Valid()
      ensures convs == old(convs) + [EmptyConversation(id)]
      ensures cur == old(|convs|) == |convs| - 1
      ensures pending == old(pending)
    {
      convs := convs + [EmptyConversation(id)];
      cur := |convs| - 1;
    }

    /** Selects the conversation at position `index`. */
    method Switch(index: nat)
      requires Valid() && index < |convs|
      modifies this`cur
      ensures Valid() && cur == index
      ensures convs == old(convs) && pending == old(pending)
    {
      cur := index;
    }

    /** The submit handler. It does nothing while a send is pending or when
        the input is whitespace only; it only raises the missing-key notice
        when no API key is set. Otherwise it sends. */
    method Submit() returns (outcome: SubmitOutcome)
      requires Valid()
      modifies this`convs, this`input, this`sending, this`pending
      ensures Valid() && cur == old(cur)
      ensures outcome == Ignored <==> old(AllWhitespace(input)) || old(sending)
      ensures outcome == MissingApiKey <==> !old(AllWhitespace(input)) && !old(sending) && apiKey == ""
      ensures !outcome.Sent? ==>
        convs == old(convs) && input == old(input) && sending == old(sending) && pending == old(pending)
      ensures outcome.Sent? ==> SentFrom(old(convs), cur, old(input), outcome.contents)
    {
      if Trim(input) == [] || sending {
        return Ignored;
      }
      if apiKey == "" {
        return MissingApiKey;
      }
      var contents := Send();
      outcome := Sent(contents);
    }

    /** The state after sending `text` from position `index` of `before`
        with request `contents`: the untrimmed text appended as a user
        message there, the input cleared, the sending flag up, that
        conversation captured with its new log and its title, and the
        request built from that whole log. */
    ghost predicate SentFrom(before: seq<Conversation>, index: nat, text: string, contents: seq<Content>)
      reads this
      requires index < |before|
    {
      var log := before[index].messages + [Message(UserRole, text)];
      convs == AppendMessage(before, index, Message(UserRole, text)) &&
      input == "" && sending &&
      pending == Some(Pending(index, before[index].id, log, before[index].title, AwaitingReply)) &&
      contents == ToContents(log)
    }

    /** The accepted path of the submit handler. */
    method Send() returns (contents: seq<Content>)
      requires Valid() && !sending
      modifies this`convs, this`input, this`sending, this`pending
      ensures Valid() && cur == old(cur)
      ensures SentFrom(old(convs), cur, old(input), contents)
    {
      var userMessage := Message(UserRole, input);
      var log := convs[cur].messages + [userMessage];
      pending := Some(Pending(cur, convs[cur].id, log, convs[cur].title, AwaitingReply));
      convs := AppendMessage(convs, cur, userMessage);
      input := "";
      sending := true;
      contents := ToContents(log);
    }

    /** The `finally` of the submit handler: the send is over. */
    method Finish()
      requires pending.Some?
      modifies this`sending, this`pending
      ensures !sending && pending == None
    {
      sending := false;
      pending := None;
    }

    /** The reply arrives. Its text, or the error it amounts to, is filed as
        one assistant message at the captured position, whatever is current
        now. After a successful first exchange under the placeholder title
        the send goes on to request a title; otherwise it is over. */
    method Resolve(reply: Reply)
      requires Valid() && pending.Some? && pending.value.stage == AwaitingReply
      modifies this`convs, this`sending, this`pending
      ensures Valid() && cur == old(cur)
      ensures convs == AppendMessage(old(convs), old(pending.value.index), FiledMessage(reply))
      ensures ReplyText(reply).Ok? && TitleEligible(old(pending.value.log), old(pending.value.title)) ==>
        sending && pending == Some(old(pending.value).(stage := AwaitingTitle(ReplyText(reply).value)))
      ensures pending.Some? ==> old(|pending.value.log|) == 1 && old(pending.value.title) == NewChatTitle
      ensures !(ReplyText(reply).Ok? && TitleEligible(old(pending.value.log), old(pending.value.title))) ==>
        !sending && pending == None
    {
      var p := pending.value;
      match ReplyText(reply)
      case Ok(text) =>
        convs := AppendMessage(convs, p.index, Message(AssistantRole, text));
        if TitleEligible(p.log, p.title) {
          pending := Some(p.(stage := AwaitingTitle(text)));
        } else {
          Finish();
        }
      case Err(message) =>
        convs := AppendMessage(convs, p.index, Message(AssistantRole, ErrorPrefix + message));
        Finish();
    }

    /** The suggested title arrives: it replaces the title of the captured
        conversation, and the send is over. */
    method ResolveTitle(reply: TitleReply)
      requires Valid() && pending.Some? && pending.value.stage.AwaitingTitle?
      modifies this`convs, this`sending, this`pending
      ensures Valid() && cur == old(cur)
      ensures convs == Retitle(old(convs), old(pending.value.index), SuggestedTitle(reply))
      ensures !sending && pending == None
    {
      convs := Retitle(convs, pending.value.index, SuggestedTitle(reply));
      Finish();
    }
  }

  /** From any state that accepts a submit: the reply to a send from the
      current conversation, arriving after the user switched to position
      `j` and then opened a new conversation, lands in the conversation it
      was sent from. That one gets the user message and the filed reply and
      keeps its id and title; every other earlier conversation is unchanged; the new
      one stays empty and selected. */
  method ReplyLandsWhereSent(session: ChatSession, j: nat, id: int, reply: Reply)
    requires session.Valid() && !session.sending && j < |session.convs|
    requires session.apiKey != "" && !AllWhitespace(session.input)
    modifies session
    ensures session.Valid()
    ensures |session.convs| == old(|session.convs|) + 1
    ensures session.convs[old(session.cur)] == old(session.convs[session.cur]).(messages :=
      old(session.convs[session.cur].messages) + [Message(UserRole, old(session.input)), FiledMessage(reply)])
    ensures forall i :: 0 <= i < old(|session.convs|) && i != old(session.cur) ==>
      session.convs[i] == old(session.convs[i])
    ensures session.convs[old(|session.convs|)] == EmptyConversation(id)
    ensures session.cur == old(|session.convs|)
  {
    var outcome := session.Submit();
    session.Switch(j);
    session.NewConversation(id);
    session.Resolve(reply);
  }

  /** A fresh session: "Hello" is answered with "Hi there!", which makes it
      the first exchange under the placeholder title, so the suggested title
      (padded and quoted) is cleaned up and filed too. */
  method FirstExchange() returns (messages: seq<Message>, title: string, stillSending: bool)
    ensures messages == [Message(UserRole, "Hello"), Message(AssistantRole, "Hi there!")]
    ensures title == "Hi"
    ensures !stillSending
  {
    var session := new ChatSession("key", 1);
    session.SetInput("Hello");
    assert !IsWhitespace("Hello"[0]);
    var outcome := session.Submit();
    assert session.convs[0].messages == [Message(UserRole, "Hello")];
    session.Resolve(Received(Some("Hi there!"), None));
    assert session.convs[0].messages == [Message(UserRole, "Hello"), Message(AssistantRole, "Hi there!")];
    QuotedTitle();
    session.ResolveTitle(TitleBody(Some(" \"Hi\" ")));
    messages := session.convs[0].messages;
    title := session.convs[0].title;
    stillSending := session.sending;
  }

  /** A send fails after the user has opened a new conversation: the error
      lands in the conversation it was sent from, which keeps its title, and
      the new one stays empty and selected. */
  method ErrorAfterNewConversation() returns (first: Conversation, second: Conversation, current: nat)
    ensures first == Conversation(1, NewChatTitle,
      [Message(UserRole, "Hi"), Message(AssistantRole, "**Error:** overloaded")])
    ensures second == EmptyConversation(2)
    ensures current == 1
  {
    var session := new ChatSession("key", 1);
    session.SetInput("Hi");
    assert !IsWhitespace("Hi"[0]);
    assert FiledMessage(Failed("overloaded")) == Message(AssistantRole, "**Error:** overloaded");
    ReplyLandsWhereSent(session, 0, 2, Failed("overloaded"));
    first := session.convs[0];
    second := session.convs[1];
    current := session.cur;
  }

  /** Without an API key a submit only raises the notice, and whitespace-only
      input is ignored; in both cases the conversation stays empty. */
  method RejectedSubmits() returns (withoutKey: SubmitOutcome, blank: SubmitOutcome, messages: seq<Message>)
    ensures withoutKey == MissingApiKey
    ensures blank == Ignored
    ensures messages == []
  {
    var keyless := new ChatSession("", 1);
    keyless.SetInput("Hello");
    assert !IsWhitespace("Hello"[0]);
    withoutKey := keyless.Submit();
    var session := new ChatSession("key", 2);
    session.SetInput(" \t\n");
    blank := session.Submit();
    messages := keyless.convs[0].messages + session.convs[0].messages;
  }
}
