/** What the chat page sends to the completion endpoint and how it reads
    what comes back: the request contents built from a message log, the
    classification of a reply into text or error, and the clean-up of a
    suggested title. The HTTP exchange itself is not modelled; a reply is
    given as an abstract value. */
module Completion {
  import opened Wrappers
  import opened JsText
  import opened Conversations

  /** The endpoint's name for every turn that is not the user's. */
  const ModelRole := "model"

  const SafetyBlockPrefix := "Request blocked for safety reasons: "
  const EmptyReplyMessage := "Received an invalid or empty response from the API."
  /** Prefix of the message filed in place of a reply when the send failed. */
  const ErrorPrefix := "**Error:** "

  datatype Part = Part(text: string)
  datatype Content = Content(role: string, parts: seq<Part>)

  /** The endpoint knows two roles: the user's turns stay `user`, every
      other role becomes `model`. */
  function RequestRole(role: string): (r: string)
    ensures r == UserRole || r == ModelRole
    ensures r == UserRole <==> role == UserRole
  {
    if role == UserRole then UserRole else ModelRole
  }

  /** One request entry per message, in the same order: the role mapped
      to `user` or `model` and the message content as its only part. */
  function ToContents(log: seq<Message>): (r: seq<Content>)
    ensures |r| == |log|
    ensures forall i :: 0 <= i < |log| ==>
      r[i].role == RequestRole(log[i].role) && r[i].parts == [Part(log[i].content)]
  {
    if log == [] then []
    else [Content(RequestRole(log[0].role), [Part(log[0].content)])] + ToContents(log[1..])
  }

  /** Every message of the log was written by the user or the assistant. */
  predicate WellFormedLog(log: seq<Message>) {
    forall i :: 0 <= i < |log| ==> log[i].role == UserRole || log[i].role == AssistantRole
  }

  /** The request loses nothing of a well-formed log: two logs that give
      the same request contents are the same log. */
  lemma ToContentsInjective(a: seq<Message>, b: seq<Message>)
    requires WellFormedLog(a) && WellFormedLog(b)
    requires ToContents(a) == ToContents(b)
    ensures a == b
  {
  }

  /** The outcome of the completion request, as far as the page looks at
      it: the request failed with a message (transport failure or a
      non-2xx status with its error text), or a body was received with an
      optional first candidate text and an optional block reason. */
  datatype Reply = Failed(message: string) | Received(text: Option<string>, blockReason: Option<string>)

  /** The reply text, or the message of the error the page throws for it.
      An absent or empty text is an error; it names the block reason when
      the body carries a non-empty one. */
  function ReplyText(reply: Reply): (r: Result<string, string>)
    ensures r.Ok? <==> reply.Received? && reply.text.Some? && reply.text.value != ""
    ensures r.Ok? ==> r.value == reply.text.value
    ensures reply.Failed? ==> r == Err(reply.message)
    ensures reply.Received? && r.Err? && reply.blockReason.Some? && reply.blockReason.value != "" ==>
      r.error == SafetyBlockPrefix + reply.blockReason.value
    ensures reply.Received? && r.Err? && (reply.blockReason.None? || reply.blockReason.value == "") ==>
      r.error == EmptyReplyMessage
  {
    match reply
    case Failed(message) => Err(message)
    case Received(text, blockReason) =>
      if text.Some? && text.value != "" then Ok(text.value)
      else if blockReason.Some? && blockReason.value != "" then Err(SafetyBlockPrefix + blockReason.value)
      else Err(EmptyReplyMessage)
  }

  /** The assistant message filed for a reply: its text, or the error
      message behind the error prefix. */
  function FiledMessage(reply: Reply): (m: Message)
    ensures m.role == AssistantRole
    ensures ReplyText(reply).Ok? ==> m.content == ReplyText(reply).value
    ensures ReplyText(reply).Err? ==> m.content == ErrorPrefix + ReplyText(reply).error
  {
    match ReplyText(reply)
    case Ok(text) => Message(AssistantRole, text)
    case Err(e) => Message(AssistantRole, ErrorPrefix + e)
  }

  /** The outcome of the title request: a non-2xx status, a thrown error,
      or a body with an optional first candidate text. */
  datatype TitleReply = TitleNotOk | TitleThrew | TitleBody(text: Option<string>)

  /** Every character of a cleaned-up title comes from the suggestion. */
  lemma CleanedFromText(s: string)
    ensures forall c :: c in RemoveChar(Trim(s), '"') ==> c in s
  {
    var r := Trim(s);
    var lo :| PaddedAt(s, lo, r);
    forall c | c in RemoveChar(r, '"') ensures c in s {
      assert multiset(RemoveChar(r, '"'))[c] > 0;
      assert c in multiset(r);
      var k :| 0 <= k < |r| && r[k] == c;
      assert s[lo + k] == c;
    }
  }

  /** The title made from a suggestion: the text trimmed and stripped of
      every double quote, or the placeholder when that leaves nothing (the
      trimmed text is quotes only) or the request failed. Whatever it is,
      it is never empty and holds no double quote. */
  function SuggestedTitle(reply: TitleReply): (t: string)
    ensures t != [] && '"' !in t
    ensures !reply.TitleBody? || reply.text.None? ==> t == NewChatTitle
    ensures reply.TitleBody? && reply.text.Some? ==>
      var trimmed := Trim(reply.text.value);
      ((exists c :: c in trimmed && c != '"') ==> t == RemoveChar(trimmed, '"')) &&
      ((forall c :: c in trimmed ==> c == '"') ==> t == NewChatTitle)
    ensures t != NewChatTitle ==>
      (reply.TitleBody? && reply.text.Some? && forall c :: c in t ==> c in reply.text.value)
  {
    match reply
    case TitleBody(Some(text)) =>
      var cleaned := RemoveChar(Trim(text), '"');
      CleanedFromText(text);
      RemoveCharEmpty(Trim(text), '"');
      if cleaned == [] then NewChatTitle else cleaned
    case _ => NewChatTitle
  }

  /** A suggestion padded with spaces and wrapped in double quotes becomes
      the bare words. */
  lemma QuotedTitle()
    ensures SuggestedTitle(TitleBody(Some(" \"Hi\" "))) == "Hi"
  {
    TrimQuoted();
    UnquoteHi();
  }

  lemma TrimQuoted()
    ensures Trim(" \"Hi\" ") == "\"Hi\""
  {
    var text := " \"Hi\" ";
    assert IsWhitespace(text[0]) && !IsWhitespace(text[1]);
    assert SkipWhitespace(text, 1) == 1;
    assert SkipWhitespace(text, 0) == 1;
    assert IsWhitespace(text[5]) && !IsWhitespace(text[4]);
    assert SkipWhitespaceBack(text, 1, 5) == 5;
    assert SkipWhitespaceBack(text, 1, 6) == 5;
  }

  lemma UnquoteHi()
    ensures RemoveChar("\"Hi\"", '"') == "Hi"
  {
  }
}
