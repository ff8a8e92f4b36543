/** The conversation store of the chat page: conversations as values,
    the two updates the page makes to a conversation it addresses by
    position, and the sidebar's search filter. */
module Conversations {
  import opened JsText

  const UserRole := "user"
  const AssistantRole := "assistant"
  /** The placeholder title of a conversation nobody has named yet. */
  const NewChatTitle := "New Chat"

  datatype Message = Message(role: string, content: string)

  /** `id` stands for the `Date.now()` stamp taken at creation. */
  datatype Conversation = Conversation(id: int, title: string, messages: seq<Message>)

  /** A conversation as the page creates it: no messages yet, so its first
      user message makes it eligible for a suggested title, and it is listed
      while the search box is empty. */
  function EmptyConversation(id: int): (c: Conversation)
    ensures c.id == id && c.messages == []
    ensures forall m: Message :: TitleEligible(c.messages + [m], c.title)
    ensures MatchesQuery(c, "")
  {
    Conversation(id, NewChatTitle, [])
  }

  /** A suggested title is requested when the log captured at submit time
      (the new user message included) has at most two messages and the
      title then was still the placeholder. For a log of completed
      exchanges followed by one user message, that is exactly the first
      message of a conversation still titled `New Chat`. */
  predicate TitleEligible(log: seq<Message>, title: string)
    ensures |log| % 2 == 1 ==> (TitleEligible(log, title) <==> |log| == 1 && title == NewChatTitle)
  {
    |log| <= 2 && title == NewChatTitle
  }

  /** Pushes `m` onto the messages of the conversation at position `i`;
      every other conversation, and that one's id and title, stay as they were. */
  function AppendMessage(convs: seq<Conversation>, i: nat, m: Message): (r: seq<Conversation>)
    requires i < |convs|
    ensures |r| == |convs|
    ensures r[i].id == convs[i].id && r[i].title == convs[i].title
    ensures r[i].messages == convs[i].messages + [m]
    ensures forall j :: 0 <= j < |convs| && j != i ==> r[j] == convs[j]
  {
    convs[i := convs[i].(messages := convs[i].messages + [m])]
  }

  /** Sets the title of the conversation at position `i`; its id and
      messages, and every other conversation, stay as they were. */
  function Retitle(convs: seq<Conversation>, i: nat, title: string): (r: seq<Conversation>)
    requires i < |convs|
    ensures |r| == |convs|
    ensures r[i] == Conversation(convs[i].id, title, convs[i].messages)
    ensures forall j :: 0 <= j < |convs| && j != i ==> r[j] == convs[j]
  {
    convs[i := convs[i].(title := title)]
  }

  /** The sidebar keeps a conversation when it has a non-empty title that
      contains the query, both lower-cased. */
  predicate MatchesQuery(c: Conversation, query: string)
    ensures MatchesQuery(c, query) <==>
      c.title != "" && exists i :: OccursAt(ToLower(c.title), ToLower(query), i)
  {
    c.title != "" && Includes(ToLower(c.title), ToLower(query))
  }

  /** The sidebar's list: the matching conversations, each as often as it
      occurs in `convs` and no other. */
  function FilterByTitle(convs: seq<Conversation>, query: string): (r: seq<Conversation>)
    ensures forall c :: multiset(r)[c] == if MatchesQuery(c, query) then multiset(convs)[c] else 0
  {
    if convs == [] then []
    else
      assert convs == [convs[0]] + convs[1..];
      (if MatchesQuery(convs[0], query) then [convs[0]] else []) + FilterByTitle(convs[1..], query)
  }

  /** The filter keeps the original order: filtering a concatenation is
      concatenating the filtered parts. */
  lemma {:induction false} FilterByTitleAppend(a: seq<Conversation>, b: seq<Conversation>, query: string)
    ensures FilterByTitle(a + b, query) == FilterByTitle(a, query) + FilterByTitle(b, query)
  {
    if a == [] {
      assert a + b == b;
    } else {
      assert (a + b)[1..] == a[1..] + b;
      FilterByTitleAppend(a[1..], b, query);
    }
  }

  /** With an empty query the sidebar keeps exactly the conversations
      whose title is non-empty. */
  lemma EmptyQueryMatchesTitled(c: Conversation)
    ensures MatchesQuery(c, "") <==> c.title != ""
  {
  }
}
