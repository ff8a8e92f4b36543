# Chat page conversation state, in Dafny

A model of the state logic of the chat page `src/pages/ChatPage.jsx` of a
browser chat client for the Gemini text-generation API. The page keeps an
ordered list of conversations (`{id, title, messages}`), the position of the
selected one, the text being typed and a flag that is up while a message is
being sent. A submit appends the user's message at once, sends the whole log
of that conversation, and later files the reply (or an error message) and,
after the first exchange, a suggested title into the conversation that was
selected when the user submitted — even if the user has since switched
conversations or opened new ones.

Files:

- `wrappers.dfy` — `Option` and `Result`.
- `text.dfy` (module `JsText`) — the JavaScript string operations the page
  uses: `trim`, ASCII `toLowerCase`, `includes`, and `replace(/"/g, '')`.
- `conversations.dfy` (module `Conversations`) — messages and conversations
  as values, appending a message or setting a title at a position, and the
  sidebar's search filter.
- `completion.dfy` (module `Completion`) — the request contents built from a
  log, the classification of a reply into text or error, and the clean-up of
  a suggested title.
- `session.dfy` (module `ChatPage`) — class `ChatSession`, the page's state
  and its transitions, and three client methods that walk the page through
  the examples below.

The asynchronous submit handler is cut at its two `await`s on the network:
`Submit` runs the guard and the optimistic append and captures the
conversation (a `Pending` record: its position, its log including the new
user message, and its title at that time); `Resolve` files the reply;
`ResolveTitle` files the suggested title; `Finish` is the `finally` that
lowers the sending flag. Any number of `NewConversation` and `Switch` calls
may run while a send is pending; the message box is disabled meanwhile. The
class invariant `Valid` says the store is never empty, the current position
is valid, the flag is up exactly while a send is pending, the captured
conversation still has its id and has received nothing since the submit
except, once it is in, the reply, and every other conversation holds
completed exchanges only.
Because conversations are only appended, never removed or reordered, the
captured position keeps naming the same conversation.

## Model

| member | source | states |
|---|---|---|
| `JsText.Trim` | src/pages/ChatPage.jsx:105 | the trimmed input is empty exactly when the input is whitespace only; otherwise it starts and ends with a non-whitespace character and sits in the input with only whitespace around it |
| `JsText.ToLower` | src/pages/ChatPage.jsx:31 | `toLowerCase` on ASCII: same length, no capital letter left, and only capitals change, each to its small letter |
| `JsText.Includes` | src/pages/ChatPage.jsx:31 | `includes` holds exactly when the query occurs at some position of the title (so the empty query is included everywhere) |
| `JsText.RemoveChar` | src/pages/ChatPage.jsx:85 | removing the double quotes leaves no double quote and keeps every other character with its multiplicity |
| `JsText.RemoveCharEmpty` | src/pages/ChatPage.jsx:85 | removing the double quotes leaves nothing exactly when the string is double quotes only |
| `JsText.RemoveCharAppend` | src/pages/ChatPage.jsx:85 | removing a character keeps the order of the rest: it distributes over concatenation |
| `Conversations.EmptyConversation` | src/pages/ChatPage.jsx:94 | a new conversation has the given id and no messages; its first user message makes it eligible for a title, and it is listed under an empty search |
| `Conversations.TitleEligible` | src/pages/ChatPage.jsx:185 | the title rule on the captured log and title; for completed exchanges plus the new user message it holds exactly for the first message of a conversation still titled `New Chat` |
| `Conversations.MatchesQuery` | src/pages/ChatPage.jsx:30-32 | a conversation is listed exactly when its title is non-empty and the lower-cased query occurs in the lower-cased title |
| `Conversations.AppendMessage` | src/pages/ChatPage.jsx:178-182 | the message is pushed at the end of the log of the conversation at the given position; its id and title and every other conversation are unchanged and nothing is added or removed |
| `Conversations.Retitle` | src/pages/ChatPage.jsx:187-191 | only the title of the conversation at the given position changes |
| `Conversations.FilterByTitle` | src/pages/ChatPage.jsx:30-32 | the sidebar list holds each conversation with a non-empty title containing the query (both lower-cased) as often as the store does, and nothing else |
| `Conversations.FilterByTitleAppend` | src/pages/ChatPage.jsx:30-32 | the filter keeps the store's order: filtering a concatenation is concatenating the filtered parts |
| `Conversations.EmptyQueryMatchesTitled` | src/pages/ChatPage.jsx:30-32 | with an empty query a conversation is listed exactly when its title is non-empty |
| `Completion.RequestRole` | src/pages/ChatPage.jsx:130 | the request role is `user` exactly for user messages and `model` for every other role |
| `Completion.ToContents` | src/pages/ChatPage.jsx:128-132 | one request entry per message, in order; role `user` stays `user`, every other role becomes `model`; the one part's text is the message content |
| `Completion.ToContentsInjective` | src/pages/ChatPage.jsx:128-132 | for logs of user and assistant messages, equal request contents mean equal logs: the request carries the whole log |
| `Completion.ReplyText` | src/pages/ChatPage.jsx:157-174 | a reply is usable exactly when it has a non-empty text; otherwise the error is the transport message, the safety-block message naming a non-empty block reason, or the fixed invalid-or-empty message |
| `Completion.FiledMessage` | src/pages/ChatPage.jsx:176-198 | the message filed for a reply is from the assistant and holds the reply text, or `**Error:** ` followed by the error |
| `Completion.SuggestedTitle` | src/pages/ChatPage.jsx:82-89 | a suggestion whose trimmed text has a character other than `"` becomes that trimmed text with every `"` removed; a trimmed text of quotes only, a failed or a text-less request gives `New Chat`; the title is never empty and has no double quote |
| `Completion.CleanedFromText` | src/pages/ChatPage.jsx:85 | every character left after trimming and removing quotes comes from the suggestion |
| `Completion.QuotedTitle` | src/pages/ChatPage.jsx:85 | the suggestion ` "Hi" ` becomes the title `Hi` |
| `ChatPage.ChatSession.constructor` | src/pages/ChatPage.jsx:18-24 | a first visit holds one empty `New Chat` conversation, selected, with empty input and no send pending |
| `ChatPage.ChatSession.SetInput` | src/pages/ChatPage.jsx:305-311 | typing, possible only while no send is pending (the box is disabled), replaces the input and keeps the invariant |
| `ChatPage.ChatSession.NewConversation` | src/pages/ChatPage.jsx:93-97 | exactly one empty `New Chat` conversation is appended, the earlier ones are unchanged, the old length becomes the current position, and a pending send keeps its capture |
| `ChatPage.ChatSession.Switch` | src/pages/ChatPage.jsx:99-101 | selects the given valid position and changes nothing else |
| `ChatPage.ChatSession.Submit` | src/pages/ChatPage.jsx:103-125 | ignored exactly when the input is whitespace only or a send is pending; only the missing-key notice exactly when the key is empty otherwise; state untouched in both cases; else it sends |
| `ChatPage.ChatSession.Send` | src/pages/ChatPage.jsx:116-132 | the untrimmed input is appended as a user message to the current conversation only, the input is cleared, the flag raised, the conversation captured with its new log and title, and the request built from that whole log |
| `ChatPage.ChatSession.Finish` | src/pages/ChatPage.jsx:201-203 | at the end of a pending send, the flag is lowered and nothing is pending |
| `ChatPage.ChatSession.Resolve` | src/pages/ChatPage.jsx:157-199 | exactly one assistant message (the text or the error) is appended to the captured conversation, whatever is current now, and no other conversation changes; a title is awaited only after a usable reply to a captured log of at most two messages under the `New Chat` title, which is then the conversation's first message; otherwise the flag is lowered |
| `ChatPage.ChatSession.ResolveTitle` | src/pages/ChatPage.jsx:184-191 | the cleaned-up suggestion becomes the title of the captured conversation, and the flag is lowered |
| `ChatPage.FirstExchange` | src/pages/ChatPage.jsx:103-204 | "Hello" answered with "Hi there!" gives the log user "Hello", assistant "Hi there!", the title `Hi` from the suggestion ` "Hi" `, and the flag down |
| `ChatPage.ReplyLandsWhereSent` | src/pages/ChatPage.jsx:93-204 | from any state that accepts a submit, with a switch and a new conversation before the reply: the sending conversation gets exactly the user message and the filed reply and keeps its id and title, every other earlier conversation is unchanged, the new one is empty and selected |
| `ChatPage.ErrorAfterNewConversation` | src/pages/ChatPage.jsx:93-204 | a failure that arrives after a new conversation was opened is filed as `**Error:** overloaded` in the conversation it was sent from, which keeps its title; the new one stays empty and selected |
| `ChatPage.RejectedSubmits` | src/pages/ChatPage.jsx:103-114 | without a key a submit only raises the notice; whitespace-only input is ignored; neither adds a message |

## Left out

- Network I/O: the two `fetch` calls, the URL with its key, `response.ok`,
  `response.json()` and the optional-chaining reads of the body
  (src/pages/ChatPage.jsx:71-84, 135-166). A reply is an abstract value:
  `Failed(message)` for any error thrown before a reply text is examined,
  its message an arbitrary string (a `fetch` failure, the error envelope's
  message, `Request failed with status N`, or a JSON or property-access
  error such as the one line 160 raises for a body without an `error`
  field), or `Received(text, blockReason)`. A title reply is `TitleNotOk`,
  `TitleThrew` or `TitleBody(text)`.
- The request body's `systemInstruction` and `generationConfig`
  (temperature 0.7, topK 40, maxOutputTokens 8192) and the title prompt
  built at src/pages/ChatPage.jsx:58-69: request payload with no state logic;
  only the `contents` list is modelled.
- `localStorage` hydration and persistence (src/pages/ChatPage.jsx:16-21,
  49-54): storage I/O. The model always starts from one empty conversation.
- The API key and system message settings dialog and the redirect when the
  key is empty (src/pages/ChatPage.jsx:34-38): the key is a constructor
  argument.
- `toast` and `console.error`: the notice is the `MissingApiKey` outcome.
- `Date.now()` ids: `NewConversation` and the constructor take the id as an
  argument; their uniqueness is not tracked, because the model addresses
  conversations only by position, as the state logic does.
- The JSX, markdown rendering, syntax highlighting, the sidebar toggle and
  the scroll effect (src/pages/ChatPage.jsx:40-47, 207-320), including the
  sidebar's `findIndex` by id that turns a listed conversation back into a
  position.
- JSON deep copies: the model works on values, so copies are implicit.
- `JsText.ToLower` lower-cases only ASCII letters, not the full Unicode case
  mapping of `toLowerCase`.
- Real concurrency: one pending send is a captured record, and the user's
  actions in between are separate method calls. The page allows one send at
  a time through its single sending flag, and the model keeps that.
- `ChatPage.ChatSession.Switch` requires a valid position; the page itself
  does not check, but its only caller passes the position of a listed
  conversation.
- The title request is awaited inside the handler's `try`, so the sending
  flag stays up until the title is filed; the model follows the code, not a
  design in which the title arrives after the flag is lowered.
