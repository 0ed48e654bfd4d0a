# Chat backend with session memory — a Dafny model

The backend keeps every conversation in two SQL tables. `chat_sessions` holds
one row per session: its id, its user, its title and when it was created.
`chat_messages` holds one row per message: its session id, role, content and
timestamp. `POST /chat` is meant to take a user's message and run one
conversation turn (as intended; as written it fails after step 3, see
Findings):

1. it creates a session when none is named;
2. it reads the session's history;
3. it saves the message;
4. it asks a hosted completion API for a reply, sending the history along;
5. it saves the reply and returns it.

Two more endpoints delete or rename a session on behalf of its owner.

The model has six modules:

- `Wrappers`: `Option` and `Result`.
- `Seqs`: a generic filter and a stable insertion sort. Its lemmas cover sortedness, permutation and membership, and the uniqueness of a sorted permutation under strictly increasing keys.
- `Database`: the row shapes of `app/database.py`, the `"New Chat"` title default and the projection of a message row to `{role, content}`.
- `SessionStore`: the operations of `app/utils.py`. The two queries are functions over the table contents. The four writes are methods of a `Store` class. A `Store` holds the tables as seen by one database session (`sessions`, `messages`), the committed tables (`committedSessions`, `committedMessages`) and the last clock reading (`clock`). `Commit` makes the working view durable; a refused commit rolls the working view back. `Close` discards uncommitted changes, as the `db.close()` that ends every request does. Every state keeps unique session ids and rows stamped in insertion order by a clock that never runs backwards.
- `ChatService`: `app/chat.py`. This covers the history trimming helper and the prompt assembly of `generate_response`, with its never-raising fallback. The completion API's outcome is a parameter.
- `Api`: the `POST /chat` handler, and the delete and rename endpoints of `app/main.py`.

The outside world enters as parameters: how far the clock moves before each reading, whether the database refuses a commit (and with which message), and what the completion API answers. A fresh session id is a nondeterministic choice of an id that no row uses yet.

Two places where the code does less than its own comments suggest; the model follows the code:

- **Delete when nothing is found.** `delete_chat_session` is documented as "Delete a chat session and all its messages" and starts with "First delete all messages" (app/utils.py:51-52). It commits only when the session is found. The database session does not autocommit and is closed without a commit, so when no session is owned by the user the message delete is discarded. Nothing is deleted (`SessionStore.Store.DeleteSession`, `Api.DeleteSession`).
- **No history trimming.** `get_conversation_context` is documented as the recent context "for API calls" (app/chat.py:37-38), but the chat handler never calls it, so the whole history is sent with every request.

When two messages carry the same timestamp, `ORDER BY timestamp` may return them in either order. `SessionStore.HistoryAnswer` describes every answer the database may give. `SessionStore.ChatHistory` picks one of them, the table order. The round-trip lemmas hold for every answer, and they assume that every message has its own timestamp.

## Model

| member | source | states |
|---|---|---|
| SessionStore.MessagesOf | app/utils.py:38-39 | the session's message rows, never more than the table holds; `SessionStore.MessagesOfMembers` characterises exactly which rows |
| SessionStore.MessagesOfMembers | app/utils.py:38-39 | the session filter keeps exactly the message rows whose `session_id` is the given id |
| SessionStore.ChatHistory | app/utils.py:36-42 | `get_chat_history`: one entry per message of the session; `SessionStore.HistoryIsOrderedSelection`, `SessionStore.HistoryEntriesFromSession` and `SessionStore.HistoryInSaveOrder` say which entries and in what order |
| SessionStore.HistoryIsOrderedSelection | app/utils.py:36-42 | the history is the `{role, content}` projection of an answer the database may give: exactly the session's rows in ascending timestamp order |
| SessionStore.HistoryEntriesFromSession | app/utils.py:36-42 | the history has one entry per message of the session, and every entry is the role and content of a message saved under that id |
| SessionStore.HistoryOfUnknownSession | app/utils.py:36-42 | a session id that no message carries has an empty history |
| SessionStore.HistoryOrderForced | app/utils.py:38-40 | with strictly increasing timestamps, every order `ORDER BY timestamp` may return is the order of saving |
| SessionStore.HistoryInSaveOrder | app/utils.py:25-42 | when every message has its own timestamp, every answer the database may give, and so the history, is the session's messages in the order they were saved |
| SessionStore.HistoryAfterSave | app/utils.py:25-42 | saving a message stamped later than all others extends its session's history by exactly that message and leaves every other session's history alone, in every answer the database may give |
| SessionStore.HistoryAfterTurn | app/utils.py:25-42 | saving a message and then a reply, each stamped later than everything before, extends the session's history by both, in that order, in every answer the database may give |
| SessionStore.SessionsOf | app/utils.py:46-47 | the user filter keeps exactly the session rows whose `user_id` is the given user |
| SessionStore.UserSessions | app/utils.py:44-48 | the listing is sorted by creation time, newest first, and is a permutation of exactly the user's sessions |
| SessionStore.UserSessionsNewestFirst | app/utils.py:44-48 | with strictly increasing creation times, the listing is the user's sessions in reverse creation order |
| SessionStore.MessagesExcept | app/utils.py:53 | the bulk message delete leaves exactly the rows of other sessions |
| SessionStore.SessionsExcept | app/utils.py:56-62 | removing a session by id leaves exactly the rows with other ids |
| SessionStore.OwnedIndex | app/utils.py:56-59 | `.first()` under the two-column filter finds the first row with both the session id and the user id, or reports that none has both |
| SessionStore.RemoveAtIsSessionsExcept | app/utils.py:56-62 | since `session_id` is unique, deleting the one row found is the same as deleting every row with that id |
| SessionStore.MessagesExceptConsistent | app/utils.py:53 | the bulk message delete keeps ids unique and timestamps in order |
| SessionStore.RemoveAtUnique | app/utils.py:62 | deleting a session row keeps session ids unique |
| SessionStore.RemoveAtConsistent | app/utils.py:62 | deleting a session row keeps ids unique and creation times in order |
| SessionStore.Store.constructor | app/database.py:33-34 | a new database has empty tables and nothing pending |
| SessionStore.Store.Commit | app/database.py:11 | a commit makes the session's view durable; a refused commit returns its error and rolls back to the committed tables |
| SessionStore.Store.Close | app/database.py:37-42 | closing the database session keeps the committed tables and discards what was pending |
| SessionStore.Store.Now | app/utils.py:31 | a clock reading is never earlier than the previous one |
| SessionStore.Store.CreateSession | app/utils.py:11-23 | adds exactly one session row with a fresh id, the user, the title (default "New Chat") and the current time, commits it and returns the id; messages are unchanged; a refused commit changes nothing durable and returns the error |
| SessionStore.Store.SaveMessage | app/utils.py:25-34 | appends exactly one message row with the given session id, role and content and the current time, then commits; role and session are not checked; sessions are unchanged; a refused commit returns the error |
| SessionStore.Store.DeleteSession | app/utils.py:50-65 | returns true iff a row matches both ids and the commit succeeds, and then that session and all its messages are gone and nothing else changed; returns false iff no row matches, and then nothing is committed and the message delete is only pending |
| SessionStore.Store.UpdateSessionTitle | app/utils.py:67-78 | returns true iff a row matches both ids and the commit succeeds, and then only that row's title changed; returns false iff no row matches, and then nothing changed |
| ChatService.SliceFrom | app/chat.py:39 | Python's `s[start:]`: a suffix of `s`, counting a negative start from the end and clamping out-of-range starts |
| ChatService.GetConversationContext | app/chat.py:37-39 | the context is a suffix of the messages; a list no longer than the limit is returned unchanged; for a positive limit the result has the limit's length or the list's |
| ChatService.ContextKeepsMostRecent | app/chat.py:39 | a list longer than a positive limit is cut to exactly its last `max_messages` entries |
| ChatService.ContextIdempotent | app/chat.py:37-39 | trimming twice is trimming once, for every limit that is not negative |
| ChatService.ContextZeroKeepsAll | app/chat.py:39 | a limit of zero keeps the whole list (`[-0:]`) |
| ChatService.ContextNegativeDropsFront | app/chat.py:39 | a negative limit `-k` drops the first `k` entries |
| ChatService.Apology | app/chat.py:35 | the fallback text carries the error text at a fixed offset, between the fixed opening and closing |
| ChatService.GenerateResponse | app/chat.py:13-35 | the prompt is the system entry, then the history, then the user entry, with the fixed model, token limit and temperature; the reply is the API's text, or the apology carrying the error; it never fails |
| Api.NamesSession | app/main.py:55 | `not session_id` holds exactly for a missing or empty id |
| Api.ResolveSession | app/main.py:52-56 | a named, non-empty session id is used unchecked; otherwise a "New Chat" session is created for the request's user and its fresh id is used; a failed creation returns its error |
| Api.Ask | app/main.py:58-65 | the history is read before the user's message is saved, untrimmed, and the prompt is system, that history, then the message; the saved row is exactly the user's message |
| Api.Turn | app/main.py:58-80 | on success exactly two rows are appended, the user's message then the reply, and the response carries the reply, the session id and the clock's last reading; a failed save is a 500 that keeps what was already committed |
| Api.Chat | app/main.py:48-80 | the handler as intended (see Findings): the turn goes to the named or newly created session; the request succeeds iff every commit does; the response equals the saved assistant content, fallback text included; after any failure the earlier commits stay |
| Api.ChatTurnHistory | app/main.py:59-68 | when every message has its own timestamp, a successful turn extends the session's history by the user's message and the reply, in every answer the database may give; for a new session those two are the whole history |
| Api.AskAsWritten | app/main.py:58-65 | as written, the history is read and the user's message saved, and then the step always fails with the missing-attribute error |
| Api.ChatAsWritten | app/main.py:48-80 | as written, the handler never succeeds: once the user's message is saved it fails with the missing-attribute error and that message stays; on an earlier failure no message is saved |
| Api.DeleteSession | app/main.py:122-140 | 200 iff the user owned the session and the delete was committed, and then the session and its history are gone; 404 with "Session not found or access denied" iff the user owned none; 500 with the commit error otherwise; nothing changes unless 200 |
| Api.UpdateTitle | app/main.py:142-160 | 200 iff the user owned the session and the rename was committed, and then only its title changed; 404 iff the user owned none; 500 with the commit error otherwise; messages never change |
| Database.Project | app/utils.py:42 | the list comprehension: one `{role, content}` record per row; `Database.ProjectAt` says which record is where |
| Database.ProjectAt | app/utils.py:42 | the history's k-th entry is the role and content of the k-th row |
| Database.ProjectAppend | app/utils.py:42 | projecting two runs of rows is projecting each and concatenating |

## Left out

- FastAPI app construction, CORS, uvicorn start-up and the root and health endpoints: web plumbing with no logic.
- The create-session, list-sessions and history endpoints: thin wrappers around the store functions modelled here. This includes the history endpoint re-stamping every message with the request time.
- The completion API client and the network call are a foreign service. The call's outcome (text, or the text of the raised exception) is a parameter. A reply whose content is `None` is not modelled.
- `uuid.uuid4()`: the model picks any id not yet used by a session or message row, instead of generating a real UUID.
- `datetime.utcnow()`: an integer clock that never runs backwards. Equal readings are allowed.
- The SQL order of messages with equal timestamps is unspecified. `SessionStore.ChatHistory` keeps table order (a stable sort), so the prompt built from it is one of the possible prompts. The round-trip lemmas assume distinct timestamps, which the clock model does not force: two readings may be equal.
- A `user_id` of `None` in a chat request: `user_id` is a string here, defaulting to "anonymous" in the source.
- Failures of reads and of the row lookups: only commits can fail in the model.
- Concurrency between requests and database isolation levels.
- ChatService.GenerateResponse: the temperature is the real 0.7, not a floating-point value.
- Api.Chat: the prompt sent to the completion API is a ghost result, since it is an argument of a foreign call. A failed creation leaves the prompt unspecified.
- Api.ChatAsWritten: states the messages, the clock and the reply, but not the session table, which changes as in `Api.Chat`.

## Findings

| source | as written | input that shows it | evidently intended | confidence | as-written member | corrected member |
|---|---|---|---|---|---|---|
| app/main.py:36-65 | `chat = Chat()` (line 36) is rebound by the endpoint `async def chat` (line 49); the route decorator returns the function itself. `chat.generate_response` (line 65) therefore raises `AttributeError` | any chat request, e.g. message "hi", no session id, no database fault: the user's message is committed and the reply is a 500 "Error processing chat request: 'function' object has no attribute 'generate_response'" | the reply is generated, saved as the assistant message and returned | high; not executed | Api.ChatAsWritten | Api.Chat |
