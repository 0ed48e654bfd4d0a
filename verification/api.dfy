/**
 * The request handlers of app/main.py that carry logic: `POST /chat`, which
 * orders the store effects of one conversation turn, and the delete and
 * rename endpoints, which turn the store's boolean into a success message or
 * a 404. Each request works on its own database session, so every handler
 * starts with nothing pending and ends by closing that session.
 */
module Api {
  import opened Wrappers
  import opened Database
  import opened SessionStore
  import opened ChatService
  import opened Seqs

  /** Body of `POST /chat` (`ChatRequest`): `user_id` defaults to "anonymous". */
  datatype ChatRequest = ChatRequest(message: string, sessionId: Option<string> := None, userId: string := AnonymousUser)

  /** Body of a successful `POST /chat` (`ChatResponse`). */
  datatype ChatResponse = ChatResponse(response: string, sessionId: string, timestamp: int)

  /** An HTTP outcome: 200 with a body, 404, or 500, each 4xx/5xx with its `detail`. */
  datatype Reply<T> = Ok(body: T) | NotFound(detail: string) | ServerError(detail: string)

  /**
   * What the outside world does during one `POST /chat`: how far the clock
   * moves before each reading, whether each commit is refused (and with which
   * error text), and what the completion API answers.
   */
  datatype ChatEnv = ChatEnv(
    createElapsed: nat, createFault: Option<string>,
    userElapsed: nat, userFault: Option<string>,
    completion: Completion,
    replyElapsed: nat, replyFault: Option<string>,
    responseElapsed: nat)

  const NotFoundDetail: string := "Session not found or access denied"

  /** The request names a session: `session_id` is neither missing nor empty. */
  function NamesSession(request: ChatRequest): (b: bool)
    ensures !b <==> request.sessionId == None || request.sessionId == Some("")
  {
    request.sessionId.Some? && request.sessionId.value != ""
  }

  /** The turn gets past session creation: a session was named, or creating one succeeded. */
  predicate HasSession(request: ChatRequest, env: ChatEnv) {
    NamesSession(request) || env.createFault.None?
  }

  /** The clock reading once the session is settled: creating one reads the clock, naming one does not. */
  function SessionClock(clock: int, request: ChatRequest, env: ChatEnv): int {
    clock + (if NamesSession(request) then 0 else env.createElapsed)
  }

  /** The row that saves the user's message, given the clock reading before it. */
  function UserRow(sessionId: string, request: ChatRequest, env: ChatEnv, clock: int): MessageRow {
    MessageRow(sessionId, "user", request.message, clock + env.userElapsed)
  }

  /** The row that saves the reply, given the clock reading before the user's message. */
  function ReplyRow(sessionId: string, env: ChatEnv, clock: int): MessageRow {
    MessageRow(sessionId, "assistant", ReplyText(env.completion), clock + env.userElapsed + env.replyElapsed)
  }

  /** The time the response reports, given the clock reading before the user's message. */
  function ResponseStamp(env: ChatEnv, clock: int): int {
    clock + env.userElapsed + env.replyElapsed + env.responseElapsed
  }

  /**
   * The first step of `POST /chat`: a request that names a session keeps it,
   * unchecked; otherwise a session titled "New Chat" is created for the
   * request's user. A failed creation ends the request.
   */
  method ResolveSession(store: Store, request: ChatRequest, env: ChatEnv) returns (r: Result<string, string>)
    requires store.Valid() && store.Idle()
    modifies store
    ensures store.Valid() && store.Idle() && store.messages == old(store.messages)
    ensures r.Success? <==> HasSession(request, env)
    ensures NamesSession(request) ==>
      r == Success(request.sessionId.value) && store.sessions == old(store.sessions) && store.clock == old(store.clock)
    ensures !NamesSession(request) ==> store.clock == old(store.clock) + env.createElapsed
    ensures !NamesSession(request) && r.Success? ==>
      && r.value !in old(store.UsedIds())
      && store.sessions == old(store.sessions) + [SessionRow(r.value, request.userId, DefaultTitle, store.clock)]
    ensures r.Failure? ==> r.error == env.createFault.value && store.sessions == old(store.sessions)
  {
    if request.sessionId.None? || request.sessionId.value == "" {
      r := store.CreateSession(request.userId, elapsed := env.createElapsed, fault := env.createFault);
    } else {
      r := Success(request.sessionId.value);
    }
  }

  /**
   * The middle of `POST /chat`: reads the session's history, saves the
   * user's message, and asks the completion wrapper for a reply with the
   * untrimmed history read before that save. Returns the reply, or the
   * error of the failed save.
   */
  method Ask(store: Store, sessionId: string, request: ChatRequest, env: ChatEnv)
    returns (r: Result<string, string>, ghost prompt: CompletionRequest)
    requires store.Valid() && store.Idle()
    modifies store
    ensures store.Valid() && store.Idle() && store.sessions == old(store.sessions)
    ensures store.clock == old(store.clock) + env.userElapsed
    ensures r.Success? <==> env.userFault.None?
    ensures r.Failure? ==> r.error == env.userFault.value && store.messages == old(store.messages)
    ensures r.Success? ==>
      && r.value == ReplyText(env.completion)
      && store.messages == old(store.messages) + [UserRow(sessionId, request, env, old(store.clock))]
      && prompt.messages == [Entry("system", SystemPrompt)] + ChatHistory(old(store.messages), sessionId) + [Entry("user", request.message)]
  {
    prompt := CompletionRequest(Model, [], MaxTokens, Temperature);
    var history := ChatHistory(store.messages, sessionId);
    var saved := store.SaveMessage(sessionId, "user", request.message, env.userElapsed, env.userFault);
    if saved.Failure? {
      r := Failure(saved.error);
      return;
    }
    var reply;
    reply, prompt := GenerateResponse(request.message, Some(history), env.completion);
    r := Success(reply);
  }

  /**
   * The rest of `POST /chat` once the session is known: asks for the reply,
   * saves it, and returns it stamped with the current time. A failed save is
   * a 500 that leaves what was already committed in place.
   */
  method Turn(store: Store, sessionId: string, request: ChatRequest, env: ChatEnv)
    returns (r: Reply<ChatResponse>, ghost prompt: CompletionRequest)
    requires store.Valid() && store.Idle()
    modifies store
    ensures store.Valid() && store.Idle() && store.sessions == old(store.sessions)
    ensures r.Ok? <==> env.userFault.None? && env.replyFault.None?
    ensures env.userFault.Some? ==>
      && r == ServerError("Error processing chat request: " + env.userFault.value)
      && store.messages == old(store.messages)
      && store.clock == old(store.clock) + env.userElapsed
    ensures env.userFault.None? ==>
      prompt.messages == [Entry("system", SystemPrompt)] + ChatHistory(old(store.messages), sessionId) + [Entry("user", request.message)]
    ensures env.userFault.None? && env.replyFault.Some? ==>
      && r == ServerError("Error processing chat request: " + env.replyFault.value)
      && store.messages == old(store.messages) + [UserRow(sessionId, request, env, old(store.clock))]
      && store.clock == old(store.clock) + env.userElapsed + env.replyElapsed
    ensures env.userFault.None? && env.replyFault.None? ==>
      && store.messages == old(store.messages) + [UserRow(sessionId, request, env, old(store.clock)), ReplyRow(sessionId, env, old(store.clock))]
      && r == Ok(ChatResponse(ReplyText(env.completion), sessionId, ResponseStamp(env, old(store.clock))))
      && store.clock == ResponseStamp(env, old(store.clock))
  {
    var asked;
    asked, prompt := Ask(store, sessionId, request, env);
    if asked.Failure? {
      r := ServerError("Error processing chat request: " + asked.error);
      return;
    }
    var reply := asked.value;
    var saved := store.SaveMessage(sessionId, "assistant", reply, env.replyElapsed, env.replyFault);
    if saved.Failure? {
      r := ServerError("Error processing chat request: " + saved.error);
      return;
    }
    AppendPair(old(store.messages), UserRow(sessionId, request, env, old(store.clock)), ReplyRow(sessionId, env, old(store.clock)));
    var now := store.Now(env.responseElapsed);
    r := Ok(ChatResponse(reply, sessionId, now));
  }

  /**
   * `POST /chat` as intended: settles the session, then runs the turn. Any
   * failure on the way is a 500 that leaves what was already committed in
   * place.
   */
  method Chat(store: Store, request: ChatRequest, env: ChatEnv)
    returns (r: Reply<ChatResponse>, ghost sessionId: string, ghost prompt: CompletionRequest)
    requires store.Valid() && store.Idle()
    modifies store
    ensures store.Valid() && store.Idle()
    // Which session the turn goes to.
    ensures NamesSession(request) ==> sessionId == request.sessionId.value
    ensures !NamesSession(request) && env.createFault.None? ==> sessionId !in old(store.UsedIds())
    ensures store.sessions == if NamesSession(request) || env.createFault.Some? then old(store.sessions)
      else old(store.sessions) + [SessionRow(sessionId, request.userId, DefaultTitle, SessionClock(old(store.clock), request, env))]
    // Which messages were saved, and what the caller gets.
    ensures r.Ok? <==> HasSession(request, env) && env.userFault.None? && env.replyFault.None?
    ensures !HasSession(request, env) ==>
      && r == ServerError("Error processing chat request: " + env.createFault.value)
      && store.messages == old(store.messages)
      && store.clock == SessionClock(old(store.clock), request, env)
    ensures HasSession(request, env) && env.userFault.Some? ==>
      && r == ServerError("Error processing chat request: " + env.userFault.value)
      && store.messages == old(store.messages)
      && store.clock == SessionClock(old(store.clock), request, env) + env.userElapsed
    ensures HasSession(request, env) && env.userFault.None? ==>
      var clock := SessionClock(old(store.clock), request, env);
      && prompt.messages == [Entry("system", SystemPrompt)] + ChatHistory(old(store.messages), sessionId) + [Entry("user", request.message)]
      && (env.replyFault.Some? ==>
            && r == ServerError("Error processing chat request: " + env.replyFault.value)
            && store.messages == old(store.messages) + [UserRow(sessionId, request, env, clock)]
            && store.clock == clock + env.userElapsed + env.replyElapsed)
      && (env.replyFault.None? ==>
            && store.messages == old(store.messages) + [UserRow(sessionId, request, env, clock), ReplyRow(sessionId, env, clock)]
            && r == Ok(ChatResponse(ReplyText(env.completion), sessionId, ResponseStamp(env, clock)))
            && store.clock == ResponseStamp(env, clock))
  {
    var resolved := ResolveSession(store, request, env);
    if resolved.Failure? {
      sessionId, prompt := "", CompletionRequest(Model, [], MaxTokens, Temperature);
      r := ServerError("Error processing chat request: " + resolved.error);
      return;
    }
    var sid := resolved.value;
    sessionId := sid;
    r, prompt := Turn(store, sid, request, env);
  }

  /**
   * What a successful turn does to the session's history, when every message
   * carries its own timestamp: it gains the user's message and the reply, in
   * that order, whatever order the database answers in; for a session the
   * store has never seen, those two are all of it.
   */
  lemma ChatTurnHistory(messages: seq<MessageRow>, clock: int, sessionId: string, request: ChatRequest, env: ChatEnv)
    requires StrictlySorted(messages + [UserRow(sessionId, request, env, clock), ReplyRow(sessionId, env, clock)], StampOf)
    ensures ChatHistory(messages + [UserRow(sessionId, request, env, clock), ReplyRow(sessionId, env, clock)], sessionId)
         == ChatHistory(messages, sessionId) + [Entry("user", request.message), Entry("assistant", ReplyText(env.completion))]
    ensures forall rows :: HistoryAnswer(messages + [UserRow(sessionId, request, env, clock), ReplyRow(sessionId, env, clock)], sessionId, rows) ==>
      Project(rows) == ChatHistory(messages, sessionId) + [Entry("user", request.message), Entry("assistant", ReplyText(env.completion))]
    ensures sessionId !in (set m | m in messages :: m.sessionId) ==>
      ChatHistory(messages + [UserRow(sessionId, request, env, clock), ReplyRow(sessionId, env, clock)], sessionId)
      == [Entry("user", request.message), Entry("assistant", ReplyText(env.completion))]
  {
    HistoryAfterTurn(messages, UserRow(sessionId, request, env, clock), ReplyRow(sessionId, env, clock));
    if sessionId !in (set m | m in messages :: m.sessionId) {
      HistoryOfUnknownSession(messages, sessionId);
    }
  }

  /** What `str(e)` gives for the `AttributeError` raised when a function object is asked for `generate_response`. */
  const MissingAttributeError: string := "'function' object has no attribute 'generate_response'"

  /**
   * The middle of `POST /chat` as written: reads the history and saves the
   * user's message, then fails on the lookup of `generate_response`.
   */
  method AskAsWritten(store: Store, sessionId: string, request: ChatRequest, env: ChatEnv) returns (r: Result<string, string>)
    requires store.Valid() && store.Idle()
    modifies store
    ensures store.Valid() && store.Idle() && store.sessions == old(store.sessions)
    ensures store.clock == old(store.clock) + env.userElapsed
    ensures r.Failure?
    ensures env.userFault.Some? ==> r.error == env.userFault.value && store.messages == old(store.messages)
    ensures env.userFault.None? ==>
      && r.error == MissingAttributeError
      && store.messages == old(store.messages) + [UserRow(sessionId, request, env, old(store.clock))]
  {
    var history := ChatHistory(store.messages, sessionId);
    var saved := store.SaveMessage(sessionId, "user", request.message, env.userElapsed, env.userFault);
    if saved.Failure? {
      r := Failure(saved.error);
      return;
    }
    r := Failure(MissingAttributeError);
  }

  /**
   * `POST /chat` as written. The `def chat` of the endpoint rebinds the
   * module-level name `chat`, so the handler's `chat.generate_response`
   * looks the method up on the endpoint function itself and raises. The
   * user's message is saved by then and stays; the reply is never produced
   * and the caller always gets a 500.
   */
  method ChatAsWritten(store: Store, request: ChatRequest, env: ChatEnv) returns (r: Reply<ChatResponse>, ghost sessionId: string)
    requires store.Valid() && store.Idle()
    modifies store
    ensures store.Valid() && store.Idle()
    ensures !r.Ok?
    ensures !HasSession(request, env) ==>
      && r == ServerError("Error processing chat request: " + env.createFault.value)
      && store.messages == old(store.messages)
    ensures HasSession(request, env) && env.userFault.Some? ==>
      && r == ServerError("Error processing chat request: " + env.userFault.value)
      && store.messages == old(store.messages)
    ensures HasSession(request, env) && env.userFault.None? ==>
      && r == ServerError("Error processing chat request: " + MissingAttributeError)
      && store.messages == old(store.messages) + [UserRow(sessionId, request, env, SessionClock(old(store.clock), request, env))]
    ensures store.clock == SessionClock(old(store.clock), request, env) + (if HasSession(request, env) then env.userElapsed else 0)
  {
    var resolved := ResolveSession(store, request, env);
    if resolved.Failure? {
      sessionId := "";
      r := ServerError("Error processing chat request: " + resolved.error);
      return;
    }
    var sid := resolved.value;
    sessionId := sid;
    var asked := AskAsWritten(store, sid, request, env);
    r := ServerError("Error processing chat request: " + asked.error);
  }

  /**
   * `DELETE /sessions/{session_id}`: 200 when the store deleted a session the
   * user owns, 404 when there was none (the pending message delete is then
   * discarded with the database session), 500 when the commit failed.
   */
  method DeleteSession(store: Store, sessionId: string, userId: string, fault: Option<string>)
    returns (r: Reply<string>)
    requires store.Valid() && store.Idle()
    modifies store
    ensures store.Valid() && store.Idle()
    ensures r.Ok? <==> Owns(old(store.sessions), sessionId, userId) && fault.None?
    ensures r.NotFound? <==> !Owns(old(store.sessions), sessionId, userId)
    ensures r.Ok? ==> r.body == "Session deleted successfully"
    ensures r.Ok? ==> store.sessions == SessionsExcept(old(store.sessions), sessionId)
    ensures r.Ok? ==> store.messages == MessagesExcept(old(store.messages), sessionId)
    ensures r.Ok? ==> ChatHistory(store.messages, sessionId) == []
    ensures r.NotFound? ==> r.detail == NotFoundDetail
    ensures r.ServerError? ==> r.detail == "Error deleting session: " + fault.value
    ensures !r.Ok? ==> store.sessions == old(store.sessions) && store.messages == old(store.messages)
    ensures store.clock == old(store.clock)
  {
    var deleted := store.DeleteSession(sessionId, userId, fault);
    match deleted {
      case Success(true) =>
        r := Ok("Session deleted successfully");
        HistoryOfUnknownSession(store.messages, sessionId);
      case Success(false) =>
        r := NotFound(NotFoundDetail);
      case Failure(error) =>
        r := ServerError("Error deleting session: " + error);
    }
    store.Close();
  }

  /**
   * `PUT /sessions/{session_id}/title`: 200 when the user's session was
   * renamed, 404 when the user owns no such session, 500 when the commit
   * failed.
   */
  method UpdateTitle(store: Store, sessionId: string, title: string, userId: string, fault: Option<string>)
    returns (r: Reply<string>)
    requires store.Valid() && store.Idle()
    modifies store
    ensures store.Valid() && store.Idle()
    ensures r.Ok? <==> Owns(old(store.sessions), sessionId, userId) && fault.None?
    ensures r.NotFound? <==> !Owns(old(store.sessions), sessionId, userId)
    ensures r.Ok? ==> r.body == "Title updated successfully"
    ensures r.Ok? ==>
      var i := OwnedIndex(old(store.sessions), sessionId, userId).value;
      store.sessions == old(store.sessions)[i := old(store.sessions)[i].(title := title)]
    ensures r.NotFound? ==> r.detail == NotFoundDetail
    ensures r.ServerError? ==> r.detail == "Error updating title: " + fault.value
    ensures !r.Ok? ==> store.sessions == old(store.sessions)
    ensures store.messages == old(store.messages) && store.clock == old(store.clock)
  {
    var updated := store.UpdateSessionTitle(sessionId, userId, title, fault);
    match updated {
      case Success(true) =>
        r := Ok("Title updated successfully");
      case Success(false) =>
        r := NotFound(NotFoundDetail);
      case Failure(error) =>
        r := ServerError("Error updating title: " + error);
    }
    store.Close();
  }
}
