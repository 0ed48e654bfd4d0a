/**
 * The session/message store of app/utils.py over the tables of
 * app/database.py.
 *
 * The store is seen through one database session. `sessions` and `messages`
 * are what that session sees (committed rows plus its own uncommitted
 * changes); `committedSessions` and `committedMessages` are what is durable.
 * The database session runs with `autocommit=False`: a change is durable only
 * once `Commit` runs, and `Close` (the end of every request) throws away
 * whatever was not committed. `clock` is the last reading of the server clock.
 */
module SessionStore {
  import opened Wrappers
  import opened Seqs
  import opened Database

  /** `session_id` is a unique column: no two session rows share one. */
  ghost predicate UniqueIds(rows: seq<SessionRow>) {
    forall i, j :: 0 <= i < j < |rows| ==> rows[i].sessionId != rows[j].sessionId
  }

  /**
   * What every state of the tables satisfies: unique session ids, and rows
   * stamped in insertion order by a clock that never runs backwards and has
   * reached `clock`.
   */
  ghost predicate Consistent(sessions: seq<SessionRow>, messages: seq<MessageRow>, clock: int) {
    && UniqueIds(sessions)
    && Chronological(sessions, CreatedOf, clock)
    && Chronological(messages, StampOf, clock)
  }

  /** The rows of `chat_messages` with the given `session_id`, in table order. */
  function MessagesOf(messages: seq<MessageRow>, sessionId: string): (r: seq<MessageRow>)
    ensures |r| <= |messages|
  {
    Filter(messages, (m: MessageRow) => m.sessionId == sessionId)
  }

  /** The session's messages are exactly the rows carrying its id. */
  lemma MessagesOfMembers(messages: seq<MessageRow>, sessionId: string)
    ensures forall m :: m in MessagesOf(messages, sessionId) <==> m in messages && m.sessionId == sessionId
  {
    FilterMembers(messages, (m: MessageRow) => m.sessionId == sessionId);
  }

  /** The rows of `chat_messages` whose `session_id` differs from the given one. */
  function MessagesExcept(messages: seq<MessageRow>, sessionId: string): (r: seq<MessageRow>)
    ensures forall m :: m in r <==> m in messages && m.sessionId != sessionId
  {
    FilterMembers(messages, (m: MessageRow) => m.sessionId != sessionId);
    Filter(messages, (m: MessageRow) => m.sessionId != sessionId)
  }

  /** The rows of `chat_sessions` with the given `user_id`, in table order. */
  function SessionsOf(sessions: seq<SessionRow>, userId: string): (r: seq<SessionRow>)
    ensures forall s :: s in r <==> s in sessions && s.userId == userId
  {
    FilterMembers(sessions, (s: SessionRow) => s.userId == userId);
    Filter(sessions, (s: SessionRow) => s.userId == userId)
  }

  /** The rows of `chat_sessions` whose `session_id` differs from the given one. */
  function SessionsExcept(sessions: seq<SessionRow>, sessionId: string): (r: seq<SessionRow>)
    ensures forall s :: s in r <==> s in sessions && s.sessionId != sessionId
  {
    FilterMembers(sessions, (s: SessionRow) => s.sessionId != sessionId);
    Filter(sessions, (s: SessionRow) => s.sessionId != sessionId)
  }

  /**
   * `get_chat_history`: the session's messages under `ORDER BY timestamp`,
   * as `{role, content}` records. When two messages carry the same timestamp
   * the database may return them either way; this model keeps their table
   * order.
   */
  function ChatHistory(messages: seq<MessageRow>, sessionId: string): (r: seq<Entry>)
    ensures |r| == |MessagesOf(messages, sessionId)|
  {
    Project(SortBy(MessagesOf(messages, sessionId), StampOf))
  }

  /**
   * `rows` is an answer the database may give to the history query: exactly
   * the session's rows, in ascending timestamp order, rows with equal
   * timestamps in any order.
   */
  ghost predicate HistoryAnswer(messages: seq<MessageRow>, sessionId: string, rows: seq<MessageRow>) {
    Sorted(rows, StampOf) && multiset(rows) == multiset(MessagesOf(messages, sessionId))
  }

  /** What the query promises: the history is the projection of one of the answers the database may give. */
  lemma HistoryIsOrderedSelection(messages: seq<MessageRow>, sessionId: string)
    ensures exists rows :: HistoryAnswer(messages, sessionId, rows) && ChatHistory(messages, sessionId) == Project(rows)
  {
    var rows := SortBy(MessagesOf(messages, sessionId), StampOf);
    SortBySorted(MessagesOf(messages, sessionId), StampOf);
    SortByPermutes(MessagesOf(messages, sessionId), StampOf);
    assert HistoryAnswer(messages, sessionId, rows);
    assert ChatHistory(messages, sessionId) == Project(rows);
  }

  /** Every history entry is the role and content of a message saved under that session id, and none is lost. */
  lemma HistoryEntriesFromSession(messages: seq<MessageRow>, sessionId: string)
    ensures |ChatHistory(messages, sessionId)| == |MessagesOf(messages, sessionId)|
    ensures forall e :: e in ChatHistory(messages, sessionId) ==>
      exists m :: m in messages && m.sessionId == sessionId && e == Entry(m.role, m.content)
  {
    var mine := MessagesOf(messages, sessionId);
    var rows := SortBy(mine, StampOf);
    var history := ChatHistory(messages, sessionId);
    SortByPermutes(mine, StampOf);
    assert |rows| == |multiset(rows)| == |multiset(mine)| == |mine|;
    forall e | e in history
      ensures exists m :: m in messages && m.sessionId == sessionId && e == Entry(m.role, m.content)
    {
      var k :| 0 <= k < |history| && history[k] == e;
      ProjectAt(rows, k);
      assert rows[k] in multiset(mine);
      MessagesOfMembers(messages, sessionId);
      assert rows[k] in mine;
    }
  }

  /** `get_user_sessions`: the user's sessions, newest first. */
  function UserSessions(sessions: seq<SessionRow>, userId: string): (r: seq<SessionRow>)
    ensures Sorted(r, NewestFirst)
    ensures multiset(r) == multiset(SessionsOf(sessions, userId))
  {
    SortBySorted(SessionsOf(sessions, userId), NewestFirst);
    SortByPermutes(SessionsOf(sessions, userId), NewestFirst);
    SortBy(SessionsOf(sessions, userId), NewestFirst)
  }

  /** The row matches both `session_id` and `user_id` (the ownership filter of delete and rename). */
  predicate Owned(row: SessionRow, sessionId: string, userId: string) {
    row.sessionId == sessionId && row.userId == userId
  }

  /** Position of the row that `.first()` returns under the ownership filter, if any. */
  function OwnedIndex(sessions: seq<SessionRow>, sessionId: string, userId: string): (r: Option<nat>)
    ensures r.Some? ==> r.value < |sessions| && Owned(sessions[r.value], sessionId, userId)
    ensures r.Some? ==> forall j :: 0 <= j < r.value ==> !Owned(sessions[j], sessionId, userId)
    ensures r.None? <==> forall j :: 0 <= j < |sessions| ==> !Owned(sessions[j], sessionId, userId)
  {
    if sessions == [] then None
    else if Owned(sessions[0], sessionId, userId) then Some(0)
    else
      match OwnedIndex(sessions[1..], sessionId, userId)
      case None => None
      case Some(i) => Some(i + 1)
  }

  /** Some row matches both ids. */
  predicate Owns(sessions: seq<SessionRow>, sessionId: string, userId: string) {
    exists j :: 0 <= j < |sessions| && Owned(sessions[j], sessionId, userId)
  }

  /**
   * Because session ids are unique, deleting the one row found by id is the
   * same as deleting every row with that id.
   */
  lemma RemoveAtIsSessionsExcept(sessions: seq<SessionRow>, i: nat)
    requires UniqueIds(sessions) && i < |sessions|
    ensures sessions[..i] + sessions[i + 1..] == SessionsExcept(sessions, sessions[i].sessionId)
  {
    var id := sessions[i].sessionId;
    FilterDropsOne(sessions, i, (s: SessionRow) => s.sessionId != id);
  }

  /** Deleting a session's messages keeps the tables consistent. */
  lemma MessagesExceptConsistent(sessions: seq<SessionRow>, messages: seq<MessageRow>, clock: int, sessionId: string)
    requires Consistent(sessions, messages, clock)
    ensures Consistent(sessions, MessagesExcept(messages, sessionId), clock)
  {
    ChronologicalIsSortedBounded(messages, StampOf, clock);
    FilterSorted(messages, (m: MessageRow) => m.sessionId != sessionId, StampOf);
    ChronologicalIsSortedBounded(MessagesExcept(messages, sessionId), StampOf, clock);
  }

  /** Deleting one session row keeps the session ids unique. */
  lemma RemoveAtUnique(sessions: seq<SessionRow>, i: nat)
    requires UniqueIds(sessions) && i < |sessions|
    ensures UniqueIds(sessions[..i] + sessions[i + 1..])
  {
    var rest := sessions[..i] + sessions[i + 1..];
    forall k, l | 0 <= k < l < |rest| ensures rest[k].sessionId != rest[l].sessionId {
      var k', l' := if k < i then k else k + 1, if l < i then l else l + 1;
      assert rest[k] == sessions[k'] && rest[l] == sessions[l'];
    }
  }

  /** Deleting one session row keeps the tables consistent. */
  lemma RemoveAtConsistent(sessions: seq<SessionRow>, messages: seq<MessageRow>, clock: int, i: nat)
    requires Consistent(sessions, messages, clock) && i < |sessions|
    ensures Consistent(sessions[..i] + sessions[i + 1..], messages, clock)
  {
    RemoveAtUnique(sessions, i);
    RemoveAtChronological(sessions, CreatedOf, clock, i);
  }

  /**
   * With strictly increasing timestamps the order is forced: every order the
   * database may return for `ORDER BY timestamp` is the order of saving.
   */
  lemma HistoryOrderForced(messages: seq<MessageRow>, sessionId: string, rows: seq<MessageRow>)
    requires StrictlySorted(MessagesOf(messages, sessionId), StampOf)
    requires HistoryAnswer(messages, sessionId, rows)
    ensures rows == MessagesOf(messages, sessionId)
  {
    SortedPermutationUnique(MessagesOf(messages, sessionId), rows, StampOf);
  }

  /**
   * Round trip of `save_message` and `get_chat_history`: when every message
   * carries its own timestamp, whatever answer the database gives is the
   * session's messages in the order they were saved, and so is the history.
   */
  lemma HistoryInSaveOrder(messages: seq<MessageRow>, sessionId: string)
    requires StrictlySorted(messages, StampOf)
    ensures forall rows :: HistoryAnswer(messages, sessionId, rows) ==> Project(rows) == Project(MessagesOf(messages, sessionId))
    ensures ChatHistory(messages, sessionId) == Project(MessagesOf(messages, sessionId))
  {
    FilterSorted(messages, (m: MessageRow) => m.sessionId == sessionId, StampOf);
    forall rows | HistoryAnswer(messages, sessionId, rows)
      ensures Project(rows) == Project(MessagesOf(messages, sessionId))
    {
      HistoryOrderForced(messages, sessionId, rows);
    }
    HistoryIsOrderedSelection(messages, sessionId);
  }

  /**
   * Saving one more message, stamped later than every other, extends that
   * session's history by exactly that message and leaves the history of
   * every other session alone, whatever order the database answers in.
   */
  lemma HistoryAfterSave(messages: seq<MessageRow>, row: MessageRow, sessionId: string)
    requires StrictlySorted(messages + [row], StampOf)
    ensures ChatHistory(messages + [row], sessionId)
         == ChatHistory(messages, sessionId) + (if row.sessionId == sessionId then [Entry(row.role, row.content)] else [])
    ensures forall rows :: HistoryAnswer(messages + [row], sessionId, rows) ==>
      Project(rows) == ChatHistory(messages, sessionId) + (if row.sessionId == sessionId then [Entry(row.role, row.content)] else [])
  {
    var all := messages + [row];
    var keep := (m: MessageRow) => m.sessionId == sessionId;
    StrictlySortedPrefix(messages, [row], StampOf);
    assert Filter([row], keep) == if row.sessionId == sessionId then [row] else [];
    assert Project(Filter([row], keep)) == if row.sessionId == sessionId then [Entry(row.role, row.content)] else [];
    HistoryInSaveOrder(all, sessionId);
    calc {
      ChatHistory(all, sessionId);
      Project(Filter(all, keep));
      { FilterAppend(messages, [row], keep); }
      Project(Filter(messages, keep) + Filter([row], keep));
      { ProjectAppend(Filter(messages, keep), Filter([row], keep)); }
      Project(Filter(messages, keep)) + Project(Filter([row], keep));
      { HistoryInSaveOrder(messages, sessionId); }
      ChatHistory(messages, sessionId) + Project(Filter([row], keep));
    }
  }

  /**
   * One conversation turn, a message and then its reply, each stamped later
   * than everything before it, extends the session's history by both, in
   * that order, whatever order the database answers in.
   */
  lemma HistoryAfterTurn(messages: seq<MessageRow>, asked: MessageRow, answered: MessageRow)
    requires StrictlySorted(messages + [asked, answered], StampOf) && asked.sessionId == answered.sessionId
    ensures ChatHistory(messages + [asked, answered], asked.sessionId)
         == ChatHistory(messages, asked.sessionId) + [Entry(asked.role, asked.content), Entry(answered.role, answered.content)]
    ensures forall rows :: HistoryAnswer(messages + [asked, answered], asked.sessionId, rows) ==>
      Project(rows) == ChatHistory(messages, asked.sessionId) + [Entry(asked.role, asked.content), Entry(answered.role, answered.content)]
  {
    var sid := asked.sessionId;
    AppendPair(messages, asked, answered);
    StrictlySortedPrefix(messages + [asked], [answered], StampOf);
    AppendPair(ChatHistory(messages, sid), Entry(asked.role, asked.content), Entry(answered.role, answered.content));
    HistoryInSaveOrder(messages + [asked, answered], sid);
    calc {
      ChatHistory(messages + [asked, answered], sid);
      { HistoryAfterSave(messages + [asked], answered, sid); }
      ChatHistory(messages + [asked], sid) + [Entry(answered.role, answered.content)];
      { HistoryAfterSave(messages, asked, sid); }
      ChatHistory(messages, sid) + [Entry(asked.role, asked.content)] + [Entry(answered.role, answered.content)];
    }
  }

  /** A session id that no message carries has an empty history. */
  lemma HistoryOfUnknownSession(messages: seq<MessageRow>, sessionId: string)
    requires sessionId !in (set m | m in messages :: m.sessionId)
    ensures ChatHistory(messages, sessionId) == []
  {
    var mine := MessagesOf(messages, sessionId);
    MessagesOfMembers(messages, sessionId);
    assert forall k :: 0 <= k < |mine| ==> mine[k] in mine;
  }

  /**
   * With strictly increasing creation times the listing is fully determined:
   * the user's sessions in reverse creation order.
   */
  lemma UserSessionsNewestFirst(sessions: seq<SessionRow>, userId: string)
    requires StrictlySorted(sessions, CreatedOf)
    ensures UserSessions(sessions, userId) == Reverse(SessionsOf(sessions, userId))
  {
    var mine := SessionsOf(sessions, userId);
    FilterSorted(sessions, (s: SessionRow) => s.userId == userId, CreatedOf);
    var rev := Reverse(mine);
    forall i, j | 0 <= i < j < |rev| ensures NewestFirst(rev[i]) < NewestFirst(rev[j]) {
      assert rev[i] == mine[|mine| - 1 - i] && rev[j] == mine[|mine| - 1 - j];
    }
    ReverseMultiset(mine);
    SortedPermutationUnique(rev, UserSessions(sessions, userId), NewestFirst);
  }

  /** A bound on the length of the given ids: any longer string is not among them, so a fresh id always exists. */
  ghost function LongestLength(ids: set<string>): (n: nat)
    ensures forall s :: s in ids ==> |s| <= n
    decreases |ids|
  {
    if ids == {} then 0
    else
      var s :| s in ids;
      var rest := LongestLength(ids - {s});
      if |s| > rest then |s| else rest
  }

  class Store {
    var sessions: seq<SessionRow>
    var messages: seq<MessageRow>
    var committedSessions: seq<SessionRow>
    var committedMessages: seq<MessageRow>
    var clock: int

    ghost predicate Valid()
      reads this
    {
      && Consistent(sessions, messages, clock)
      && Consistent(committedSessions, committedMessages, clock)
    }

    /** No uncommitted change is pending: the state at the start of every request. */
    ghost predicate Idle()
      reads this
    {
      sessions == committedSessions && messages == committedMessages
    }

    /** Every session id in use, by a session row or by a message row, committed or not. */
    function UsedIds(): set<string>
      reads this
    {
      (set s | s in sessions :: s.sessionId) + (set s | s in committedSessions :: s.sessionId)
      + (set m | m in messages :: m.sessionId) + (set m | m in committedMessages :: m.sessionId)
    }

    /** Empty tables, as `create_all` leaves a new database. */
    constructor (startTime: int)
      ensures Valid() && Idle()
      ensures sessions == [] && messages == [] && clock == startTime
    {
      sessions, messages := [], [];
      committedSessions, committedMessages := [], [];
      clock := startTime;
    }

    /** `db.commit()`: the session's view becomes durable, or, if the database refuses, everything pending is rolled back. */
    method Commit(fault: Option<string>) returns (r: Result<(), string>)
      requires Consistent(sessions, messages, clock) && Consistent(committedSessions, committedMessages, clock)
      modifies this
      ensures Valid() && Idle() && clock == old(clock)
      ensures fault.None? ==> r == Success(()) && sessions == old(sessions) && messages == old(messages)
      ensures fault.Some? ==> r == Failure(fault.value)
      ensures fault.Some? ==> sessions == old(committedSessions) && messages == old(committedMessages)
    {
      if fault.Some? {
        sessions, messages := committedSessions, committedMessages;
        r := Failure(fault.value);
      } else {
        committedSessions, committedMessages := sessions, messages;
        r := Success(());
      }
    }

    /** `db.close()` at the end of a request: uncommitted changes are discarded. */
    method Close()
      requires Valid()
      modifies this
      ensures Valid() && Idle() && clock == old(clock)
      ensures committedSessions == old(committedSessions) && committedMessages == old(committedMessages)
      ensures sessions == old(committedSessions) && messages == old(committedMessages)
    {
      sessions, messages := committedSessions, committedMessages;
    }

    /** Reads the clock `elapsed` time units after its last reading. */
    method Now(elapsed: nat) returns (t: int)
      requires Valid()
      modifies this`clock
      ensures Valid() && t == clock == old(clock) + elapsed
    {
      clock := clock + elapsed;
      t := clock;
    }

    /**
     * `create_chat_session`: a session row with a fresh id, the user, the
     * title and the current time, then a commit. Returns the new id.
     */
    method CreateSession(userId: string, title: string := DefaultTitle, elapsed: nat, fault: Option<string>)
      returns (r: Result<string, string>)
      requires Valid()
      modifies this
      ensures Valid() && Idle() && clock == old(clock) + elapsed
      ensures r.Success? <==> fault.None?
      ensures r.Success? ==> r.value !in old(UsedIds())
      ensures r.Success? ==> sessions == old(sessions) + [SessionRow(r.value, userId, title, clock)]
      ensures r.Success? ==> messages == old(messages)
      ensures r.Failure? ==> r.error == fault.value
      ensures r.Failure? ==> sessions == old(committedSessions) && messages == old(committedMessages)
    {
      ghost var longer := seq(LongestLength(UsedIds()) + 1, _ => 'x');
      assert longer !in UsedIds();
      var id: string :| id !in UsedIds();
      var createdAt := Now(elapsed);
      sessions := sessions + [SessionRow(id, userId, title, createdAt)];
      assert forall i :: 0 <= i < |sessions| - 1 ==> sessions[i] in old(sessions);
      var committed := Commit(fault);
      if committed.Success? {
        r := Success(id);
      } else {
        r := Failure(committed.error);
      }
    }

    /**
     * `save_message`: one message row with the current time, then a commit.
     * Neither the role nor the existence of the session is checked.
     */
    method SaveMessage(sessionId: string, role: string, content: string, elapsed: nat, fault: Option<string>)
      returns (r: Result<(), string>)
      requires Valid()
      modifies this
      ensures Valid() && Idle() && clock == old(clock) + elapsed
      ensures r.Success? <==> fault.None?
      ensures r.Success? ==> messages == old(messages) + [MessageRow(sessionId, role, content, clock)]
      ensures r.Success? ==> sessions == old(sessions)
      ensures r.Failure? ==> r.error == fault.value
      ensures r.Failure? ==> sessions == old(committedSessions) && messages == old(committedMessages)
    {
      var timestamp := Now(elapsed);
      messages := messages + [MessageRow(sessionId, role, content, timestamp)];
      assert forall i :: 0 <= i < |messages| - 1 ==> messages[i] in old(messages);
      r := Commit(fault);
    }

    /**
     * `delete_chat_session`: deletes the session's messages, then looks for
     * the session row owned by the user. Only if there is one is it deleted
     * and everything committed; otherwise the message delete stays pending
     * and nothing becomes durable.
     */
    method DeleteSession(sessionId: string, userId: string, fault: Option<string>) returns (r: Result<bool, string>)
      requires Valid()
      modifies this
      ensures Valid() && clock == old(clock)
      ensures r == Success(true) <==> Owns(old(sessions), sessionId, userId) && fault.None?
      ensures r == Success(false) <==> !Owns(old(sessions), sessionId, userId)
      ensures r == Success(true) ==> Idle()
      ensures r == Success(true) ==> sessions == SessionsExcept(old(sessions), sessionId)
      ensures r == Success(true) ==> messages == MessagesExcept(old(messages), sessionId)
      ensures r == Success(false) ==> sessions == old(sessions) && messages == MessagesExcept(old(messages), sessionId)
      ensures r == Success(false) ==> committedSessions == old(committedSessions) && committedMessages == old(committedMessages)
      ensures r.Failure? ==> Idle() && r.error == fault.value
      ensures r.Failure? ==> sessions == old(committedSessions) && messages == old(committedMessages)
    {
      MessagesExceptConsistent(sessions, messages, clock, sessionId);
      messages := MessagesExcept(messages, sessionId);
      var found := OwnedIndex(sessions, sessionId, userId);
      if found.Some? {
        var i := found.value;
        RemoveAtIsSessionsExcept(sessions, i);
        RemoveAtConsistent(sessions, messages, clock, i);
        sessions := sessions[..i] + sessions[i + 1..];
        var committed := Commit(fault);
        if committed.Success? {
          r := Success(true);
        } else {
          r := Failure(committed.error);
        }
      } else {
        r := Success(false);
      }
    }

    /**
     * `update_session_title`: if the user owns the session, its title is
     * replaced and the change committed; otherwise nothing happens.
     */
    method UpdateSessionTitle(sessionId: string, userId: string, title: string, fault: Option<string>)
      returns (r: Result<bool, string>)
      requires Valid()
      modifies this
      ensures Valid() && clock == old(clock)
      ensures r == Success(true) <==> Owns(old(sessions), sessionId, userId) && fault.None?
      ensures r == Success(false) <==> !Owns(old(sessions), sessionId, userId)
      ensures r == Success(true) ==> Idle() && messages == old(messages)
      ensures r == Success(true) ==>
        var i := OwnedIndex(old(sessions), sessionId, userId).value;
        sessions == old(sessions)[i := old(sessions)[i].(title := title)]
      ensures r == Success(false) ==> unchanged(this)
      ensures r.Failure? ==> Idle() && r.error == fault.value
      ensures r.Failure? ==> sessions == old(committedSessions) && messages == old(committedMessages)
    {
      var found := OwnedIndex(sessions, sessionId, userId);
      if found.Some? {
        var i := found.value;
        sessions := sessions[i := sessions[i].(title := title)];
        assert forall k :: 0 <= k < |sessions| ==> sessions[k].sessionId == old(sessions)[k].sessionId;
        ChronologicalSameKeys(old(sessions), sessions, CreatedOf, clock);
        var committed := Commit(fault);
        if committed.Success? {
          r := Success(true);
        } else {
          r := Failure(committed.error);
        }
      } else {
        r := Success(false);
      }
    }
  }
}
