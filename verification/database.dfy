/**
 * The two tables of the relational store and the `{role, content}` records
 * that the chat code passes around (app/database.py, app/schema.py).
 * Timestamps are integer readings of the server clock.
 */
module Database {

  /** A row of `chat_sessions`. The surrogate integer primary key is not modelled. */
  datatype SessionRow = SessionRow(sessionId: string, userId: string, title: string, createdAt: int)

  /** A row of `chat_messages`. `sessionId` is not a foreign key; `role` is free text. */
  datatype MessageRow = MessageRow(sessionId: string, role: string, content: string, timestamp: int)

  /** One `{"role": ..., "content": ...}` dictionary, as history entries and as prompt entries. */
  datatype Entry = Entry(role: string, content: string)

  /** Column default of `chat_sessions.title`, also the default of `create_chat_session`. */
  const DefaultTitle: string := "New Chat"

  /** Default of `ChatRequest.user_id` and of the `user_id` query parameter. */
  const AnonymousUser: string := "anonymous"

  /** Sort key of `ORDER BY chat_messages.timestamp`. */
  function StampOf(m: MessageRow): int { m.timestamp }

  /** Sort key of `ORDER BY chat_sessions.created_at`. */
  function CreatedOf(s: SessionRow): int { s.createdAt }

  /** Sort key of `ORDER BY chat_sessions.created_at DESC`: ascending on the negated time. */
  function NewestFirst(s: SessionRow): int { -s.createdAt }

  /** Projection of message rows to the `{role, content}` records a caller sees. */
  function Project(rows: seq<MessageRow>): (r: seq<Entry>)
    ensures |r| == |rows|
  {
    if rows == [] then [] else [Entry(rows[0].role, rows[0].content)] + Project(rows[1..])
  }

  /** Each record is the role and content of the row in the same position. */
  lemma {:induction false} ProjectAt(rows: seq<MessageRow>, i: nat)
    requires i < |rows|
    ensures Project(rows)[i] == Entry(rows[i].role, rows[i].content)
  {
    if i > 0 {
      ProjectAt(rows[1..], i - 1);
    }
  }

  /** Projection works row by row, so it distributes over concatenation. */
  lemma {:induction false} ProjectAppend(a: seq<MessageRow>, b: seq<MessageRow>)
    ensures Project(a + b) == Project(a) + Project(b)
  {
    if a == [] {
      assert a + b == b;
    } else {
      assert (a + b)[1..] == a[1..] + b;
      ProjectAppend(a[1..], b);
    }
  }
}
