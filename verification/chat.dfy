/**
 * The completion wrapper of app/chat.py: the `Chat` class's prompt assembly,
 * its never-failing call to the hosted completion API, and the history
 * trimming helper. The API itself is a foreign service; what it answers is
 * an input here (`Completion`).
 */
module ChatService {
  import opened Wrappers
  import opened Database

  /** `Chat.system_prompt`, fixed by the constructor. */
  const SystemPrompt: string := "You are a helpful assistant."

  /** The fixed request parameters of every completion call. */
  const Model: string := "gpt-4.1-nano"
  const MaxTokens: nat := 1000
  const Temperature: real := 0.7

  /** What is handed to the completion API. */
  datatype CompletionRequest = CompletionRequest(model: string, messages: seq<Entry>, maxTokens: nat, temperature: real)

  /** What the API call produced: the text of the first choice, or the text of the exception it raised. */
  datatype Completion = Answered(text: string) | Raised(error: string)

  /**
   * Python's `s[start:]`: a negative `start` counts from the end, and a start
   * outside the list is clamped to it.
   */
  function SliceFrom(s: seq<Entry>, start: int): (r: seq<Entry>)
    ensures |r| <= |s| && r == s[|s| - |r|..]
    ensures start >= 0 ==> |r| == if start >= |s| then 0 else |s| - start
    ensures start < 0 ==> |r| == if -start >= |s| then |s| else -start
  {
    if start < 0 then
      (if -start >= |s| then s else s[|s| + start..])
    else
      (if start >= |s| then [] else s[start..])
  }

  /**
   * `Chat.get_conversation_context`: `messages[-max_messages:]` when the list
   * is longer than `max_messages`, otherwise the list itself.
   */
  function GetConversationContext(messages: seq<Entry>, maxMessages: int := 10): (r: seq<Entry>)
    ensures |r| <= |messages| && r == messages[|messages| - |r|..]
    ensures |messages| <= maxMessages ==> r == messages
    ensures maxMessages >= 1 ==> |r| == if |messages| <= maxMessages then |messages| else maxMessages
  {
    if |messages| > maxMessages then SliceFrom(messages, -maxMessages) else messages
  }

  /** For a positive limit, a longer history is cut to exactly its last `maxMessages` entries. */
  lemma ContextKeepsMostRecent(messages: seq<Entry>, maxMessages: int)
    requires maxMessages >= 1 && |messages| > maxMessages
    ensures GetConversationContext(messages, maxMessages) == messages[|messages| - maxMessages..]
  {
  }

  /** Trimming twice is trimming once, for every limit that is not negative. */
  lemma ContextIdempotent(messages: seq<Entry>, maxMessages: int)
    requires maxMessages >= 0
    ensures GetConversationContext(GetConversationContext(messages, maxMessages), maxMessages)
         == GetConversationContext(messages, maxMessages)
  {
  }

  /** `messages[-0:]` is the whole list: a limit of zero trims nothing. */
  lemma ContextZeroKeepsAll(messages: seq<Entry>)
    ensures GetConversationContext(messages, 0) == messages
  {
  }

  /** A negative limit `-k` slices from index `k`: it drops the first `k` entries, not the last ones. */
  lemma ContextNegativeDropsFront(messages: seq<Entry>, k: int)
    requires k >= 1
    ensures GetConversationContext(messages, -k) == if k >= |messages| then [] else messages[k..]
  {
  }

  /** The fixed text around the error in the apology. */
  const ApologyOpening: string := "Sorry, I encountered an error: "
  const ApologyClosing: string := ". Please try again."

  /**
   * The apology returned instead of an answer when the API call raises: the
   * error text can be read back from it, at a fixed offset.
   */
  function Apology(error: string): (r: string)
    ensures |r| == |ApologyOpening| + |error| + |ApologyClosing|
    ensures r[|ApologyOpening|..|ApologyOpening| + |error|] == error
  {
    ApologyOpening + error + ApologyClosing
  }

  /** The text the completion wrapper returns for an API outcome: the answer, or the apology. */
  function ReplyText(outcome: Completion): string {
    match outcome
    case Answered(text) => text
    case Raised(error) => Apology(error)
  }

  /**
   * `Chat.generate_response`: builds the prompt (system prompt, then the
   * history when it is given and not empty, then the user's message), sends
   * it with the fixed parameters, and returns the answer, or the apology
   * when the call raises. It never fails.
   */
  method GenerateResponse(message: string, conversationHistory: Option<seq<Entry>>, outcome: Completion)
    returns (reply: string, request: CompletionRequest)
    ensures ghost var history := if conversationHistory.Some? then conversationHistory.value else [];
      request.messages == [Entry("system", SystemPrompt)] + history + [Entry("user", message)]
    ensures request.model == Model && request.maxTokens == MaxTokens && request.temperature == Temperature
    ensures reply == ReplyText(outcome)
    ensures outcome.Answered? ==> reply == outcome.text
    ensures outcome.Raised? ==> reply == Apology(outcome.error)
  {
    var messages := [Entry("system", SystemPrompt)];
    if conversationHistory.Some? && conversationHistory.value != [] {
      messages := messages + conversationHistory.value;
    }
    messages := messages + [Entry("user", message)];
    request := CompletionRequest(Model, messages, MaxTokens, Temperature);
    match outcome {
      case Answered(text) => reply := text;
      case Raised(error) => reply := Apology(error);
    }
  }
}
