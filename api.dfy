/**
 * The chat endpoints of api.py without Flask: an in-memory history that `/ask`
 * appends to, the context built from its last five entries, and `/stream`,
 * which answers without touching the history.
 */
module Api {
  import opened Wrappers
  import opened PyText
  import opened Generation
  import RagQuery

  datatype Role = User | Assistant

  /** A `{role, content}` history entry. */
  datatype Message = Message(role: Role, content: string)

  /** The JSON reply of `/ask`: `{"answer": …}` with status 200, or `{"error": …}` with a status. */
  datatype AskReply = Answered(answer: string) | Error(status: nat, message: string)

  /** The reply of `/stream`: a plain-text 400, or the token stream (which may raise). */
  datatype StreamReply = Rejected(status: nat, message: string) | Streamed(tokens: Result<seq<string>, string>)

  const NoQuestion := "No question provided"

  /** How many of the latest entries make up the context. */
  const Window := 5

  /** `history[-5:]` */
  function Recent(history: seq<Message>): (r: seq<Message>)
    ensures |r| == if |history| < Window then |history| else Window
    ensures history == history[..|history| - |r|] + r
  {
    if |history| <= Window then history else history[|history| - Window..]
  }

  function Contents(history: seq<Message>): seq<string> {
    seq(|history|, i requires 0 <= i < |history| => history[i].content)
  }

  /** The context `/ask` sends: the contents of the last five entries joined by newlines. */
  function RecentContext(history: seq<Message>): string {
    Join(Contents(Recent(history)), "\n")
  }

  /** `question` is missing or empty: `not question`. */
  predicate Missing(question: Option<string>) {
    question.None? || question.value == ""
  }

  /** The last item of a join ends it. */
  lemma {:induction false} JoinEndsWithLast(items: seq<string>, sep: string)
    requires items != []
    ensures EndsWith(Join(items, sep), items[|items| - 1])
  {
    if |items| > 1 {
      JoinEndsWithLast(items[1..], sep);
      var rest := Join(items[1..], sep);
      var s := items[0] + sep + rest;
      assert s[|s| - |rest|..] == rest;
      assert s[|s| - |items[|items| - 1]|..] == rest[|rest| - |items[|items| - 1]|..];
    }
  }

  /** The context of a history ending with the question ends with the question. */
  lemma ContextEndsWithQuestion(history: seq<Message>, question: string)
    ensures EndsWith(RecentContext(history + [Message(User, question)]), question)
  {
    var h := history + [Message(User, question)];
    var items := Contents(Recent(h));
    assert Recent(h)[|Recent(h)| - 1] == h[|h| - 1];
    JoinEndsWithLast(items, "\n");
  }

  /** Entries older than the last five do not change the context. */
  lemma ContextIgnoresOlder(older: seq<Message>, latest: seq<Message>)
    requires |latest| >= Window
    ensures RecentContext(older + latest) == RecentContext(latest)
  {
    var h := older + latest;
    assert Recent(h) == h[|h| - Window..];
    assert Recent(latest) == latest[|latest| - Window..];
    assert h[|h| - Window..] == latest[|latest| - Window..];
  }

  /** Every one of the last five contents is in the context. */
  lemma ContextHasWindow(history: seq<Message>, k: nat)
    requires |history| - Window <= k < |history|
    ensures Contains(RecentContext(history), history[k].content)
  {
    var r := Recent(history);
    var j := k - (|history| - |r|);
    assert r[j] == history[k];
    assert Contents(r)[j] == history[k].content;
    JoinContainsItem(Contents(r), "\n", j);
  }

  class ChatServer {
    /** `chat_history` */
    var chatHistory: seq<Message>

    constructor ()
      ensures chatHistory == []
    {
      chatHistory := [];
    }

    /**
     * `POST /ask`: a missing or empty question is refused with 400 and the
     * history untouched. Otherwise the question is appended, the recent context
     * is answered, and the reply is appended on success (200) or the error text
     * returned with 500, the question staying in the history.
     */
    method Ask(question: Option<string>, search: RagQuery.Search, b: Backends) returns (reply: AskReply)
      modifies this
      ensures Missing(question) ==> reply == Error(400, NoQuestion) && chatHistory == old(chatHistory)
      ensures !Missing(question) ==>
                var asked := old(chatHistory) + [Message(User, question.value)];
                exists response ::
                  && RagQuery.IsAnswer(RecentContext(asked), search, b, response)
                  && (response.Success? ==> reply == Answered(response.value)
                                            && chatHistory == asked + [Message(Assistant, response.value)])
                  && (response.Failure? ==> reply == Error(500, response.error) && chatHistory == asked)
    {
      if Missing(question) {
        return Error(400, NoQuestion);
      }
      chatHistory := chatHistory + [Message(User, question.value)];
      var context := RecentContext(chatHistory);
      var response := RagQuery.Answer(context, search, b);
      if response.Success? {
        chatHistory := chatHistory + [Message(Assistant, response.value)];
        reply := Answered(response.value);
      } else {
        reply := Error(500, response.error);
      }
    }

    /** `POST /stream`: 400 on a missing question; otherwise the answer's tokens. It reads no history. */
    method Stream(question: Option<string>, search: RagQuery.Search, b: Backends) returns (reply: StreamReply)
      ensures Missing(question) ==> reply == Rejected(400, NoQuestion)
      ensures !Missing(question) ==>
                reply.Streamed? && exists response ::
                  && RagQuery.IsAnswer(question.value, search, b, response)
                  && reply.tokens == (if response.Success? then Success(RagQuery.StreamTokens(response.value)) else Failure(response.error))
    {
      if Missing(question) {
        return Rejected(400, NoQuestion);
      }
      var tokens := RagQuery.StreamAnswer(question.value, search, b);
      reply := Streamed(tokens);
    }
  }
}
