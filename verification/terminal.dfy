/**
 The terminal page: a bare transcript of user and assistant lines, and
 `handleSend`, which appends the user's line and then exactly one assistant
 line — the answer, or an apology carrying the error. The outcome of the
 chat call and the two ids minted for the new lines are parameters.
 */
module Terminal {
  import opened Wrappers
  import opened JsString
  import opened ChatTypes

  /** The page's own message record: no parsed data. */
  datatype TerminalMessage = TerminalMessage(id: string, content: string, role: Role)

  datatype TerminalState = TerminalState(messages: seq<TerminalMessage>, inputValue: string, isLoading: bool)

  const WelcomeId: string := "1"
  const Welcome: string := "Hello! How can I assist you today?"
  const ErrorPrefix: string := "Sorry, there was an error: "
  const RequestFailedText: string := "Request failed"

  /** The page as first shown: the welcome line alone, nothing typed, nothing loading. */
  function InitialState(): (r: TerminalState)
    ensures |r.messages| == 1 && r.messages[0].id == WelcomeId && r.messages[0].role == Assistant
    ensures r.messages[0].content == Welcome
    ensures r.inputValue == "" && !r.isLoading
  {
    TerminalState([TerminalMessage(WelcomeId, Welcome, Assistant)], "", false)
  }

  /**
   How `POST /api/chat` ended: a JSON body with an `answer`; a non-OK status
   whose JSON body has an optional `error` field; or a rejection (network
   failure, unreadable body) with its `message`.
   */
  datatype ChatOutcome = Answered(answer: string) | Rejected(error: Option<string>) | Threw(message: string)

  /** The message of the error thrown for a non-OK status: the `error` field when it is a non-empty string. */
  function RejectionMessage(error: Option<string>): (r: string)
    ensures r != ""
    ensures error.Some? && error.value != "" ==> r == error.value
    ensures !(error.Some? && error.value != "") ==> r == RequestFailedText
  {
    match error
    case Some(e) => if e != "" then e else RequestFailedText
    case None => RequestFailedText
  }

  /** The assistant line's text for each outcome. */
  function ReplyContent(o: ChatOutcome): (r: string)
    ensures o.Answered? ==> r == o.answer
    ensures o.Rejected? ==> r == ErrorPrefix + RejectionMessage(o.error)
    ensures o.Threw? ==> r == ErrorPrefix + o.message
  {
    match o
    case Answered(a) => a
    case Rejected(e) => ErrorPrefix + RejectionMessage(e)
    case Threw(m) => ErrorPrefix + m
  }

  /** `handleSend`. There is no loading guard in the handler itself: only a blank input is refused. */
  function Send(st: TerminalState, userId: string, replyId: string, o: ChatOutcome): (r: TerminalState)
    ensures IsBlank(st.inputValue) ==> r == st
    ensures !IsBlank(st.inputValue) ==>
      && |r.messages| == |st.messages| + 2
      && r.messages[..|st.messages|] == st.messages
      && r.messages[|st.messages|] == TerminalMessage(userId, st.inputValue, User)
      && r.messages[|st.messages| + 1].role == Assistant
      && r.messages[|st.messages| + 1].id == replyId
      && r.messages[|st.messages| + 1].content == ReplyContent(o)
      && r.inputValue == ""
      && !r.isLoading
  {
    if IsBlank(st.inputValue) then st
    else
      var user := TerminalMessage(userId, st.inputValue, User);
      var reply := TerminalMessage(replyId, ReplyContent(o), Assistant);
      st.(messages := st.messages + [user, reply], inputValue := "", isLoading := false)
  }

  /** A send leaves the page untouched if and only if the input is blank. */
  lemma SendIgnoredIff(st: TerminalState, userId: string, replyId: string, o: ChatOutcome)
    ensures Send(st, userId, replyId, o) == st <==> IsBlank(st.inputValue)
  {
    if !IsBlank(st.inputValue) {
      assert |Send(st, userId, replyId, o).messages| != |st.messages|;
    }
  }

  /**
   A failed send still answers: the assistant line starts with the apology,
   and what follows it is the server's `error` text, or `Request failed`.
   */
  lemma FailureIsReported(st: TerminalState, userId: string, replyId: string, error: Option<string>)
    requires !IsBlank(st.inputValue)
    ensures var line := Send(st, userId, replyId, Rejected(error)).messages[|st.messages| + 1];
      && StartsWith(line.content, ErrorPrefix)
      && line.content[|ErrorPrefix|..] == (if error.Some? && error.value != "" then error.value else RequestFailedText)
  {
    var line := Send(st, userId, replyId, Rejected(error)).messages[|st.messages| + 1];
    assert line.content == ErrorPrefix + RejectionMessage(error);
    assert line.content[..|ErrorPrefix|] == ErrorPrefix;
  }

  /**
   The transcript shape every send keeps: the welcome line first, then
   user/assistant pairs, each user line non-blank.
   */
  predicate WellFormed(ms: seq<TerminalMessage>) {
    && |ms| % 2 == 1
    && ms[0] == TerminalMessage(WelcomeId, Welcome, Assistant)
    && (forall i | 0 < i < |ms| :: ms[i].role == (if i % 2 == 1 then User else Assistant))
    && (forall i | 0 <= i < |ms| && ms[i].role == User :: !IsBlank(ms[i].content))
  }

  lemma InitialWellFormed()
    ensures InitialState().messages == [TerminalMessage(WelcomeId, Welcome, Assistant)]
    ensures WellFormed(InitialState().messages)
  {
  }

  /** Appending a user line with non-blank text and then an assistant line keeps the shape. */
  lemma AppendPairKeepsWellFormed(ms: seq<TerminalMessage>, user: TerminalMessage, reply: TerminalMessage)
    requires WellFormed(ms)
    requires user.role == User && !IsBlank(user.content) && reply.role == Assistant
    ensures WellFormed(ms + [user, reply])
  {
    var n := |ms|;
    var ms' := ms + [user, reply];
    assert n % 2 == 1 && (n + 1) % 2 == 0;
    forall i | 0 < i < |ms'|
      ensures ms'[i].role == (if i % 2 == 1 then User else Assistant)
    {
      if i < n {
        assert ms'[i] == ms[i];
      } else if i == n {
        assert ms'[i] == user;
      } else {
        assert i == n + 1 && ms'[i] == reply;
      }
    }
    forall i | 0 <= i < |ms'| && ms'[i].role == User
      ensures !IsBlank(ms'[i].content)
    {
      if i < n {
        assert ms'[i] == ms[i];
      } else if i == n {
        assert ms'[i] == user;
      }
    }
  }

  lemma SendPreservesWellFormed(st: TerminalState, userId: string, replyId: string, o: ChatOutcome)
    requires WellFormed(st.messages)
    ensures WellFormed(Send(st, userId, replyId, o).messages)
  {
    if !IsBlank(st.inputValue) {
      var user := TerminalMessage(userId, st.inputValue, User);
      var reply := TerminalMessage(replyId, ReplyContent(o), Assistant);
      assert Send(st, userId, replyId, o).messages == st.messages + [user, reply];
      AppendPairKeepsWellFormed(st.messages, user, reply);
    }
  }

  /** One press of the send button: the ids it mints and the outcome it meets. */
  datatype SendEvent = SendEvent(userId: string, replyId: string, outcome: ChatOutcome)

  function Run(st: TerminalState, events: seq<SendEvent>): TerminalState
    decreases |events|
  {
    if events == [] then st
    else Run(Send(st, events[0].userId, events[0].replyId, events[0].outcome), events[1..])
  }

  /** Whatever the outcomes, a transcript is the welcome line followed by user/assistant pairs. */
  lemma {:induction false} RunWellFormed(st: TerminalState, events: seq<SendEvent>)
    requires WellFormed(st.messages)
    ensures WellFormed(Run(st, events).messages)
    decreases |events|
  {
    if events != [] {
      SendPreservesWellFormed(st, events[0].userId, events[0].replyId, events[0].outcome);
      RunWellFormed(Send(st, events[0].userId, events[0].replyId, events[0].outcome), events[1..]);
    }
  }
}
