/**
 The greeting the chat page opens with, verbatim. It has a module of its
 own so that only the members that speak about its text carry it.
 */
module ChatGreeting {
  const Greeting: string := @"**Hello!** I'm your specialized assistant, here to help with a variety of tasks:

- **General Questions**  
  Ask me anything! From coding tips to trivia, I can offer insights and explanations.

- **Token Transfers**  
  Need to move tokens or currencies? I can handle the details—just let me know your source token, destination token, and amount.

- **Sentiment Analysis**  
  Curious about how optimistic or pessimistic your idea might sound? I can gauge the sentiment and present it on a scale from very negative to very positive.

- **Suggestions & Confirmations**  
  I can also suggest next steps, confirm actions, or present clickable options to guide the conversation.

Just let me know what you'd like to do, and I'll take care of the rest!"
}

/**
 The chat page's state and its two handlers: submitting a message (the
 user turn, the chat call, the best-effort parse call) and clicking an
 action button. Each handler is one sequential step from a state to a
 state; the outcomes of the two network calls and the id minted for the
 user message are parameters.
 */
module ChatInterface {
  import opened Wrappers
  import opened ChatGreeting
  import opened JsString
  import opened ChatTypes
  import opened ChatActions

  datatype ChatState = ChatState(
    messages: seq<Message>,
    messageActions: map<string, MessageActions>,
    input: string,
    isLoading: bool,
    errors: map<string, string>)

  const GreetingId: string := "1"


  const GeneralErrorKey: string := "general"
  const SendFailure: string := "Failed to send message"
  const ParseFailure: string := "Failed to analyze message for actions"

  /** The page as first shown: the greeting, an empty action record for it, nothing typed, no errors. */
  function InitialState(): (r: ChatState)
    ensures |r.messages| == 1 && r.messages[0].id == GreetingId && r.messages[0].role == Assistant
    ensures r.messages[0].content == Greeting && !IsParsing(r.messages[0])
    ensures r.messageActions.Keys == {GreetingId} && r.messageActions[GreetingId].actions == []
    ensures r.input == "" && !r.isLoading && r.errors == map[]
  {
    ChatState([Message(GreetingId, Greeting, Assistant, None)],
              map[GreetingId := MessageActions(GreetingId, [])], "", false, map[])
  }

  /**
   The "Generating actions..." indicator: an assistant message other than
   the greeting that has no parsed data yet.
   */
  predicate IsParsing(m: Message) {
    m.parsedData.None? && m.role == Assistant && m.id != GreetingId
  }

  // ---------------------------------------------------------------------------
  // What gets submitted

  /**
   The argument `handleSubmit` is called with: nothing (the Enter key), a
   string (an action click), or the click event the send button passes.
   */
  datatype SubmitArgument = NoArgument | Text(s: string) | ClickEvent

  /**
   `userInput || input` followed by `.trim()`, as written: an empty string
   falls back to the input field, and a click event, being truthy, is picked
   and makes `.trim()` throw (None).
   */
  function EffectiveInputAsWritten(arg: SubmitArgument, input: string): (r: Option<string>)
    ensures r.None? <==> arg.ClickEvent?
  {
    match arg
    case NoArgument => Some(input)
    case Text(s) => Some(if s != "" then s else input)
    case ClickEvent => None
  }

  /** The text a submit sends: a non-empty string argument, otherwise the input field. */
  function EffectiveInput(arg: SubmitArgument, input: string): (r: string)
    ensures arg.Text? && arg.s != "" ==> r == arg.s
    ensures !(arg.Text? && arg.s != "") ==> r == input
    ensures EffectiveInputAsWritten(arg, input).Some? ==> r == EffectiveInputAsWritten(arg, input).value
  {
    match arg
    case Text(s) => if s != "" then s else input
    case _ => input
  }

  /** The guard: a submit does anything only for non-blank text while no request is loading. */
  predicate SubmitProceeds(st: ChatState, arg: SubmitArgument) {
    !IsBlank(EffectiveInput(arg, st.input)) && !st.isLoading
  }

  // ---------------------------------------------------------------------------
  // The step

  /** The outcome of `POST /api/chat`: a failure (status or body), or the assistant message. */
  datatype ChatCall = ChatFailed | ChatReplied(reply: Message)

  /** The outcome of `POST /api/parse`: a failure, or the parsed data to attach. */
  datatype ParseCall = ParseFailed | ParseSucceeded(data: ParsedMessageData)

  /** Attaches parsed data to every message carrying `id`. */
  function AttachParsedData(ms: seq<Message>, id: string, pd: ParsedMessageData): (r: seq<Message>)
    ensures |r| == |ms|
    ensures forall i :: 0 <= i < |ms| && ms[i].id != id ==> r[i] == ms[i]
    ensures forall i :: 0 <= i < |ms| && ms[i].id == id ==> r[i] == ms[i].(parsedData := Some(pd))
  {
    if ms == [] then []
    else
      var m := if ms[0].id == id then ms[0].(parsedData := Some(pd)) else ms[0];
      [m] + AttachParsedData(ms[1..], id, pd)
  }

  /** The action record is written for `id` only when there is at least one action. */
  function RecordActions(m: map<string, MessageActions>, id: string, acts: seq<Action>): (r: map<string, MessageActions>)
    ensures acts == [] ==> r == m
    ensures acts != [] ==> id in r && r[id] == MessageActions(id, acts)
    ensures forall k | k != id :: (k in r <==> k in m) && (k in r ==> r[k] == m[k])
  {
    if |acts| > 0 then m[id := MessageActions(id, acts)] else m
  }

  /** The parse call's effect once the reply `ai` is in the transcript. */
  function AfterReply(st: ChatState, ai: Message, parse: ParseCall): ChatState {
    match parse
    case ParseFailed =>
      st.(errors := st.errors[ai.id := ParseFailure])
    case ParseSucceeded(pd) =>
      st.(messages := AttachParsedData(st.messages, ai.id, pd),
          messageActions := RecordActions(st.messageActions, ai.id, pd.actions))
  }

  /**
   `handleSubmit`. The user message is appended with the untrimmed text and
   stays there whatever the calls do; the input is cleared, errors reset,
   and loading is off again at the end.
   */
  function Submit(st: ChatState, arg: SubmitArgument, userId: string, chat: ChatCall, parse: ParseCall): (r: ChatState)
    ensures !SubmitProceeds(st, arg) ==> r == st
    ensures SubmitProceeds(st, arg) ==> r.input == "" && !r.isLoading
    ensures SubmitProceeds(st, arg) ==> |r.messages| == |st.messages| + (if chat.ChatReplied? then 2 else 1)
    ensures SubmitProceeds(st, arg) ==>
      r.messages[|st.messages|].(parsedData := None) == Message(userId, EffectiveInput(arg, st.input), User, None)
    ensures SubmitProceeds(st, arg) && chat.ChatReplied? ==>
      r.messages[|st.messages| + 1].(parsedData := None) == chat.reply.(parsedData := None)
  {
    var text := EffectiveInput(arg, st.input);
    if IsBlank(text) || st.isLoading then st
    else
      Settle(Begin(st, userId, text), chat, parse)
  }

  /** The synchronous part of a submit: append the user message, clear the input, start loading, reset errors. */
  function Begin(st: ChatState, userId: string, text: string): (r: ChatState)
    ensures |r.messages| == |st.messages| + 1 && r.messages[..|st.messages|] == st.messages
    ensures r.messages[|st.messages|] == Message(userId, text, User, None)
    ensures r.input == "" && r.isLoading && r.errors == map[]
  {
    st.(messages := st.messages + [Message(userId, text, User, None)],
        input := "", isLoading := true, errors := map[])
  }

  /**
   The rest of a submit, once the calls have answered: loading ends whatever
   they answered, the input is left alone, every message is kept but for
   parsed data, and the reply is appended when there is one.
   */
  function Settle(started: ChatState, chat: ChatCall, parse: ParseCall): (r: ChatState)
    ensures r.input == started.input && !r.isLoading
    ensures |r.messages| == |started.messages| + (if chat.ChatReplied? then 1 else 0)
    ensures forall i | 0 <= i < |started.messages| :: r.messages[i].(parsedData := None) == started.messages[i].(parsedData := None)
    ensures chat.ChatReplied? ==> r.messages[|started.messages|].(parsedData := None) == chat.reply.(parsedData := None)
  {
    var settled :=
      match chat
      case ChatFailed => started.(errors := started.errors[GeneralErrorKey := SendFailure])
      case ChatReplied(ai) => AfterReply(started.(messages := started.messages + [ai]), ai, parse);
    settled.(isLoading := false)
  }

  /** A submit that passes its guard is the synchronous part followed by the settling. */
  lemma SubmitUnfolds(st: ChatState, arg: SubmitArgument, userId: string, chat: ChatCall, parse: ParseCall)
    requires SubmitProceeds(st, arg)
    ensures Submit(st, arg, userId, chat, parse) == Settle(Begin(st, userId, EffectiveInput(arg, st.input)), chat, parse)
  {
  }

  /** A submit leaves the state exactly as it was if and only if its guard fails. */
  lemma SubmitIgnoredIff(st: ChatState, arg: SubmitArgument, userId: string, chat: ChatCall, parse: ParseCall)
    ensures Submit(st, arg, userId, chat, parse) == st <==> !SubmitProceeds(st, arg)
  {
    if SubmitProceeds(st, arg) {
      assert |Submit(st, arg, userId, chat, parse).messages| > |st.messages|;
    }
  }

  /** A blank text is never submitted, whatever the calls would have answered. */
  lemma BlankInputIgnored(st: ChatState, arg: SubmitArgument, userId: string, chat: ChatCall, parse: ParseCall)
    requires AllSpace(EffectiveInput(arg, st.input))
    ensures Submit(st, arg, userId, chat, parse) == st
  {
    BlankIffAllSpace(EffectiveInput(arg, st.input));
  }

  /**
   The transcript only grows: earlier messages keep their id, content and
   role, and the only change any of them can see is parsed data attached
   because it carries the reply's id.
   */
  lemma SubmitKeepsEarlierMessages(st: ChatState, arg: SubmitArgument, userId: string, chat: ChatCall, parse: ParseCall, i: nat)
    requires SubmitProceeds(st, arg) && i < |st.messages|
    ensures var r := Submit(st, arg, userId, chat, parse);
      r.messages[i].(parsedData := None) == st.messages[i].(parsedData := None)
      && (chat.ChatFailed? || parse.ParseFailed? || st.messages[i].id != chat.reply.id ==> r.messages[i] == st.messages[i])
      && (chat.ChatReplied? && parse.ParseSucceeded? && st.messages[i].id == chat.reply.id ==>
            r.messages[i].parsedData == Some(parse.data))
  {
    if SubmitProceeds(st, arg) {
      SubmitUnfolds(st, arg, userId, chat, parse);
      match chat {
        case ChatFailed =>
        case ChatReplied(ai) =>
          match parse {
            case ParseFailed =>
            case ParseSucceeded(pd) =>
          }
      }
    }
  }

  /**
   Parsed data goes to the messages whose id is the reply's id and to no
   other: transcript length and order are unchanged by the attachment.
   */
  lemma ParsedDataAttachedById(st: ChatState, arg: SubmitArgument, userId: string, ai: Message, pd: ParsedMessageData, i: nat)
    requires SubmitProceeds(st, arg)
    requires i < |st.messages| + 2
    ensures var r := Submit(st, arg, userId, ChatReplied(ai), ParseSucceeded(pd));
      var before := st.messages + [Message(userId, EffectiveInput(arg, st.input), User, None), ai];
      |r.messages| == |before|
      && (before[i].id == ai.id ==> r.messages[i] == before[i].(parsedData := Some(pd)))
      && (before[i].id != ai.id ==> r.messages[i] == before[i])
  {
    SubmitUnfolds(st, arg, userId, ChatReplied(ai), ParseSucceeded(pd));
  }

  /**
   The action map changes only for a parsed reply with at least one action,
   and then only at the reply's id.
   */
  lemma SubmitActionMap(st: ChatState, arg: SubmitArgument, userId: string, chat: ChatCall, parse: ParseCall)
    ensures var r := Submit(st, arg, userId, chat, parse);
      if SubmitProceeds(st, arg) && chat.ChatReplied? && parse.ParseSucceeded? && parse.data.actions != [] then
        r.messageActions == st.messageActions[chat.reply.id := MessageActions(chat.reply.id, parse.data.actions)]
      else
        r.messageActions == st.messageActions
  {
    if SubmitProceeds(st, arg) {
      SubmitUnfolds(st, arg, userId, chat, parse);
      match chat {
        case ChatFailed =>
        case ChatReplied(ai) =>
          match parse {
            case ParseFailed =>
            case ParseSucceeded(pd) =>
          }
      }
    }
  }

  /**
   Errors after a submit: the send failure under `general` alone, the parse
   failure under the reply's id alone, and none when both calls succeed.
   */
  lemma SubmitErrors(st: ChatState, arg: SubmitArgument, userId: string, chat: ChatCall, parse: ParseCall)
    requires SubmitProceeds(st, arg)
    ensures var r := Submit(st, arg, userId, chat, parse);
      && (chat.ChatFailed? ==> r.errors == map[GeneralErrorKey := SendFailure])
      && (chat.ChatReplied? && parse.ParseFailed? ==> r.errors == map[chat.reply.id := ParseFailure])
      && (chat.ChatReplied? && parse.ParseSucceeded? ==> r.errors == map[])
      && |r.errors| <= 1
  {
    if SubmitProceeds(st, arg) {
      SubmitUnfolds(st, arg, userId, chat, parse);
      match chat {
        case ChatFailed =>
        case ChatReplied(ai) =>
          match parse {
            case ParseFailed =>
            case ParseSucceeded(pd) =>
          }
      }
    }
  }

  /**
   The `general` key is written by a failed chat call, and by a failed parse
   only when the reply's own id happens to be the string `general`.
   */
  lemma GeneralKeyOnlyForSendFailure(st: ChatState, arg: SubmitArgument, userId: string, chat: ChatCall, parse: ParseCall)
    requires SubmitProceeds(st, arg)
    ensures GeneralErrorKey in Submit(st, arg, userId, chat, parse).errors <==>
      chat.ChatFailed? || (parse.ParseFailed? && chat.reply.id == GeneralErrorKey)
  {
    if SubmitProceeds(st, arg) {
      SubmitUnfolds(st, arg, userId, chat, parse);
      match chat {
        case ChatFailed =>
        case ChatReplied(ai) =>
          match parse {
            case ParseFailed =>
            case ParseSucceeded(pd) =>
          }
      }
    }
  }

  /**
   A reply that arrives without parsed data shows the parsing indicator
   until a parse succeeds; after a failed parse it keeps showing it.
   */
  lemma ParseOutcomeDecidesIndicator(st: ChatState, arg: SubmitArgument, userId: string, ai: Message, parse: ParseCall)
    requires SubmitProceeds(st, arg)
    requires ai.role == Assistant && ai.id != GreetingId && ai.parsedData.None?
    ensures var r := Submit(st, arg, userId, ChatReplied(ai), parse);
      IsParsing(r.messages[|r.messages| - 1]) <==> parse.ParseFailed?
  {
    SubmitUnfolds(st, arg, userId, ChatReplied(ai), parse);
    match parse {
      case ParseFailed =>
      case ParseSucceeded(pd) =>
    }
  }

  /**
   The indicator after a submit: never on the user's own line, and on the
   reply exactly when the reply would show it on arrival and the parse
   failed.
   */
  lemma IndicatorAfterSubmit(st: ChatState, arg: SubmitArgument, userId: string, chat: ChatCall, parse: ParseCall)
    requires SubmitProceeds(st, arg)
    ensures var r := Submit(st, arg, userId, chat, parse);
      && !IsParsing(r.messages[|st.messages|])
      && (chat.ChatReplied? ==> (IsParsing(r.messages[|st.messages| + 1]) <==> parse.ParseFailed? && IsParsing(chat.reply)))
  {
    SubmitUnfolds(st, arg, userId, chat, parse);
    match chat {
      case ChatFailed =>
      case ChatReplied(ai) =>
        match parse {
          case ParseFailed =>
          case ParseSucceeded(pd) =>
        }
    }
  }

  // ---------------------------------------------------------------------------
  // Action clicks

  /** `handleActionClick`'s decoding: a leading `suggest:` is removed, any other string is kept. */
  function DecodeClick(click: string): (r: string)
    ensures StartsWith(click, SuggestPrefix) ==> r == click[|SuggestPrefix|..]
    ensures !StartsWith(click, SuggestPrefix) ==> r == click
  {
    if StartsWith(click, SuggestPrefix) then
      ReplacePrefix(click, SuggestPrefix);
      ReplaceFirst(click, SuggestPrefix, "")
    else click
  }

  /** Decoding changes a click string exactly when it starts with `suggest:`. */
  lemma DecodeChangesOnlySuggestions(click: string)
    ensures DecodeClick(click) == click <==> !StartsWith(click, SuggestPrefix)
  {
    if StartsWith(click, SuggestPrefix) {
      assert |DecodeClick(click)| < |click|;
    }
  }

  /**
   Decoding undoes the encoding: a suggestion chip submits its item, a
   confirm or cancel button its own string, a button its `action` unless
   that itself begins with `suggest:`.
   */
  lemma {:induction false} ClickRoundTrip(a: Action, i: nat)
    requires i < |ClickStrings(a)|
    ensures a.Suggestions? ==> DecodeClick(ClickStrings(a)[i]) == a.items[i]
    ensures a.Confirm? ==> DecodeClick(ClickStrings(a)[i]) == ClickStrings(a)[i]
    ensures a.Button? && !StartsWith(a.action, SuggestPrefix) ==> DecodeClick(ClickStrings(a)[i]) == a.action
  {
    var c := ClickStrings(a)[i];
    match a
    case Suggestions(items) =>
      assert c == SuggestPrefix + items[i];
      assert c[..|SuggestPrefix|] == SuggestPrefix;
      assert c[|SuggestPrefix|..] == items[i];
    case Confirm(title, _, _, _) =>
      assert c[0] != SuggestPrefix[0];
    case Button(_, _, _) =>
  }

  /** `handleActionClick`: the decoded string is submitted as the argument. */
  function ActionClick(st: ChatState, click: string, userId: string, chat: ChatCall, parse: ParseCall): (r: ChatState)
    ensures StartsWith(click, SuggestPrefix) ==> r == Submit(st, Text(click[|SuggestPrefix|..]), userId, chat, parse)
    ensures !StartsWith(click, SuggestPrefix) ==> r == Submit(st, Text(click), userId, chat, parse)
  {
    Submit(st, Text(DecodeClick(click)), userId, chat, parse)
  }

  /** Clicking a suggestion chip sends its item as the user message. */
  lemma SuggestionClickSendsItem(st: ChatState, items: seq<string>, j: nat, userId: string, chat: ChatCall, parse: ParseCall)
    requires j < |items| && items[j] != ""
    requires SubmitProceeds(st, Text(items[j]))
    ensures var r := ActionClick(st, ClickStrings(Suggestions(items))[j], userId, chat, parse);
      r.messages[|st.messages|].content == items[j] && r.messages[|st.messages|].role == User
  {
    var click := ClickStrings(Suggestions(items))[j];
    ClickRoundTrip(Suggestions(items), j);
    assert DecodeClick(click) == items[j];
    assert ActionClick(st, click, userId, chat, parse) == Submit(st, Text(items[j]), userId, chat, parse);
    SubmitUserLine(st, Text(items[j]), userId, chat, parse);
  }

  /** The user line a submit appends carries the submitted text. */
  lemma SubmitUserLine(st: ChatState, arg: SubmitArgument, userId: string, chat: ChatCall, parse: ParseCall)
    requires SubmitProceeds(st, arg)
    ensures var r := Submit(st, arg, userId, chat, parse);
      r.messages[|st.messages|].content == EffectiveInput(arg, st.input) && r.messages[|st.messages|].role == User
  {
    var r := Submit(st, arg, userId, chat, parse);
    assert r.messages[|st.messages|].(parsedData := None) == Message(userId, EffectiveInput(arg, st.input), User, None);
  }

  /**
   A chip whose item is empty decodes to the empty string, which is falsy,
   so the click submits whatever is in the input field instead.
   */
  lemma EmptySuggestionSubmitsInputField(st: ChatState, userId: string, chat: ChatCall, parse: ParseCall)
    ensures ActionClick(st, ClickStrings(Suggestions([""]))[0], userId, chat, parse)
         == Submit(st, NoArgument, userId, chat, parse)
  {
    ClickRoundTrip(Suggestions([""]), 0);
  }

  // ---------------------------------------------------------------------------
  // The send button, as written and as intended

  /**
   `handleSubmit` as written: when the picked value is not a string, `.trim()`
   throws before any state is set, and the state stays as it was.
   */
  function SubmitAsWritten(st: ChatState, arg: SubmitArgument, userId: string, chat: ChatCall, parse: ParseCall): (r: ChatState)
    ensures arg.ClickEvent? ==> r == st
    ensures !arg.ClickEvent? ==> r == Submit(st, arg, userId, chat, parse)
  {
    match EffectiveInputAsWritten(arg, st.input)
    case None => st
    case Some(_) => Submit(st, arg, userId, chat, parse)
  }

  /**
   As written, the send button does nothing even with text typed and no
   request loading, while the Enter key submits that same text.
   */
  lemma SendButtonIgnoredAsWritten(st: ChatState, userId: string, chat: ChatCall, parse: ParseCall)
    requires !IsBlank(st.input) && !st.isLoading
    ensures SubmitAsWritten(st, ClickEvent, userId, chat, parse) == st
    ensures SubmitAsWritten(st, NoArgument, userId, chat, parse) != st
  {
    SubmitIgnoredIff(st, NoArgument, userId, chat, parse);
  }

  /** Corrected: the send button submits the input field, exactly as the Enter key does. */
  lemma SendButtonMatchesEnterKey(st: ChatState, userId: string, chat: ChatCall, parse: ParseCall)
    ensures Submit(st, ClickEvent, userId, chat, parse) == Submit(st, NoArgument, userId, chat, parse)
    ensures !IsBlank(st.input) && !st.isLoading ==> Submit(st, ClickEvent, userId, chat, parse) != st
  {
    SubmitIgnoredIff(st, ClickEvent, userId, chat, parse);
  }

  // ---------------------------------------------------------------------------
  // Invariants over a session

  /** One call of either handler, with the outcomes it meets. */
  datatype Event =
    | SubmitEvent(arg: SubmitArgument, userId: string, chat: ChatCall, parse: ParseCall)
    | ClickEventOf(click: string, clickUserId: string, clickChat: ChatCall, clickParse: ParseCall)

  function Step(st: ChatState, e: Event): ChatState {
    match e
    case SubmitEvent(arg, userId, chat, parse) => Submit(st, arg, userId, chat, parse)
    case ClickEventOf(click, userId, chat, parse) => ActionClick(st, click, userId, chat, parse)
  }

  function Run(st: ChatState, events: seq<Event>): ChatState
    decreases |events|
  {
    if events == [] then st else Run(Step(st, events[0]), events[1..])
  }

  /** Some message of the transcript carries `id`. */
  predicate HasMessage(ms: seq<Message>, id: string) {
    exists i :: 0 <= i < |ms| && ms[i].id == id
  }

  /**
   The session invariant: every action record is filed under its own
   message id, which a message of the transcript carries; every error other
   than the general one is keyed by such an id; nothing is loading between
   handler calls; and the first message is the assistant's, under id `1`.
   Its text is kept as well: see RunKeepsFirstMessage.
   */
  predicate Consistent(st: ChatState) {
    && (forall k | k in st.messageActions :: st.messageActions[k].messageId == k)
    && (forall k | k in st.messageActions :: HasMessage(st.messages, k))
    && (forall k | k in st.errors && k != GeneralErrorKey :: HasMessage(st.messages, k))
    && !st.isLoading
    && |st.messages| >= 1
    && st.messages[0].id == GreetingId && st.messages[0].role == Assistant
  }

  lemma InitialConsistent()
    ensures Consistent(InitialState())
    ensures forall i :: 0 <= i < |InitialState().messages| ==> !IsParsing(InitialState().messages[i])
  {
    assert InitialState().messages[0].id == GreetingId;
  }

  /** A message id carried before a submit is still carried after it. */
  lemma SubmitKeepsIds(st: ChatState, arg: SubmitArgument, userId: string, chat: ChatCall, parse: ParseCall, id: string)
    requires SubmitProceeds(st, arg) && HasMessage(st.messages, id)
    ensures HasMessage(Submit(st, arg, userId, chat, parse).messages, id)
  {
    var i :| 0 <= i < |st.messages| && st.messages[i].id == id;
    SubmitKeepsEarlierMessages(st, arg, userId, chat, parse, i);
    var r := Submit(st, arg, userId, chat, parse);
    assert r.messages[i].id == id;
  }

  /** After a submit, every action record and every non-general error belongs to a message of the transcript. */
  lemma SubmitKeepsOwned(st: ChatState, arg: SubmitArgument, userId: string, chat: ChatCall, parse: ParseCall)
    requires SubmitProceeds(st, arg)
    requires forall k | k in st.messageActions :: HasMessage(st.messages, k)
    ensures var r := Submit(st, arg, userId, chat, parse);
      && (forall k | k in r.messageActions :: HasMessage(r.messages, k))
      && (forall k | k in r.errors && k != GeneralErrorKey :: HasMessage(r.messages, k))
  {
    var r := Submit(st, arg, userId, chat, parse);
    SubmitActionMap(st, arg, userId, chat, parse);
    SubmitErrors(st, arg, userId, chat, parse);
    if chat.ChatReplied? {
      assert r.messages[|st.messages| + 1].id == chat.reply.id;
      assert HasMessage(r.messages, chat.reply.id);
    }
    forall k | k in r.messageActions
      ensures HasMessage(r.messages, k)
    {
      if k in st.messageActions {
        SubmitKeepsIds(st, arg, userId, chat, parse, k);
      }
    }
  }

  lemma SubmitPreservesConsistent(st: ChatState, arg: SubmitArgument, userId: string, chat: ChatCall, parse: ParseCall)
    requires Consistent(st)
    ensures Consistent(Submit(st, arg, userId, chat, parse))
  {
    if SubmitProceeds(st, arg) {
      var r := Submit(st, arg, userId, chat, parse);
      SubmitKeepsEarlierMessages(st, arg, userId, chat, parse, 0);
      assert r.messages[0].id == st.messages[0].id && r.messages[0].role == st.messages[0].role;
      SubmitKeepsRecordIds(st, arg, userId, chat, parse);
      SubmitKeepsOwned(st, arg, userId, chat, parse);
    }
  }

  /** A submit files every action record it keeps or writes under that record's own message id. */
  lemma SubmitKeepsRecordIds(st: ChatState, arg: SubmitArgument, userId: string, chat: ChatCall, parse: ParseCall)
    requires forall k | k in st.messageActions :: st.messageActions[k].messageId == k
    ensures var r := Submit(st, arg, userId, chat, parse);
      forall k | k in r.messageActions :: r.messageActions[k].messageId == k
  {
    SubmitActionMap(st, arg, userId, chat, parse);
  }

  lemma StepPreservesConsistent(st: ChatState, e: Event)
    requires Consistent(st)
    ensures Consistent(Step(st, e))
  {
    match e
    case SubmitEvent(arg, userId, chat, parse) =>
      SubmitPreservesConsistent(st, arg, userId, chat, parse);
    case ClickEventOf(click, userId, chat, parse) =>
      SubmitPreservesConsistent(st, Text(DecodeClick(click)), userId, chat, parse);
  }

  /** Every state a session reaches from the initial one is consistent. */
  lemma {:induction false} RunPreservesConsistent(st: ChatState, events: seq<Event>)
    requires Consistent(st)
    ensures Consistent(Run(st, events))
    decreases |events|
  {
    if events != [] {
      StepPreservesConsistent(st, events[0]);
      RunPreservesConsistent(Step(st, events[0]), events[1..]);
    }
  }

  /** One handler call keeps the first message, apart from parsed data attached by id. */
  lemma StepKeepsFirstMessage(st: ChatState, e: Event)
    requires |st.messages| >= 1
    ensures |Step(st, e).messages| >= 1
    ensures Step(st, e).messages[0].(parsedData := None) == st.messages[0].(parsedData := None)
  {
    match e
    case SubmitEvent(arg, userId, chat, parse) =>
      if SubmitProceeds(st, arg) {
        SubmitKeepsEarlierMessages(st, arg, userId, chat, parse, 0);
      }
    case ClickEventOf(click, userId, chat, parse) =>
      var arg := Text(DecodeClick(click));
      assert Step(st, e) == Submit(st, arg, userId, chat, parse);
      if SubmitProceeds(st, arg) {
        SubmitKeepsEarlierMessages(st, arg, userId, chat, parse, 0);
      }
  }

  /** No handler ever changes the first message, apart from parsed data attached by id. */
  lemma {:induction false} RunKeepsFirstMessage(st: ChatState, events: seq<Event>)
    requires |st.messages| >= 1
    ensures |Run(st, events).messages| >= 1
    ensures Run(st, events).messages[0].(parsedData := None) == st.messages[0].(parsedData := None)
    decreases |events|
  {
    if events != [] {
      var next := Step(st, events[0]);
      StepKeepsFirstMessage(st, events[0]);
      RunKeepsFirstMessage(next, events[1..]);
    }
  }

  /** In every session the greeting stays first, with its text unchanged. */
  lemma SessionKeepsGreeting(events: seq<Event>)
    ensures |Run(InitialState(), events).messages| >= 1
    ensures Run(InitialState(), events).messages[0].(parsedData := None) == Message(GreetingId, Greeting, Assistant, None)
  {
    RunKeepsFirstMessage(InitialState(), events);
  }
}
