/**
 `POST /api/parse`: the mock action parser. It ignores the message text and
 answers every message id with the same three actions, after a fixed delay
 that plays no part here.
 */
module ParseRoute {
  import opened Wrappers
  import opened Json
  import opened ChatTypes
  import opened ChatActions

  const MockSuggestions: seq<string> := ["Try another approach", "Show me alternatives", "Explain more"]

  /** The actions every reply carries, in reply order. */
  const MockActions: seq<Action> := [
    Button("Proceed", "proceed", Some(Primary)),
    Button("Cancel", "cancel", Some(Destructive)),
    Suggestions(MockSuggestions)
  ]

  const ErrorStatus: nat := 500
  const ParseErrorText: string := "Failed to parse message"

  /** The reply to any request whose handling throws. */
  const ErrorReply: Reply := Reply(ErrorStatus, Obj(map["error" := Str(ParseErrorText)]))

  /** The typed result for a message: its own id, and the fixed actions whatever the content. */
  function MockParse(content: string, messageId: string): (r: MessageActions)
    ensures r.messageId == messageId
    ensures r.actions == MockActions
  {
    MessageActions(messageId, MockActions)
  }

  /**
   The handler. Reading the body can reject, and destructuring
   `{ content, messageId }` out of `null` throws; both give the error reply.
   Any other value is answered, its `messageId` echoed when it has one.
   */
  function Post(request: BodyOutcome): (r: Reply)
    ensures r.status == DefaultStatus <==> request.Parsed? && request.value != Null
    ensures r.status != DefaultStatus ==> r == ErrorReply
    ensures r.status == DefaultStatus ==> r.body.Obj? && Get(r.body, "messageId") == Get(request.value, "messageId")
    ensures r.status == DefaultStatus ==>
      Get(r.body, "actions") == Some(ActionsToJson(MockActions)) && r.body.fields.Keys <= {"messageId", "actions"}
  {
    match request
    case Unparseable => ErrorReply
    case Parsed(v) =>
      if v == Null then ErrorReply
      else Reply(DefaultStatus, Obj(map["actions" := ActionsToJson(MockActions)] + OptionalField("messageId", Get(v, "messageId"))))
  }

  /**
   For a request naming a string `messageId`, the reply body decodes as a
   `MessageActions` for that id, with the fixed actions, whatever the content.
   */
  lemma PostAnswersMockParse(v: Json, id: string, content: string)
    requires v.Obj? && Get(v, "messageId") == Some(Str(id))
    ensures MessageActionsFromJson(Post(Parsed(v)).body) == Some(MockParse(content, id))
  {
    var body := Post(Parsed(v)).body;
    var expected := MessageActionsToJson(MockParse(content, id));
    assert body.fields.Keys == expected.fields.Keys;
    assert body == expected;
    MessageActionsRoundTrip(MockParse(content, id));
  }

  /** Two requests with the same `messageId` get the same reply: the content is never read. */
  lemma ContentIgnored(v: Json, w: Json)
    requires v != Null && w != Null && Get(v, "messageId") == Get(w, "messageId")
    ensures Post(Parsed(v)) == Post(Parsed(w))
  {
  }

  /**
   The fixed actions: a primary `proceed` button, a destructive `cancel`
   button, then one suggestions action of three items (within the four the
   parsing prompt allows), so the action bar offers exactly these clicks.
   */
  lemma MockActionsClicks()
    ensures Render(MockActions) == [["proceed"], ["cancel"],
      [SuggestPrefix + "Try another approach", SuggestPrefix + "Show me alternatives", SuggestPrefix + "Explain more"]]
    ensures forall i | 0 <= i < |MockActions| && MockActions[i].Suggestions? :: |MockActions[i].items| <= 4
  {
    var r := Render(MockActions);
    var s := ClickStrings(Suggestions(MockSuggestions));
    assert r[0] == ["proceed"] && r[1] == ["cancel"] && r[2] == s;
    assert |s| == 3 && s[0] == SuggestPrefix + "Try another approach";
    assert s[1] == SuggestPrefix + "Show me alternatives" && s[2] == SuggestPrefix + "Explain more";
    assert s == [s[0], s[1], s[2]];
    assert r == [r[0], r[1], r[2]];
  }

  /**
   The client stores this route's reply as the message's `parsedData`, but a
   `MessageActions` object is not a `ParsedMessageData`: it has no `type`
   and carries a `messageId` the latter does not declare.
   */
  lemma ReplyIsNotParsedData(ma: MessageActions)
    ensures ParsedFromJson(MessageActionsToJson(ma)) == None
  {
    assert "messageId" !in ParsedKeys;
  }
}
