/**
 `POST /api/execute-flow`: forwards the request to the flow-execution
 server and turns its answer into the proxy's reply. The forwarding is
 abstracted into an `Upstream` value; what is modelled is the decision on
 that value — status, body, `success` — and the extraction of the last AI
 message from the returned message list, which may hold records of two
 shapes: `{ role: "assistant", content }` and the serialised
 `{ lc: 1, type: "constructor", id: [..., "AIMessage"], kwargs: { content } }`.
 */
module ExecuteFlow {
  import opened Wrappers
  import opened Json
  import opened JsString

  const Placeholder: string := "[No AI message found]"
  const NonOkPrefix: string := "Non-OK status: "
  const UnparseableText: string := "Failed to parse JSON from external server"
  const UnknownErrorText: string := "Unknown error in proxy route"
  const FailureStatus: nat := 500

  // ---------------------------------------------------------------------------
  // Record shapes

  /** The newer record shape: a `role` that is strictly the string `assistant`. */
  predicate IsAssistantShape(m: Json) {
    Get(m, "role") == Some(Str("assistant"))
  }

  /**
   The serialised AI-message shape: `lc` is strictly the number 1, `type` is
   strictly the string `constructor`, and `id` is an array that holds the
   string `AIMessage` at some position.
   */
  predicate IsConstructorShape(m: Json) {
    && Get(m, "lc") == Some(Num(1.0))
    && Get(m, "type") == Some(Str("constructor"))
    && Get(m, "id").Some? && Get(m, "id").value.Arr?
    && Str("AIMessage") in Get(m, "id").value.elems
  }

  /**
   The shape test compares strictly: a string `"1"` for `lc` or an `id`
   that is not an array fails it, while `AIMessage` counts at any position
   of the `id` array.
   */
  lemma ConstructorShapeIsStrict(kw: Json)
    ensures var id := Arr([Str("langchain_core"), Str("messages"), Str("AIMessage")]);
      var m := map["lc" := Num(1.0), "type" := Str("constructor"), "id" := id, "kwargs" := kw];
      && IsConstructorShape(Obj(m))
      && IsConstructorShape(Obj(m["id" := Arr([Str("AIMessage")])]))
      && !IsConstructorShape(Obj(m["lc" := Str("1")]))
      && !IsConstructorShape(Obj(m["type" := Str("Constructor")]))
      && !IsConstructorShape(Obj(m["id" := Str("AIMessage")]))
      && !IsConstructorShape(Obj(m["id" := Arr([Str("HumanMessage")])]))
      && !IsConstructorShape(Obj(m - {"id"}))
  {
    var id := Arr([Str("langchain_core"), Str("messages"), Str("AIMessage")]);
    assert id.elems[2] == Str("AIMessage");
    assert Arr([Str("AIMessage")]).elems[0] == Str("AIMessage");
  }

  predicate IsAiMessage(m: Json) {
    IsAssistantShape(m) || IsConstructorShape(m)
  }

  /** A record the scan reads and moves past: neither `null` (whose `.role` throws) nor an AI message. */
  predicate PassedOver(m: Json) {
    m != Null && !IsAiMessage(m)
  }

  // ---------------------------------------------------------------------------
  // The backwards scan

  /** Where the scan stops: at an AI message, at a `null` that throws, or nowhere. */
  datatype ScanResult = FoundAt(index: nat) | NullAt(index: nat) | NotFound

  /** `r` is where a scan from the last index downward stops on `ms`. */
  predicate ScanStopsAt(ms: seq<Json>, r: ScanResult) {
    match r
    case FoundAt(k) => k < |ms| && IsAiMessage(ms[k]) && forall j | k < j < |ms| :: PassedOver(ms[j])
    case NullAt(k) => k < |ms| && ms[k] == Null && forall j | k < j < |ms| :: PassedOver(ms[j])
    case NotFound => forall j | 0 <= j < |ms| :: PassedOver(ms[j])
  }

  /** The reference definition: look at the last record, and at the rest only if it is passed over. */
  function LastAiMessage(ms: seq<Json>): (r: ScanResult)
    ensures ScanStopsAt(ms, r)
    decreases |ms|
  {
    if ms == [] then NotFound
    else
      var k := |ms| - 1;
      if ms[k] == Null then NullAt(k)
      else if IsAiMessage(ms[k]) then FoundAt(k)
      else LastAiMessage(ms[..k])
  }

  /** At most one stopping point fits a list: the highest-index record that is not passed over. */
  lemma ScanStopIsUnique(ms: seq<Json>, r: ScanResult, s: ScanResult)
    requires ScanStopsAt(ms, r) && ScanStopsAt(ms, s)
    ensures r == s
  {
  }

  /** The route's loop: from the last index down, stop at the first `null` or AI message. */
  method FindLastAiMessage(ms: seq<Json>) returns (r: ScanResult)
    ensures ScanStopsAt(ms, r)
    ensures r == LastAiMessage(ms)
  {
    var i := |ms|;
    while i > 0
      invariant 0 <= i <= |ms|
      invariant forall j | i <= j < |ms| :: PassedOver(ms[j])
      decreases i
    {
      i := i - 1;
      var m := ms[i];
      if m == Null {
        r := NullAt(i);
        ScanStopIsUnique(ms, r, LastAiMessage(ms));
        return;
      }
      if IsAssistantShape(m) || IsConstructorShape(m) {
        r := FoundAt(i);
        ScanStopIsUnique(ms, r, LastAiMessage(ms));
        return;
      }
    }
    r := NotFound;
    ScanStopIsUnique(ms, r, LastAiMessage(ms));
  }

  /**
   Position decides, not shape: an AI message with no `null` after it is
   never beaten by an earlier record, whichever of the two shapes it has.
   */
  lemma HighestIndexWins(ms: seq<Json>, k: nat)
    requires k < |ms| && IsAiMessage(ms[k])
    requires forall j | k < j < |ms| :: ms[j] != Null
    ensures LastAiMessage(ms).FoundAt? && LastAiMessage(ms).index >= k
  {
  }

  // ---------------------------------------------------------------------------
  // Content selection

  /**
   The text taken from the chosen record: `content` for the assistant shape
   (even when absent), else `kwargs.content`, with the placeholder when that
   is `null` or `undefined`.
   */
  function SelectedContent(m: Json): (r: Option<Json>)
    requires IsAiMessage(m)
    ensures IsAssistantShape(m) ==> r == Get(m, "content")
    ensures !IsAssistantShape(m) ==> r.Some? && r.value != Null
    ensures !IsAssistantShape(m) && Nullish(KwargsContent(m)) ==> r == Some(Str(Placeholder))
    ensures !IsAssistantShape(m) && !Nullish(KwargsContent(m)) ==> r == KwargsContent(m)
  {
    if IsAssistantShape(m) then Get(m, "content")
    else if Nullish(KwargsContent(m)) then Some(Str(Placeholder))
    else KwargsContent(m)
  }

  /** The `content` of the record's `kwargs`, undefined when either is missing. */
  function KwargsContent(m: Json): (r: Option<Json>)
    ensures Get(m, "kwargs").None? ==> r.None?
    ensures Get(m, "kwargs").Some? ==> r == Get(Get(m, "kwargs").value, "content")
  {
    match Get(m, "kwargs")
    case None => None
    case Some(kw) => Get(kw, "content")
  }

  /** The extracted text for a list the scan gets through: the chosen record's content, or the placeholder. */
  function LastAiContent(ms: seq<Json>): (r: Option<Json>)
    requires !LastAiMessage(ms).NullAt?
    ensures LastAiMessage(ms).NotFound? ==> r == Some(Str(Placeholder))
    ensures LastAiMessage(ms).FoundAt? ==> r == SelectedContent(ms[LastAiMessage(ms).index])
  {
    match LastAiMessage(ms)
    case NotFound => Some(Str(Placeholder))
    case FoundAt(k) => SelectedContent(ms[k])
  }

  /** `data.messages || []`, as far as the scan is concerned: the elements of an array, and nothing otherwise. */
  function MessagesOf(data: Json): (ms: seq<Json>)
    ensures !Truthy(Get(data, "messages")) ==> ms == []
    ensures Get(data, "messages").Some? && Get(data, "messages").value.Arr? ==> ms == Get(data, "messages").value.elems
  {
    match Get(data, "messages")
    case Some(Arr(xs)) => xs
    case _ => []
  }

  // ---------------------------------------------------------------------------
  // The reply

  /** What the proxy met: its own request body or the fetch threw, or the server answered. */
  datatype Upstream =
    | RequestFailed(message: Option<string>)
    | Responded(status: nat, body: BodyOutcome)

  /** `Response.ok`. */
  predicate IsOk(status: nat) {
    200 <= status <= 299
  }

  function FailureReply(error: string): (r: Reply)
    ensures r.status == FailureStatus && Get(r.body, "success") == Some(Bool(false))
    ensures Get(r.body, "error") == Some(Str(error))
  {
    Reply(FailureStatus, Obj(map["success" := Bool(false), "error" := Str(error)]))
  }

  function SuccessReply(data: Json, content: Option<Json>): (r: Reply)
    ensures r.status == DefaultStatus && Get(r.body, "success") == Some(Bool(true))
    ensures Get(r.body, "allMessages") == Get(data, "messages")
    ensures Get(r.body, "lastAiMessage") == content
  {
    Reply(DefaultStatus, Obj(map["success" := Bool(true)]
                             + OptionalField("allMessages", Get(data, "messages"))
                             + OptionalField("lastAiMessage", content)))
  }

  /**
   The handler's decision. Reading a field of `null` throws a TypeError whose
   message the outer `catch` turns into the failure reply. The message names
   the field read, so each throw site has its own: `nullBodyError` for
   `success` read on a `null` body, `nullRecordError` for `role` read on a
   `null` record met by the scan.
   */
  function Respond(up: Upstream, nullBodyError: string, nullRecordError: string): (r: Reply)
    ensures r.status == DefaultStatus || r.status == FailureStatus
    ensures r.status == DefaultStatus ==> Get(r.body, "success") == Some(Bool(true))
    ensures up.Responded? && !IsOk(up.status) ==> Get(r.body, "error").Some?
  {
    match up
    case RequestFailed(m) => FailureReply(m.GetOr(UnknownErrorText))
    case Responded(status, body) =>
      if !IsOk(status) then FailureReply(NonOkPrefix + DecimalString(status))
      else
        match body
        case Unparseable => FailureReply(UnparseableText)
        case Parsed(data) =>
          if data == Null then FailureReply(nullBodyError)
          else if !Truthy(Get(data, "success")) then Reply(FailureStatus, data)
          else if LastAiMessage(MessagesOf(data)).NullAt? then FailureReply(nullRecordError)
          else SuccessReply(data, LastAiContent(MessagesOf(data)))
  }

  /** The handler as the route runs it, with the scan done by the loop. */
  method Post(up: Upstream, nullBodyError: string, nullRecordError: string) returns (r: Reply)
    ensures r == Respond(up, nullBodyError, nullRecordError)
  {
    match up
    case RequestFailed(m) =>
      r := FailureReply(m.GetOr(UnknownErrorText));
    case Responded(status, body) =>
      if !IsOk(status) {
        r := FailureReply(NonOkPrefix + DecimalString(status));
      } else if body.Unparseable? {
        r := FailureReply(UnparseableText);
      } else if body.value == Null {
        r := FailureReply(nullBodyError);
      } else if !Truthy(Get(body.value, "success")) {
        r := Reply(FailureStatus, body.value);
      } else {
        var ms := MessagesOf(body.value);
        var found := FindLastAiMessage(ms);
        match found
        case NullAt(_) => r := FailureReply(nullRecordError);
        case NotFound => r := SuccessReply(body.value, Some(Str(Placeholder)));
        case FoundAt(k) => r := SuccessReply(body.value, SelectedContent(ms[k]));
      }
  }

  /**
   The proxy answers 200 exactly when the server answered OK with a
   parseable, non-null body whose `success` is truthy and whose message
   list the scan gets through; every other path answers 500.
   */
  lemma SuccessIff(up: Upstream, nullBodyError: string, nullRecordError: string)
    ensures var r := Respond(up, nullBodyError, nullRecordError);
      (r.status == DefaultStatus <==>
        && up.Responded? && IsOk(up.status) && up.body.Parsed? && up.body.value != Null
        && Truthy(Get(up.body.value, "success")) && !LastAiMessage(MessagesOf(up.body.value)).NullAt?)
      && (r.status != DefaultStatus ==> r.status == FailureStatus)
  {
  }

  /** A non-OK status is reported in decimal, and the number in the message is that status. */
  lemma NonOkReportsStatus(status: nat, body: BodyOutcome, nullBodyError: string, nullRecordError: string)
    requires !IsOk(status)
    ensures var r := Respond(Responded(status, body), nullBodyError, nullRecordError);
      var e := Get(r.body, "error").value.s;
      r.status == FailureStatus && Get(r.body, "error").Some? && Get(r.body, "error").value.Str?
      && e == NonOkPrefix + DecimalString(status)
      && DigitsValue(e[|NonOkPrefix|..]) == status
  {
    var e := NonOkPrefix + DecimalString(status);
    assert e[|NonOkPrefix|..] == DecimalString(status);
    DecimalRoundTrip(status);
  }

  /** A falsy `success` sends the server's body back unchanged, with status 500. */
  lemma FalsySuccessPassesThrough(status: nat, data: Json, nullBodyError: string, nullRecordError: string)
    requires IsOk(status) && data != Null && !Truthy(Get(data, "success"))
    ensures Respond(Responded(status, Parsed(data)), nullBodyError, nullRecordError) == Reply(FailureStatus, data)
  {
  }

  /**
   Every other failure answers `success: false` with the error text of its
   path: the fetch's own message or the fixed fallback, the unparseable-body
   text, or the TypeError message of its own site for a `null` body or a `null` record the
   scan reaches.
   */
  lemma FailureBodies(up: Upstream, nullBodyError: string, nullRecordError: string)
    ensures var r := Respond(up, nullBodyError, nullRecordError);
      && (up.RequestFailed? ==>
            r.status == FailureStatus && Get(r.body, "success") == Some(Bool(false))
            && Get(r.body, "error") == Some(Str(if up.message.Some? then up.message.value else UnknownErrorText)))
      && (up.Responded? && IsOk(up.status) && up.body.Unparseable? ==>
            r.status == FailureStatus && Get(r.body, "success") == Some(Bool(false))
            && Get(r.body, "error") == Some(Str(UnparseableText)))
      && (up.Responded? && IsOk(up.status) && up.body == Parsed(Null) ==>
            r.status == FailureStatus && Get(r.body, "success") == Some(Bool(false))
            && Get(r.body, "error") == Some(Str(nullBodyError)))
      && (up.Responded? && IsOk(up.status) && up.body.Parsed? && up.body.value != Null
          && Truthy(Get(up.body.value, "success")) && LastAiMessage(MessagesOf(up.body.value)).NullAt? ==>
            r.status == FailureStatus && Get(r.body, "success") == Some(Bool(false))
            && Get(r.body, "error") == Some(Str(nullRecordError)))
  {
  }

  /**
   A successful reply carries `success: true`, the server's `messages`
   untouched as `allMessages`, and the extracted text as `lastAiMessage`;
   with no `messages` field at all, that text is the placeholder.
   */
  lemma SuccessReplyContents(status: nat, data: Json, nullBodyError: string, nullRecordError: string)
    requires IsOk(status) && data != Null && Truthy(Get(data, "success"))
    requires !LastAiMessage(MessagesOf(data)).NullAt?
    ensures var r := Respond(Responded(status, Parsed(data)), nullBodyError, nullRecordError);
      && Get(r.body, "success") == Some(Bool(true))
      && Get(r.body, "allMessages") == Get(data, "messages")
      && Get(r.body, "lastAiMessage") == LastAiContent(MessagesOf(data))
      && (Get(data, "messages").None? ==> Get(r.body, "lastAiMessage") == Some(Str(Placeholder)))
  {
  }

  /** The worked cases: an assistant record, a constructor record, neither, and a later constructor after an assistant. */
  lemma ExtractionExamples()
    ensures var user := Obj(map["role" := Str("user"), "content" := Str("hi")]);
      var assistant := Obj(map["role" := Str("assistant"), "content" := Str("X")]);
      var legacy := Obj(map["lc" := Num(1.0), "type" := Str("constructor"),
                            "id" := Arr([Str("langchain_core"), Str("messages"), Str("AIMessage")]),
                            "kwargs" := Obj(map["content" := Str("Y")])]);
      && LastAiContent([user, assistant]) == Some(Str("X"))
      && LastAiContent([legacy]) == Some(Str("Y"))
      && LastAiContent([user]) == Some(Str(Placeholder))
      && LastAiContent([assistant, legacy]) == Some(Str("Y"))
  {
    var user := Obj(map["role" := Str("user"), "content" := Str("hi")]);
    var assistant := Obj(map["role" := Str("assistant"), "content" := Str("X")]);
    var legacy := Obj(map["lc" := Num(1.0), "type" := Str("constructor"),
                          "id" := Arr([Str("langchain_core"), Str("messages"), Str("AIMessage")]),
                          "kwargs" := Obj(map["content" := Str("Y")])]);
    assert IsConstructorShape(legacy) by {
      assert Get(legacy, "id").value.elems[2] == Str("AIMessage");
    }
    assert !IsAssistantShape(legacy);
    assert [user, assistant][..1] == [user];
  }
}
