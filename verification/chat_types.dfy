/**
 The chat data model — messages, the three-way action union, parsed
 message data and the per-message action record — and the JSON shape each
 takes on the wire between the API routes and the chat client.

 The decoders read a value exactly as its TypeScript interface declares it:
 every declared field present with the declared type (optional fields may be
 absent), a string-literal tag one of the declared literals, and no field the
 interface does not declare.
 */
module ChatTypes {
  import opened Wrappers
  import opened Json

  datatype Role = User | Assistant

  datatype MessageType = Standard | Transfer | Sentiment

  datatype ButtonVariant = Default | Primary | Destructive

  /**
   The action union; the constructor is the `type` tag and fixes which fields
   exist. A button's `caption` is its `label` field (`label` is a Dafny keyword).
   */
  datatype Action =
    | Button(caption: string, action: string, variant: Option<ButtonVariant>)
    | Confirm(title: string, description: string, confirmLabel: string, cancelLabel: string)
    | Suggestions(items: seq<string>)

  /** What the parse step attaches to an assistant message; `actions` is always present. */
  datatype ParsedMessageData = ParsedMessageData(
    kind: MessageType,
    content: Option<string>,
    fromToken: Option<string>,
    toToken: Option<string>,
    amount: Option<string>,
    topic: Option<string>,
    sentimentLevel: Option<real>,
    actions: seq<Action>)

  datatype Message = Message(id: string, content: string, role: Role, parsedData: Option<ParsedMessageData>)

  /** One message id paired with one action sequence. */
  datatype MessageActions = MessageActions(messageId: string, actions: seq<Action>)

  // ---------------------------------------------------------------------------
  // String-literal tags

  function RoleName(r: Role): string {
    match r
    case User => "user"
    case Assistant => "assistant"
  }

  function RoleFromName(s: string): (r: Option<Role>)
    ensures r.Some? ==> RoleName(r.value) == s
  {
    if s == "user" then Some(User)
    else if s == "assistant" then Some(Assistant)
    else None
  }

  /** A wire role is exactly one of the two names, and each name denotes its own role. */
  lemma RoleNames(s: string, r: Role)
    ensures RoleFromName(s) == Some(r) <==> s == RoleName(r)
  {
  }

  function MessageTypeName(t: MessageType): string {
    match t
    case Standard => "standard"
    case Transfer => "transfer"
    case Sentiment => "sentiment"
  }

  function MessageTypeFromName(s: string): (r: Option<MessageType>)
    ensures r.Some? ==> MessageTypeName(r.value) == s
  {
    if s == "standard" then Some(Standard)
    else if s == "transfer" then Some(Transfer)
    else if s == "sentiment" then Some(Sentiment)
    else None
  }

  /** `MessageType` has exactly the three names `standard`, `transfer` and `sentiment`. */
  lemma MessageTypeNames(s: string, t: MessageType)
    ensures MessageTypeFromName(s) == Some(t) <==> s == MessageTypeName(t)
    ensures MessageTypeFromName(s).Some? <==> s in {"standard", "transfer", "sentiment"}
  {
  }

  function VariantName(v: ButtonVariant): string {
    match v
    case Default => "default"
    case Primary => "primary"
    case Destructive => "destructive"
  }

  function VariantFromName(s: string): (r: Option<ButtonVariant>)
    ensures r.Some? ==> VariantName(r.value) == s
  {
    if s == "default" then Some(Default)
    else if s == "primary" then Some(Primary)
    else if s == "destructive" then Some(Destructive)
    else None
  }

  /** A button variant on the wire is one of `default`, `primary`, `destructive`, and nothing else. */
  lemma VariantNames(s: string, v: ButtonVariant)
    ensures VariantFromName(s) == Some(v) <==> s == VariantName(v)
    ensures VariantFromName(s).Some? <==> s in {"default", "primary", "destructive"}
  {
  }

  // ---------------------------------------------------------------------------
  // Field access on decoded objects

  /** The string held under `key`, if there is one. */
  function StrAt(f: map<string, Json>, key: string): Option<string> {
    if key in f && f[key].Str? then Some(f[key].s) else None
  }

  /** An optional string field is well-typed: absent, or a string. */
  predicate OptStrOk(f: map<string, Json>, key: string) {
    key !in f || f[key].Str?
  }

  function OptStr(v: Option<string>): Option<Json> {
    match v
    case Some(s) => Some(Str(s))
    case None => None
  }

  function OptNum(v: Option<real>): Option<Json> {
    match v
    case Some(n) => Some(Num(n))
    case None => None
  }

  // ---------------------------------------------------------------------------
  // Actions

  const ButtonKeys: set<string> := {"type", "label", "action", "variant"}
  const ConfirmKeys: set<string> := {"type", "title", "description", "confirmLabel", "cancelLabel"}
  const SuggestionsKeys: set<string> := {"type", "items"}

  /** The fields an action's JSON object carries. */
  function ActionFields(a: Action): set<string> {
    match a
    case Button(_, _, v) => if v.Some? then ButtonKeys else ButtonKeys - {"variant"}
    case Confirm(_, _, _, _) => ConfirmKeys
    case Suggestions(_) => SuggestionsKeys
  }

  function VariantJson(v: Option<ButtonVariant>): Option<Json> {
    match v
    case Some(x) => Some(Str(VariantName(x)))
    case None => None
  }

  function ActionToJson(a: Action): (j: Json)
    ensures j.Obj? && j.fields.Keys == ActionFields(a)
  {
    match a
    case Button(caption, action, variant) =>
      Obj(map["type" := Str("button"), "label" := Str(caption), "action" := Str(action)]
          + OptionalField("variant", VariantJson(variant)))
    case Confirm(title, description, confirmLabel, cancelLabel) =>
      Obj(map["type" := Str("confirm"), "title" := Str(title), "description" := Str(description),
              "confirmLabel" := Str(confirmLabel), "cancelLabel" := Str(cancelLabel)])
    case Suggestions(items) =>
      Obj(map["type" := Str("suggestions"), "items" := StrArr(items)])
  }

  function ButtonFromFields(f: map<string, Json>): Option<Action> {
    if !(f.Keys <= ButtonKeys) || StrAt(f, "label").None? || StrAt(f, "action").None? then None
    else if "variant" !in f then Some(Button(StrAt(f, "label").value, StrAt(f, "action").value, None))
    else if !f["variant"].Str? || VariantFromName(f["variant"].s).None? then None
    else Some(Button(StrAt(f, "label").value, StrAt(f, "action").value, VariantFromName(f["variant"].s)))
  }

  function ConfirmFromFields(f: map<string, Json>): Option<Action> {
    if f.Keys != ConfirmKeys || StrAt(f, "title").None? || StrAt(f, "description").None?
       || StrAt(f, "confirmLabel").None? || StrAt(f, "cancelLabel").None? then None
    else Some(Confirm(StrAt(f, "title").value, StrAt(f, "description").value,
                      StrAt(f, "confirmLabel").value, StrAt(f, "cancelLabel").value))
  }

  function SuggestionsFromFields(f: map<string, Json>): Option<Action> {
    if f.Keys != SuggestionsKeys || !f["items"].Arr? then None
    else
      match StringsOf(f["items"].elems)
      case None => None
      case Some(items) => Some(Suggestions(items))
  }

  /** Reads one action; the `type` tag selects the variant whose fields must then be present. */
  function ActionFromJson(j: Json): (r: Option<Action>)
    ensures r.Some? ==> j.Obj? && "type" in j.fields && j.fields["type"].Str?
    ensures r.Some? && r.value.Button? ==> j.fields["type"].s == "button"
    ensures r.Some? && r.value.Confirm? ==> j.fields["type"].s == "confirm"
    ensures r.Some? && r.value.Suggestions? ==> j.fields["type"].s == "suggestions"
  {
    if !j.Obj? || StrAt(j.fields, "type").None? then None
    else
      var tag := StrAt(j.fields, "type").value;
      if tag == "button" then ButtonFromFields(j.fields)
      else if tag == "confirm" then ConfirmFromFields(j.fields)
      else if tag == "suggestions" then SuggestionsFromFields(j.fields)
      else None
  }

  lemma ActionRoundTrip(a: Action)
    ensures ActionFromJson(ActionToJson(a)) == Some(a)
  {
    var f := ActionToJson(a).fields;
    match a
    case Button(caption, action, variant) =>
      assert StrAt(f, "type") == Some("button");
      if variant.Some? {
        assert f["variant"] == Str(VariantName(variant.value));
        VariantNames(VariantName(variant.value), variant.value);
      }
    case Confirm(_, _, _, _) =>
      assert StrAt(f, "type") == Some("confirm");
    case Suggestions(items) =>
      assert StrAt(f, "type") == Some("suggestions");
      StringsRoundTrip(items);
  }

  /**
   Decoding is the exact inverse of encoding: an object decodes to an action
   only if it is that action's encoding, so the tag determines the field set.
   */
  lemma {:induction false} ActionDecodeExact(j: Json, a: Action)
    requires ActionFromJson(j) == Some(a)
    ensures j == ActionToJson(a)
    ensures j.fields.Keys == ActionFields(a)
  {
    var f := j.fields;
    var g := ActionToJson(a).fields;
    match a
    case Button(caption, action, variant) =>
      if variant.Some? {
        VariantNames(f["variant"].s, variant.value);
      }
      assert f.Keys == g.Keys;
      assert forall k | k in f :: f[k] == g[k];
    case Confirm(_, _, _, _) =>
      assert f.Keys == g.Keys;
      assert forall k | k in f :: f[k] == g[k];
    case Suggestions(items) =>
      assert f["items"].elems == StrArr(items).elems;
      assert f.Keys == g.Keys;
      assert forall k | k in f :: f[k] == g[k];
  }

  function ActionsToJson(acts: seq<Action>): (j: Json)
    ensures j.Arr? && |j.elems| == |acts|
    ensures forall i :: 0 <= i < |acts| ==> j.elems[i] == ActionToJson(acts[i])
  {
    if acts == [] then Arr([]) else Arr([ActionToJson(acts[0])] + ActionsToJson(acts[1..]).elems)
  }

  /** Reads an action list: every element must be a well-formed action. */
  function ActionsFromJson(elems: seq<Json>): (r: Option<seq<Action>>)
    ensures r.Some? <==> forall i :: 0 <= i < |elems| ==> ActionFromJson(elems[i]).Some?
    ensures r.Some? ==> |r.value| == |elems|
    ensures r.Some? ==> forall i :: 0 <= i < |elems| ==> ActionFromJson(elems[i]) == Some(r.value[i])
  {
    if elems == [] then Some([])
    else
      match ActionFromJson(elems[0])
      case None => None
      case Some(a) =>
        match ActionsFromJson(elems[1..])
        case None => None
        case Some(rest) => Some([a] + rest)
  }

  lemma {:induction false} ActionsRoundTrip(acts: seq<Action>)
    ensures ActionsFromJson(ActionsToJson(acts).elems) == Some(acts)
  {
    var elems := ActionsToJson(acts).elems;
    forall i | 0 <= i < |acts|
      ensures ActionFromJson(elems[i]) == Some(acts[i])
    {
      ActionRoundTrip(acts[i]);
    }
    var r := ActionsFromJson(elems);
    assert r.value == acts;
  }

  lemma {:induction false} ActionsDecodeExact(j: Json, acts: seq<Action>)
    requires j.Arr? && ActionsFromJson(j.elems) == Some(acts)
    ensures j == ActionsToJson(acts)
  {
    forall i | 0 <= i < |acts|
      ensures j.elems[i] == ActionToJson(acts[i])
    {
      ActionDecodeExact(j.elems[i], acts[i]);
    }
    assert j.elems == ActionsToJson(acts).elems;
  }

  // ---------------------------------------------------------------------------
  // MessageActions

  const MessageActionsKeys: set<string> := {"messageId", "actions"}

  function MessageActionsToJson(ma: MessageActions): (j: Json)
    ensures j.Obj? && j.fields.Keys == MessageActionsKeys
  {
    Obj(map["messageId" := Str(ma.messageId), "actions" := ActionsToJson(ma.actions)])
  }

  /** Reads a `MessageActions` object: exactly a string `messageId` and an `actions` array, nothing else. */
  function MessageActionsFromJson(j: Json): (r: Option<MessageActions>)
    ensures r.Some? ==> j.Obj? && j.fields.Keys == MessageActionsKeys
    ensures r.Some? ==> j.fields["messageId"] == Str(r.value.messageId)
    ensures r.Some? ==> j.fields["actions"].Arr? && ActionsFromJson(j.fields["actions"].elems) == Some(r.value.actions)
  {
    if !j.Obj? || j.fields.Keys != MessageActionsKeys || StrAt(j.fields, "messageId").None?
       || !j.fields["actions"].Arr? then None
    else
      match ActionsFromJson(j.fields["actions"].elems)
      case None => None
      case Some(acts) => Some(MessageActions(StrAt(j.fields, "messageId").value, acts))
  }

  lemma MessageActionsRoundTrip(ma: MessageActions)
    ensures MessageActionsFromJson(MessageActionsToJson(ma)) == Some(ma)
  {
    ActionsRoundTrip(ma.actions);
  }

  /** A `MessageActions` object is exactly one message id and one action sequence. */
  lemma MessageActionsDecodeExact(j: Json, ma: MessageActions)
    requires MessageActionsFromJson(j) == Some(ma)
    ensures j == MessageActionsToJson(ma)
  {
    var f := j.fields;
    var g := MessageActionsToJson(ma).fields;
    ActionsDecodeExact(f["actions"], ma.actions);
    assert forall k | k in f :: f[k] == g[k];
  }

  // ---------------------------------------------------------------------------
  // ParsedMessageData

  const ParsedKeys: set<string> :=
    {"type", "content", "fromToken", "toToken", "amount", "topic", "sentimentLevel", "actions"}

  /** The value a parsed-data object holds under `key`, or `undefined`. */
  function ParsedField(p: ParsedMessageData, key: string): Option<Json> {
    if key == "type" then Some(Str(MessageTypeName(p.kind)))
    else if key == "actions" then Some(ActionsToJson(p.actions))
    else if key == "content" then OptStr(p.content)
    else if key == "fromToken" then OptStr(p.fromToken)
    else if key == "toToken" then OptStr(p.toToken)
    else if key == "amount" then OptStr(p.amount)
    else if key == "topic" then OptStr(p.topic)
    else if key == "sentimentLevel" then OptNum(p.sentimentLevel)
    else None
  }

  /** The fields of a parsed-data object: every declared field whose value is defined. */
  function ParsedFields(p: ParsedMessageData): (f: map<string, Json>)
    ensures f.Keys <= ParsedKeys
    ensures "type" in f && f["type"] == Str(MessageTypeName(p.kind))
    ensures "actions" in f && f["actions"] == ActionsToJson(p.actions)
    ensures StrAt(f, "content") == p.content && OptStrOk(f, "content")
    ensures StrAt(f, "fromToken") == p.fromToken && OptStrOk(f, "fromToken")
    ensures StrAt(f, "toToken") == p.toToken && OptStrOk(f, "toToken")
    ensures StrAt(f, "amount") == p.amount && OptStrOk(f, "amount")
    ensures StrAt(f, "topic") == p.topic && OptStrOk(f, "topic")
    ensures "sentimentLevel" in f <==> p.sentimentLevel.Some?
    ensures p.sentimentLevel.Some? ==> f["sentimentLevel"] == Num(p.sentimentLevel.value)
  {
    map k | k in ParsedKeys && ParsedField(p, k).Some? :: ParsedField(p, k).value
  }

  function ParsedToJson(p: ParsedMessageData): (j: Json)
    ensures j.Obj? && "type" in j.fields && "actions" in j.fields && j.fields.Keys <= ParsedKeys
  {
    Obj(ParsedFields(p))
  }

  /** Reads parsed message data; an object without an `actions` array is rejected. */
  function ParsedFromJson(j: Json): (r: Option<ParsedMessageData>)
    ensures r.Some? ==> j.Obj? && "actions" in j.fields && j.fields["actions"].Arr?
    ensures r.Some? ==> ActionsFromJson(j.fields["actions"].elems) == Some(r.value.actions)
  {
    if !j.Obj? then None
    else
      var f := j.fields;
      if !(f.Keys <= ParsedKeys) || StrAt(f, "type").None? || MessageTypeFromName(StrAt(f, "type").value).None?
         || "actions" !in f || !f["actions"].Arr? || ActionsFromJson(f["actions"].elems).None?
         || !OptStrOk(f, "content") || !OptStrOk(f, "fromToken") || !OptStrOk(f, "toToken")
         || !OptStrOk(f, "amount") || !OptStrOk(f, "topic")
         || ("sentimentLevel" in f && !f["sentimentLevel"].Num?)
      then None
      else
        Some(ParsedMessageData(
          MessageTypeFromName(StrAt(f, "type").value).value,
          StrAt(f, "content"), StrAt(f, "fromToken"), StrAt(f, "toToken"),
          StrAt(f, "amount"), StrAt(f, "topic"),
          if "sentimentLevel" in f then Some(f["sentimentLevel"].n) else None,
          ActionsFromJson(f["actions"].elems).value))
  }

  lemma ParsedRoundTrip(p: ParsedMessageData)
    ensures ParsedFromJson(ParsedToJson(p)) == Some(p)
  {
    MessageTypeNames(MessageTypeName(p.kind), p.kind);
    ActionsRoundTrip(p.actions);
  }

  /**
   The converse of the round trip: an object accepted as parsed data is
   exactly that data's encoding, so no undeclared or mistyped field slips
   through the decoder.
   */
  lemma ParsedDecodeExact(j: Json, p: ParsedMessageData)
    requires ParsedFromJson(j) == Some(p)
    ensures j == ParsedToJson(p)
  {
    ParsedFromJsonReads(j);
    MessageTypeNames(StrAt(j.fields, "type").value, p.kind);
    ActionsDecodeExact(j.fields["actions"], p.actions);
    FieldsDetermineEncoding(j.fields, p);
  }

  /** `f` holds exactly the defined fields of `p`, each as `p` encodes it. */
  predicate HoldsFieldsOf(f: map<string, Json>, p: ParsedMessageData) {
    && f.Keys <= ParsedKeys
    && "type" in f && f["type"] == Str(MessageTypeName(p.kind))
    && "actions" in f && f["actions"] == ActionsToJson(p.actions)
    && OptStrOk(f, "content") && p.content == StrAt(f, "content")
    && OptStrOk(f, "fromToken") && p.fromToken == StrAt(f, "fromToken")
    && OptStrOk(f, "toToken") && p.toToken == StrAt(f, "toToken")
    && OptStrOk(f, "amount") && p.amount == StrAt(f, "amount")
    && OptStrOk(f, "topic") && p.topic == StrAt(f, "topic")
    && ("sentimentLevel" in f <==> p.sentimentLevel.Some?)
    && ("sentimentLevel" in f ==> f["sentimentLevel"] == Num(p.sentimentLevel.value))
  }

  /** Such an object is `p`'s encoding. */
  lemma FieldsDetermineEncoding(f: map<string, Json>, p: ParsedMessageData)
    requires HoldsFieldsOf(f, p)
    ensures f == ParsedFields(p)
  {
    var g := ParsedFields(p);
    forall k
      ensures (k in f <==> k in g) && (k in f ==> f[k] == g[k])
    {
      ParsedFieldsAt(p, k);
      FieldAt(f, p, k);
    }
    assert f.Keys == g.Keys;
  }

  /** One key of such an object: present exactly when declared and defined for `p`, with that value. */
  lemma FieldAt(f: map<string, Json>, p: ParsedMessageData, key: string)
    requires HoldsFieldsOf(f, p)
    ensures key in f <==> key in ParsedKeys && ParsedField(p, key).Some?
    ensures key in f ==> f[key] == ParsedField(p, key).value
  {
    if key == "type" || key == "actions" || key == "sentimentLevel" {
    } else if key == "content" {
      assert OptStrOk(f, key) && StrAt(f, key) == p.content;
    } else if key == "fromToken" {
      assert OptStrOk(f, key) && StrAt(f, key) == p.fromToken;
    } else if key == "toToken" {
      assert OptStrOk(f, key) && StrAt(f, key) == p.toToken;
    } else if key == "amount" {
      assert OptStrOk(f, key) && StrAt(f, key) == p.amount;
    } else if key == "topic" {
      assert OptStrOk(f, key) && StrAt(f, key) == p.topic;
    } else {
      assert key !in ParsedKeys;
    }
  }

  /** The encoding holds `key` exactly when `key` is declared and defined for `p`, with that value. */
  lemma ParsedFieldsAt(p: ParsedMessageData, key: string)
    ensures key in ParsedFields(p) <==> key in ParsedKeys && ParsedField(p, key).Some?
    ensures key in ParsedFields(p) ==> ParsedFields(p)[key] == ParsedField(p, key).value
  {
  }

  /** What an accepted parsed-data object says about each field of the decoded value. */
  lemma ParsedFromJsonReads(j: Json)
    requires ParsedFromJson(j).Some?
    ensures var f, p := j.fields, ParsedFromJson(j).value;
      && f.Keys <= ParsedKeys && "type" in f && "actions" in f
      && MessageTypeFromName(StrAt(f, "type").value) == Some(p.kind)
      && OptStrOk(f, "content") && p.content == StrAt(f, "content")
      && OptStrOk(f, "fromToken") && p.fromToken == StrAt(f, "fromToken")
      && OptStrOk(f, "toToken") && p.toToken == StrAt(f, "toToken")
      && OptStrOk(f, "amount") && p.amount == StrAt(f, "amount")
      && OptStrOk(f, "topic") && p.topic == StrAt(f, "topic")
      && ("sentimentLevel" in f <==> p.sentimentLevel.Some?)
      && ("sentimentLevel" in f ==> f["sentimentLevel"] == Num(p.sentimentLevel.value))
  {
  }
}
