/**
 The values `JSON.parse` can produce, the way JavaScript code reads fields
 out of them, and the shape of a route handler's reply.

 An object is a map from keys to values: key order plays no part in any
 decision the modelled code takes, and a field that `JSON.stringify` drops
 because its value is `undefined` is simply a key that is absent.
 */
module Json {
  import opened Wrappers

  datatype Json =
    | Null
    | Bool(b: bool)
    | Num(n: real)
    | Str(s: string)
    | Arr(elems: seq<Json>)
    | Obj(fields: map<string, Json>)

  /** What `Request.json()` or `Response.json()` resolves to: a value, or a rejection. */
  datatype BodyOutcome = Unparseable | Parsed(value: Json)

  /** A `NextResponse.json(body, { status })` reply. */
  datatype Reply = Reply(status: nat, body: Json)

  /** The status `NextResponse.json` uses when none is given. */
  const DefaultStatus: nat := 200

  /**
   Reading `v.key` on a non-null value: an object's own field, and
   `undefined` (None) for every other kind of value. Reading a field of
   `null` throws instead; callers that can meet `null` test for it first.
   */
  function Get(v: Json, key: string): (r: Option<Json>)
    ensures r.Some? <==> v.Obj? && key in v.fields
    ensures r.Some? ==> r.value == v.fields[key]
  {
    if v.Obj? && key in v.fields then Some(v.fields[key]) else None
  }

  /** JavaScript truthiness of a possibly-undefined JSON value. */
  predicate Truthy(v: Option<Json>) {
    match v
    case None => false
    case Some(Null) => false
    case Some(Bool(b)) => b
    case Some(Num(n)) => n != 0.0
    case Some(Str(s)) => s != ""
    case Some(Arr(_)) => true
    case Some(Obj(_)) => true
  }

  /** `null` or `undefined`: the values `??` and `?.` give up on. */
  predicate Nullish(v: Option<Json>) {
    v.None? || v.value.Null?
  }

  /** A single-field map when the value is defined, the empty map when it is `undefined`. */
  function OptionalField(key: string, v: Option<Json>): (m: map<string, Json>)
    ensures key in m <==> v.Some?
    ensures m.Keys <= {key}
    ensures v.Some? ==> m[key] == v.value
  {
    match v
    case Some(x) => map[key := x]
    case None => map[]
  }

  /** A JSON array of strings. */
  function StrArr(xs: seq<string>): (r: Json)
    ensures r.Arr? && |r.elems| == |xs|
    ensures forall i :: 0 <= i < |xs| ==> r.elems[i] == Str(xs[i])
  {
    if xs == [] then Arr([]) else Arr([Str(xs[0])] + StrArr(xs[1..]).elems)
  }

  /** The strings of an array all of whose elements are strings; None as soon as one is not. */
  function StringsOf(elems: seq<Json>): (r: Option<seq<string>>)
    ensures r.Some? <==> forall i :: 0 <= i < |elems| ==> elems[i].Str?
    ensures r.Some? ==> |r.value| == |elems| && forall i :: 0 <= i < |elems| ==> elems[i] == Str(r.value[i])
  {
    if elems == [] then Some([])
    else if !elems[0].Str? then None
    else
      match StringsOf(elems[1..])
      case None => None
      case Some(rest) => Some([elems[0].s] + rest)
  }

  lemma {:induction false} StringsRoundTrip(xs: seq<string>)
    ensures StringsOf(StrArr(xs).elems) == Some(xs)
  {
    var r := StringsOf(StrArr(xs).elems);
    assert r.Some?;
    assert r.value == xs;
  }
}
