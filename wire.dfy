/**
 * The loosely typed side of the locality directory: JSON values as JavaScript
 * sees them, the record adapter `normalizeRecord`, `unwrapData`, and the
 * shaping of a directory response into a list of records (`callAusPost`
 * after the fetch).
 */
module Wire {
  import opened Wrappers
  import opened Text

  /**
   * A JavaScript value as produced by `JSON.parse`, plus `undefined` for a
   * missing property. A number is kept as its canonical `String(n)` text
   * ("3000", "-37.81", "NaN"); the type does not enforce that the text is one
   * `String` can produce, so statements over `Js` also range over texts such
   * as "0.0" or "abc" that no number has.
   */
  datatype Js =
    | Undefined
    | Null
    | Bool(b: bool)
    | Num(text: string)
    | Str(s: string)
    | Arr(items: seq<Js>)
    | Obj(fields: map<string, Js>)

  /** What a `throw` delivers to a `catch`: an `Error` with its message, or any other value. */
  datatype Thrown = ErrorObject(message: string) | OtherValue

  /** One answer of the directory: the parsed body (whatever the HTTP status), or a thrown error. */
  datatype Fetch = Body(json: Js) | Threw(thrown: Thrown)

  /**
   * The locality directory at the moment of one request, asked with a search
   * term and a state filter. Two requests are two `Directory` values, so they
   * may answer differently even for the same terms.
   */
  type Directory = (string, string) -> Fetch

  /** A record after `normalizeRecord`. */
  datatype Locality = Locality(
    postcode: Js,            // a truthy value, or null
    location: string,
    state: string,
    latitude: Option<Js>,    // absent when the wire value is falsy
    longitude: Option<Js>)

  predicate Nullish(v: Js) { v.Undefined? || v.Null? }

  /** JavaScript truthiness. */
  predicate Truthy(v: Js) {
    match v
    case Undefined => false
    case Null => false
    case Bool(b) => b
    case Num(t) => t != "0" && t != "NaN"
    case Str(s) => s != ""
    case Arr(_) => true
    case Obj(_) => true
  }

  /** `a || b`. */
  function Or(a: Js, b: Js): Js {
    if Truthy(a) then a else b
  }

  /** Property access `o.key`; on null or undefined it throws, so callers must exclude them. */
  function Get(o: Js, key: string): Js
    requires !Nullish(o)
  {
    if o.Obj? && key in o.fields then o.fields[key] else Undefined
  }

  /** Optional chaining `v?.key`. */
  function Member(v: Js, key: string): Js {
    if Nullish(v) then Undefined else Get(v, key)
  }

  /** `String(v)`, which is also `v.toString()` for non-nullish values. */
  function ToStr(v: Js): string
    decreases v
  {
    match v
    case Undefined => "undefined"
    case Null => "null"
    case Bool(b) => if b then "true" else "false"
    case Num(t) => t
    case Str(s) => s
    case Arr(items) =>
      Join(seq(|items|, i requires 0 <= i < |items| =>
             if Nullish(items[i]) then "" else ToStr(items[i])), ',')
    case Obj(_) => "[object Object]"
  }

  /** unwrapData: a response wrapped as `{ data: ... }` is unwrapped once. */
  function UnwrapData(raw: Js): (r: Js)
    ensures raw.Obj? && "data" in raw.fields ==> r == raw.fields["data"]
    ensures !(raw.Obj? && "data" in raw.fields) ==> r == raw
  {
    if Truthy(raw) && raw.Obj? && "data" in raw.fields then raw.fields["data"] else raw
  }

  /** normalizeRecord: adapts one wire record. */
  function NormalizeRecord(x: Js): (r: Locality)
    requires !Nullish(x)
    ensures NoLower(r.location) && NoLower(r.state)
    ensures Truthy(Get(x, "postcode")) ==> r.postcode == Get(x, "postcode")
    ensures !Truthy(Get(x, "postcode")) && Truthy(Get(x, "postal_code")) ==> r.postcode == Get(x, "postal_code")
    ensures r.postcode == Null <==> !Truthy(Get(x, "postcode")) && !Truthy(Get(x, "postal_code"))
    ensures r.latitude.Some? <==> Truthy(Get(x, "latitude"))
    ensures r.longitude.Some? <==> Truthy(Get(x, "longitude"))
    ensures r.latitude.Some? ==> r.latitude.value == Get(x, "latitude")
    ensures r.longitude.Some? ==> r.longitude.value == Get(x, "longitude")
    ensures Truthy(Get(x, "suburb")) ==> r.location == UpperStr(ToStr(Get(x, "suburb")))
    ensures !Truthy(Get(x, "suburb")) && Truthy(Get(x, "location")) ==>
      r.location == UpperStr(ToStr(Get(x, "location")))
    ensures !Truthy(Get(x, "suburb")) && !Truthy(Get(x, "location")) ==> r.location == ""
    ensures Truthy(Get(x, "state")) ==> r.state == UpperStr(ToStr(Get(x, "state")))
    ensures !Truthy(Get(x, "state")) ==> r.state == ""
  {
    Locality(
      Or(Or(Get(x, "postcode"), Get(x, "postal_code")), Null),
      UpperStr(ToStr(Or(Or(Get(x, "suburb"), Get(x, "location")), Str("")))),
      UpperStr(ToStr(Or(Get(x, "state"), Str("")))),
      if Truthy(Get(x, "latitude")) then Some(Get(x, "latitude")) else None,
      if Truthy(Get(x, "longitude")) then Some(Get(x, "longitude")) else None)
  }

  /** The TypeError `normalizeRecord` throws when a list element is null or undefined. */
  function ReadPostcodeError(x: Js): Thrown {
    ErrorObject("Cannot read properties of " + ToStr(x) + " (reading 'postcode')")
  }

  /** `rawlist.map(normalizeRecord)`: the first nullish element throws. */
  function NormalizeAll(xs: seq<Js>): (r: Result<seq<Locality>, Thrown>)
    ensures r.Ok? <==> forall i :: 0 <= i < |xs| ==> !Nullish(xs[i])
    ensures r.Ok? ==> |r.value| == |xs|
    ensures r.Ok? ==> forall i :: 0 <= i < |xs| ==> r.value[i] == NormalizeRecord(xs[i])
    ensures r.Err? ==> exists i :: 0 <= i < |xs| && Nullish(xs[i]) && r.error == ReadPostcodeError(xs[i])
                                   && forall j :: 0 <= j < i ==> !Nullish(xs[j])
  {
    if xs == [] then Ok([])
    else if Nullish(xs[0]) then Err(ReadPostcodeError(xs[0]))
    else
      match NormalizeAll(xs[1..])
      case Err(e) =>
        assert forall i :: 1 <= i < |xs| ==> xs[i] == xs[1..][i - 1];
        Err(e)
      case Ok(rest) =>
        assert forall i :: 1 <= i < |xs| ==> xs[i] == xs[1..][i - 1];
        Ok([NormalizeRecord(xs[0])] + rest)
  }

  /** `data?.localities?.locality`. */
  function LocalityPayload(data: Js): (r: Js)
    ensures !data.Obj? || "localities" !in data.fields ==> r == Undefined
    ensures data.Obj? && "localities" in data.fields ==>
      var l := data.fields["localities"];
      r == (if l.Obj? && "locality" in l.fields then l.fields["locality"] else Undefined)
  {
    Member(Member(data, "localities"), "locality")
  }

  /** `Array.isArray(loc) ? loc : (loc ? [loc] : [])`. */
  function AsList(loc: Js): (r: seq<Js>)
    ensures loc.Arr? ==> r == loc.items
    ensures !loc.Arr? && Truthy(loc) ==> r == [loc]
    ensures !Truthy(loc) ==> r == []
  {
    if loc.Arr? then loc.items else if Truthy(loc) then [loc] else []
  }

  /** The part of callAusPost after `resp.json()`: from the parsed body to the record list. */
  function ShapeResponse(raw: Js): (r: Result<seq<Locality>, Thrown>)
    ensures !Truthy(LocalityPayload(UnwrapData(raw))) ==> r == Ok([])
    ensures r.Err? ==> LocalityPayload(UnwrapData(raw)).Arr? && r.error.ErrorObject?
    ensures r.Ok? ==> forall i :: 0 <= i < |r.value| ==> NoLower(r.value[i].location) && NoLower(r.value[i].state)
  {
    NormalizeAll(AsList(LocalityPayload(UnwrapData(raw))))
  }

  /** callAusPost: one directory request; `resp.ok` is never consulted. */
  function CallAusPost(dir: Directory, q: string, state: string): (r: Result<seq<Locality>, Thrown>)
    ensures dir(q, state).Threw? ==> r == Err(dir(q, state).thrown)
    ensures dir(q, state).Body? ==> r.Ok? || r.error.ErrorObject?
    ensures dir(q, state).Body? ==> r == ShapeResponse(dir(q, state).json)
  {
    match dir(q, state)
    case Threw(e) => Err(e)
    case Body(raw) => ShapeResponse(raw)
  }

  /** A directory request as the resolver sees it: a record list, or what was thrown. */
  type Lookup = (string, string) -> Result<seq<Locality>, Thrown>

  /** The resolver's lookup when the directory is reached through callAusPost. */
  function AusPostLookup(dir: Directory): Lookup {
    (q: string, state: string) => CallAusPost(dir, q, state)
  }

  /** The body `{ localities: { locality: loc } }`. */
  function Envelope(loc: Js): Js {
    Obj(map["localities" := Obj(map["locality" := loc])])
  }

  /** A body wrapped in `{ data: ... }` shapes like the body itself. */
  lemma DataWrapperIsTransparent(body: Js)
    requires !(body.Obj? && "data" in body.fields)
    ensures ShapeResponse(Obj(map["data" := body])) == ShapeResponse(body)
  {
  }

  /** A single locality object shapes exactly like a one-element list holding it. */
  lemma SingleObjectIsOneElementList(o: Js)
    requires o.Obj?
    ensures ShapeResponse(Envelope(o)) == ShapeResponse(Envelope(Arr([o])))
    ensures ShapeResponse(Envelope(o)) == Ok([NormalizeRecord(o)])
  {
    assert LocalityPayload(Envelope(o)) == o;
    assert LocalityPayload(Envelope(Arr([o]))) == Arr([o]);
    var r := NormalizeAll([o]);
    assert r.Ok? && |r.value| == 1 && r.value[0] == NormalizeRecord(o);
    assert r.value == [NormalizeRecord(o)];
  }

  /** An array payload yields one record per element, in order, when none is null. */
  lemma ListPayloadKeepsOrder(items: seq<Js>)
    requires forall i :: 0 <= i < |items| ==> !Nullish(items[i])
    ensures ShapeResponse(Envelope(Arr(items))).Ok?
    ensures |ShapeResponse(Envelope(Arr(items))).value| == |items|
    ensures forall i :: 0 <= i < |items| ==>
      ShapeResponse(Envelope(Arr(items))).value[i] == NormalizeRecord(items[i])
  {
  }

  /**
   * A body with no `data` and no `localities` key (an error body served with
   * a failing HTTP status, say) shapes to the empty list rather than failing.
   */
  lemma BodyWithoutLocalitiesIsEmpty(fields: map<string, Js>)
    requires "data" !in fields && "localities" !in fields
    ensures ShapeResponse(Obj(fields)) == Ok([])
  {
  }

  /** A wire latitude of numeric zero is dropped. */
  lemma ZeroLatitudeIsDropped(x: Js)
    requires x.Obj? && "latitude" in x.fields && x.fields["latitude"] == Num("0")
    ensures NormalizeRecord(x).latitude == None
  {
  }
}
