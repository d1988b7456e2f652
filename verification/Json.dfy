/**
 * JSON values and the accessors of `nlohmann::json` that the codecs use, with the exception each
 * one raises. Parsing and printing text is not modelled: documents are values.
 */
module Json {
  import opened Wrappers

  datatype Json =
    | JNull
    | JBool(b: bool)
    | JInt(i: int)
    | JFloat(r: real)
    | JString(s: string)
    | JArray(items: seq<Json>)
    | JObject(fields: map<string, Json>)

  datatype JsonError = TypeError | OutOfRange

  const INT32_LIMIT: int := 0x8000_0000

  type int32 = n: int | -INT32_LIMIT <= n < INT32_LIMIT

  /** `j[key] = value`; indexing a null value turns it into an object. */
  function Put(j: Json, key: string, value: Json): Json {
    if j.JObject? then JObject(j.fields[key := value]) else JObject(map[key := value])
  }

  predicate Contains(j: Json, key: string) {
    j.JObject? && key in j.fields
  }

  /** `j.at(key)`. */
  function At(j: Json, key: string): Result<Json, JsonError> {
    if !j.JObject? then Failure(TypeError)
    else if key !in j.fields then Failure(OutOfRange)
    else Success(j.fields[key])
  }

  /** `j.value(key, fallback)` of an object; on anything else the call raises a type error. */
  function ValueOr(j: Json, key: string, fallback: Json): Json
    requires j.JObject?
  {
    if key in j.fields then j.fields[key] else fallback
  }

  function AsString(j: Json): Result<string, JsonError> {
    if j.JString? then Success(j.s) else Failure(TypeError)
  }

  function AsArray(j: Json): Result<seq<Json>, JsonError> {
    if j.JArray? then Success(j.items) else Failure(TypeError)
  }

  function AsStringMap(j: Json): Result<map<string, string>, JsonError> {
    if j.JObject? && forall k :: k in j.fields ==> j.fields[k].JString?
    then Success(map k | k in j.fields :: j.fields[k].s)
    else Failure(TypeError)
  }

  /** The nearest integer towards zero. */
  function Truncate(r: real): (t: int)
    ensures r >= 0.0 ==> t as real <= r < t as real + 1.0
    ensures r <= 0.0 ==> t as real - 1.0 < r <= t as real
  {
    if r >= 0.0 then r.Floor else -((-r).Floor)
  }

  /** `get_to` a `time_t`: any number, no boolean. */
  function AsInteger(j: Json): Result<int, JsonError> {
    match j
    case JInt(i) => Success(i)
    case JFloat(r) => Success(Truncate(r))
    case _ => Failure(TypeError)
  }

  function WrapInt32(i: int): (w: int32)
    ensures (w - i) % 0x1_0000_0000 == 0
  {
    var low := i % (2 * INT32_LIMIT);
    if low < INT32_LIMIT then low else low - 2 * INT32_LIMIT
  }

  /** `get_to` an `int`: any number, narrowed, and booleans count as numbers. */
  function AsInt32(j: Json): Result<int32, JsonError> {
    match j
    case JBool(b) => Success(if b then 1 else 0)
    case JInt(i) => Success(WrapInt32(i))
    case JFloat(r) => Success(WrapInt32(Truncate(r)))
    case _ => Failure(TypeError)
  }

  function FromStringMap(m: map<string, string>): Json {
    JObject(map k | k in m :: JString(m[k]))
  }

  lemma StringMapRoundTrip(m: map<string, string>)
    ensures AsStringMap(FromStringMap(m)) == Success(m)
  {
    var decoded := AsStringMap(FromStringMap(m)).value;
    assert forall k :: k in decoded <==> k in m;
    assert decoded == m;
  }
}
