/** The decoded body of a provider response, as the Python values that
    `response.json()` returns, and the two ways the normaliser touches them:
    subscripting with a string key and iterating. */
module Json {
  import opened Results

  datatype Json =
    | Null
    | Bool(b: bool)
    | Number(n: real)
    | Str(s: string)
    | Array(items: seq<Json>)
    | Object(fields: map<string, Json>)

  /** `j[key]` for a string key: a dictionary yields the value or raises
      KeyError; subscripting anything else with a string raises TypeError. */
  function Subscript(j: Json, key: string): (r: Result<Json>)
    ensures r.Success? <==> j.Object? && key in j.fields
    ensures r.Success? ==> r.value == j.fields[key]
    ensures j.Object? && key !in j.fields ==> r == Failure(KeyError(key))
    ensures !j.Object? ==> r == Failure(TypeError)
  {
    match j
    case Object(fields) => if key in fields then Success(fields[key]) else Failure(KeyError(key))
    case _ => Failure(TypeError)
  }

  /** `for x in j: x["time"]`: a list yields its items. Iterating a dictionary
      or a string yields strings, and the first `x["time"]` on one raises
      TypeError, so only an empty one gets through; any other value is not
      iterable. */
  function SlicesOf(j: Json): (r: Result<seq<Json>>)
    ensures r.Success? <==> j.Array? || j == Object(map[]) || j == Str("")
    ensures j.Array? ==> r == Success(j.items)
    ensures r.Success? && !j.Array? ==> r.value == []
  {
    match j
    case Array(items) => Success(items)
    case Object(fields) => if fields == map[] then Success([]) else Failure(TypeError)
    case Str(s) => if s == "" then Success([]) else Failure(TypeError)
    case _ => Failure(TypeError)
  }
}
