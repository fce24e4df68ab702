/** Parsed JSON as the CMIP6 reader sees it, Python's `in`, `[]` and str() on it, and the JsonInfo field readers. */
module JsonData {
  import opened Outcomes
  import opened Text

  /** A JSON value of a CMOR table: a text, a list of texts, or an object. */
  datatype Json = Str(s: string) | List(items: seq<string>) | Object(fields: map<string, Json>)

  /** Python's `key in value`: a key of an object, a substring of a text, an element of a list. */
  predicate Contains(j: Json, key: string): (b: bool)
    ensures j.Object? ==> (b <==> Index(j, key).Ok?)
  {
    match j
    case Object(m) => key in m
    case Str(s) => IsSubstring(key, s)
    case List(xs) => key in xs
  }

  /** Python's `value[key]` with a string key: only an object can be indexed so. */
  function Index(j: Json, key: string): (r: Result<Json>)
    ensures r.Ok? <==> j.Object? && key in j.fields
  {
    match j
    case Object(m) => if key in m then Ok(m[key]) else Err(MissingKey(key))
    case _ => Err(WrongShape(key))
  }

  /** Python's repr of a text inside a list display (quote escaping is not modelled). */
  function Quoted(xs: seq<string>): (r: seq<string>)
    ensures |r| == |xs|
  {
    if xs == [] then [] else ["'" + xs[0] + "'"] + Quoted(xs[1..])
  }

  /** Python's str() of a field value; the rendering of a nested object is not modelled. */
  function Render(j: Json, key: string): (r: Result<string>)
    ensures r.Ok? <==> !j.Object?
    ensures j.Str? ==> r == Ok(j.s)
  {
    match j
    case Str(s) => Ok(s)
    case List(xs) => Ok("[" + Join(Quoted(xs), ", ") + "]")
    case Object(_) => Err(UnrenderedObject(key))
  }

  /**
   * JsonInfo._read_json_variable: a field read as text, "" when the record does not hold it.
   */
  function ReadJsonVariable(data: Json, parameter: string): (r: Result<string>)
    ensures !Contains(data, parameter) ==> r == Ok("")
    ensures data.Object? && parameter in data.fields && data.fields[parameter].Str? ==> r == Ok(data.fields[parameter].s)
    ensures Contains(data, parameter) && !data.Object? ==> r.Err?
  {
    if !Contains(data, parameter) then Ok("")
    else
      var v :- Index(data, parameter);
      Render(v, parameter)
  }

  /**
   * JsonInfo._read_json_list_variable: a field's raw value, the empty list when the record does not hold it.
   */
  function ReadJsonListVariable(data: Json, parameter: string): (r: Result<Json>)
    ensures !Contains(data, parameter) ==> r == Ok(List([]))
    ensures data.Object? && parameter in data.fields ==> r == Ok(data.fields[parameter])
    ensures Contains(data, parameter) && !data.Object? ==> r.Err?
  {
    if !Contains(data, parameter) then Ok(List([])) else Index(data, parameter)
  }
}
