/** The values `JSON.parse` produces, the exceptions the request path can
    raise, and the JSON codec, which is a parameter of the model. */
module JsonValues {
  import opened Outcomes

  datatype Json =
    | JNull
    | JBool(b: bool)
    | JNumber(n: real)
    | JString(s: string)
    | JArray(items: seq<Json>)
    | JObject(members: seq<(string, Json)>)

  /** The exceptions that reach a controller: errors thrown by the model
      client, the `SyntaxError` of `JSON.parse`, and the framework's
      `HttpException` family. A client error raised for a failed connection
      or a timeout has no HTTP status (`undefined`), and an `HttpException`
      built from it has none either. */
  datatype Failure =
    | ApiError(status: Option<int>, message: string)
    | SyntaxError(message: string)
    | HttpException(status: Option<int>, message: string)

  const BadRequest: int := 400
  const UnprocessableEntity: int := 422
  const InternalServerError: int := 500

  /** `JSON.parse` (which fails with a message) and `JSON.stringify`. */
  datatype Codec = Codec(parse: string -> Result<Json, string>, stringify: Json -> string)

  /** A value that `parse` returns for some text. */
  ghost predicate Parsed(codec: Codec, v: Json) {
    exists t :: codec.parse(t) == Ok(v)
  }

  /** The assumption, not proved of any real codec, that parsing what
      `stringify` produced gives back any value `parse` can return. It is
      restricted to such values: there are more real numbers than texts, so
      no codec round-trips every `JNumber`. */
  ghost predicate RoundTrips(codec: Codec) {
    forall t, v :: codec.parse(t) == Ok(v) ==> codec.parse(codec.stringify(v)) == Ok(v)
  }

  /** The assumption that `JSON.stringify` of a value is never the empty
      string (a string value is written with its quotes). */
  ghost predicate NeverEmpty(codec: Codec) {
    forall v :: codec.stringify(v) != ""
  }

  /** The two assumptions can be met together, by a codec that accepts only
      `null` and writes every value as `null`, and a non-string value can
      then be parsed. */
  lemma AssumptionsSatisfiable()
    ensures exists codec :: RoundTrips(codec) && NeverEmpty(codec) && Parsed(codec, JNull)
  {
    var codec := Codec(t => if t == "null" then Ok(JNull) else Err("unexpected token"), v => "null");
    assert codec.parse("null") == Ok(JNull);
    assert RoundTrips(codec);
    assert NeverEmpty(codec);
    assert Parsed(codec, JNull);
  }

  /** `JSON.parse(text)`, with a parse failure thrown as a `SyntaxError`. */
  function ParseJson(codec: Codec, text: string): (r: Result<Json, Failure>)
    ensures r.Err? <==> codec.parse(text).Err?
    ensures r.Err? ==> r.error == SyntaxError(codec.parse(text).error)
    ensures r.Ok? ==> r.value == codec.parse(text).value
    ensures r.Ok? ==> Parsed(codec, r.value)
  {
    match codec.parse(text)
    case Ok(v) => Ok(v)
    case Err(m) => Err(SyntaxError(m))
  }
}
