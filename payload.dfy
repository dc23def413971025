/** Values that cross the gateway: JSON scalars as Python sees them, the
    outbound response and the exceptions a view can let escape. */
module Payload {
  import PyText

  datatype Option<+T> = None | Some(value: T)

  /** A JSON scalar after `json.loads`: `None`, `bool`, `int` or `str`. */
  datatype Json = JNull | JBool(b: bool) | JInt(i: int) | JStr(s: string)

  /** A JSON object after `json.loads`: a Python `dict`. */
  type Object = map<string, Json>

  /** Python truthiness, `bool(v)`. */
  predicate Truthy(v: Json)
    ensures !Truthy(v) <==> v in {JNull, JBool(false), JInt(0), JStr("")}
  {
    match v
    case JNull => false
    case JBool(b) => b
    case JInt(i) => i != 0
    case JStr(s) => s != ""
  }

  /** Python's `str(v)`, which an f-string applies to an interpolated value. */
  function Show(v: Json): (r: string)
    ensures v.JNull? ==> r == "None"
    ensures v.JBool? ==> r == (if v.b then "True" else "False")
    ensures v.JStr? ==> r == v.s
    ensures v.JInt? ==> r != [] && (r[0] == '-' <==> v.i < 0)
    ensures v.JInt? && v.i >= 0 ==> PyText.AllDigits(r) && PyText.DecimalValue(r) == v.i
    ensures v.JInt? && v.i < 0 ==> PyText.AllDigits(r[1..]) && PyText.DecimalValue(r[1..]) == -v.i
    ensures v.JInt? && v.i >= 0 ==> (r[0] == '0' ==> r == "0")
    ensures v.JInt? && v.i < 0 ==> |r| >= 2 && r[1] != '0'
  {
    match v
    case JNull => "None"
    case JBool(b) => if b then "True" else "False"
    case JInt(i) =>
      var d := PyText.Decimal(if i < 0 then -i else i);
      PyText.DecimalRoundTrip(if i < 0 then -i else i);
      if i < 0 then
        assert ("-" + d)[1..] == d;
        "-" + d
      else
        d
    case JStr(s) => s
  }

  /** Python's `d.get(key, default)`. */
  function Get(d: Object, key: string, default: Json): (v: Json)
    ensures key in d ==> v == d[key]
    ensures key !in d ==> v == default
  {
    if key in d then d[key] else default
  }

  /** A REST framework `Response(data, status=...)`. */
  datatype Response = Response(status: int, data: Object)

  /** The exceptions that propagate out of a handler: `response.json()` on
      a body that is not JSON, `.get` on JSON that is not an object, a
      failed HTTP exchange, and an error from `jwt.decode` that is not an
      `InvalidTokenError`. */
  datatype Failure = JsonDecodeError | AttributeError | ConnectionError | JwtError

  /** What calling a handler produces: a response, or an exception. */
  datatype Outcome = Respond(response: Response) | Raise(failure: Failure)

  /** A response whose body is the single key `key` holding string `text`. */
  function Single(status: int, key: string, text: string): (r: Response)
    ensures r.status == status && r.data.Keys == {key} && r.data[key] == JStr(text)
  {
    Response(status, map[key := JStr(text)])
  }
}
