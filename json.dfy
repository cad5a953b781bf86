/** JSON bodies as the Express handlers send them and the browser parses them.
    A key whose value is `undefined` is dropped by `JSON.stringify`, so it is simply
    absent from the map. Timestamps are carried as numbers. */
module Json {
  import opened Wrappers

  datatype Json = JStr(s: string) | JNum(n: int) | JBool(b: bool) | JArr(items: seq<Json>) | JObj(fields: map<string, Json>)

  type Object = map<string, Json>

  /** `res.status(status).json(body)`; `res.json(body)` is status 200. */
  datatype HttpResponse = HttpResponse(status: int, body: Object)

  /** `response.ok` in the browser: a 2xx status. */
  predicate ResponseOk(r: HttpResponse) {
    200 <= r.status <= 299
  }

  /** The `{ error: message }` body every failure path sends. */
  function ErrorResponse(status: int, message: string): (r: HttpResponse)
    ensures r.status == status && r.body.Keys == {"error"} && r.body["error"] == JStr(message)
  {
    HttpResponse(status, map["error" := JStr(message)])
  }

  /** Reading a string-valued property: `obj.key` when it holds a string, else `undefined`. */
  function StringField(obj: Object, key: string): (r: Option<string>)
    ensures r.Some? <==> key in obj && obj[key].JStr?
    ensures r.Some? ==> obj[key] == JStr(r.value)
  {
    if key in obj && obj[key].JStr? then Some(obj[key].s) else None
  }

  function Strings(xs: seq<string>): (r: seq<Json>)
    ensures |r| == |xs| && forall k :: 0 <= k < |xs| ==> r[k] == JStr(xs[k])
  {
    seq(|xs|, k requires 0 <= k < |xs| => JStr(xs[k]))
  }
}
