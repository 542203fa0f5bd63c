/**
 * The web-platform values the routes and hooks exchange: JSON values with
 * JavaScript truthiness, multipart form entries, HTTP replies and the
 * result of a `fetch`.
 */
module Http {
  import opened Wrappers
  import opened Text

  /** A JSON value (numbers are integral in this model). */
  datatype Json =
    | JNull
    | JBool(b: bool)
    | JNum(n: int)
    | JStr(s: string)
    | JArr(items: seq<Json>)
    | JObj(fields: map<string, Json>)

  /** A parsed JSON object body, the shape every route and backend exchanges. */
  type Object = map<string, Json>

  /** JavaScript truthiness of a JSON value. */
  predicate Truthy(j: Json) {
    match j
    case JNull => false
    case JBool(b) => b
    case JNum(n) => n != 0
    case JStr(s) => s != ""
    case JArr(_) => true
    case JObj(_) => true
  }

  /** `String(j)`, as `new Error(j)` makes a message of it. */
  function JsString(j: Json): string
    decreases j, 1
  {
    match j
    case JNull => "null"
    case JBool(b) => if b then "true" else "false"
    case JNum(n) => IntString(n)
    case JStr(s) => s
    case JArr(items) => JoinItems(j, items)
    case JObj(_) => "[object Object]"
  }

  /** `Array.prototype.join(",")`, where `null` elements print as nothing. */
  function JoinItems(ghost parent: Json, items: seq<Json>): string
    requires forall k :: 0 <= k < |items| ==> items[k] < parent
    decreases parent, 0, |items|
  {
    if items == [] then ""
    else
      (if items[0].JNull? then "" else JsString(items[0])) +
      (if |items| == 1 then "" else "," + JoinItems(parent, items[1..]))
  }

  /** `!!obj[key]`: a missing key reads as `undefined`, which is falsy. */
  predicate FieldTruthy(obj: Object, key: string) {
    key in obj && Truthy(obj[key])
  }

  /** A request or response body as `request.json()` / `response.json()` sees it. */
  datatype JsonBody = Parsed(fields: Object) | Malformed(message: string)

  /** A value of a multipart form entry: text or an uploaded file. */
  datatype FormValue = Text(s: string) | File(name: string, mimeType: string, bytes: seq<bv8>)

  type Entry = (string, FormValue)

  /** `formData.get(name)`: the first value under `name`, if any. */
  function FormGet(entries: seq<Entry>, name: string): (r: Option<FormValue>)
    ensures r.Some? <==> exists i :: 0 <= i < |entries| && entries[i].0 == name
  {
    if entries == [] then None
    else if entries[0].0 == name then Some(entries[0].1)
    else FormGet(entries[1..], name)
  }

  /** `formData.getAll(name)`: every value under `name`, in order. */
  function FormGetAll(entries: seq<Entry>, name: string): (r: seq<FormValue>)
    ensures |r| <= |entries|
  {
    if entries == [] then []
    else (if entries[0].0 == name then [entries[0].1] else []) + FormGetAll(entries[1..], name)
  }

  /** `getAll` distributes over appended entries. */
  lemma {:induction false} FormGetAllAppend(a: seq<Entry>, b: seq<Entry>, name: string)
    ensures FormGetAll(a + b, name) == FormGetAll(a, name) + FormGetAll(b, name)
  {
    if a == [] {
      assert a + b == b;
    } else {
      var head := if a[0].0 == name then [a[0].1] else [];
      assert (a + b)[0] == a[0];
      assert (a + b)[1..] == a[1..] + b;
      assert FormGetAll(a + b, name) == head + FormGetAll(a[1..] + b, name);
      FormGetAllAppend(a[1..], b, name);
      assert FormGetAll(a, name) == head + FormGetAll(a[1..], name);
    }
  }

  /** JavaScript truthiness of a form value: a file is an object, hence truthy. */
  predicate FormTruthy(v: FormValue) {
    match v
    case Text(s) => s != ""
    case File(_, _, _) => true
  }

  /** `!!formData.get(name)`. */
  predicate Present(entries: seq<Entry>, name: string) {
    var v := FormGet(entries, name);
    v.Some? && FormTruthy(v.value)
  }

  /** `value.toString()`: a file object prints as "[object File]". */
  function FormText(v: FormValue): string {
    match v
    case Text(s) => s
    case File(_, _, _) => "[object File]"
  }

  /** What `request.formData()` yields: the entries, or the message of the error it throws. */
  datatype FormBody = Entries(entries: seq<Entry>) | Unreadable(message: string)

  /** A query string: `searchParams.get(name)` is the first value under a name. */
  type Query = map<string, string>

  /** `searchParams.get(key)` is truthy: present and not empty. */
  predicate Given(params: Query, key: string) {
    key in params && params[key] != ""
  }

  /** An HTTP reply with a JSON object body. */
  datatype Reply = Reply(status: int, body: Object)

  /** `response.ok`. */
  predicate IsOk(status: int) {
    200 <= status <= 299
  }

  /** The statuses `fetch` can hand back as a response. */
  type FetchStatus = s: int | 200 <= s <= 599 witness 200

  /** A response received from `fetch`: its status, its text and what `json()` makes of it. */
  datatype Response = Response(status: FetchStatus, text: string, json: JsonBody)

  /** One `fetch` call: a response, or the message of the error it threw. */
  datatype Fetched = Received(response: Response) | NetworkError(message: string)

  /** `getErrorResponse(message, status)` of lib/api-utils.ts. */
  function ErrorResponse(message: string, status: int): (r: Reply)
    ensures r.status == status
    ensures "success" in r.body && r.body["success"] == JBool(false)
    ensures "error" in r.body && r.body["error"] == JStr(message)
  {
    Reply(status, map["success" := JBool(false), "error" := JStr(message)])
  }
}
