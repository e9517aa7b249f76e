/**
 * The thin client for the PostgREST back end: filter values such as `eq.5`
 * and `in.(a,b)`, query strings built from parameter objects, and the
 * request each helper sends (method, body, Prefer header) together with how
 * a response is turned into a result or an error.
 */
module Postgrest {
  import opened Common
  import opened Lists

  // ---------------------------------------------------------------------
  // Filter operators

  datatype Operator = Eq | Neq | Gt | Gte | Lt | Lte | Like | Ilike | In | Is

  function OpName(o: Operator): string {
    match o
    case Eq => "eq"
    case Neq => "neq"
    case Gt => "gt"
    case Gte => "gte"
    case Lt => "lt"
    case Lte => "lte"
    case Like => "like"
    case Ilike => "ilike"
    case In => "in"
    case Is => "is"
  }

  /** `op.eq(v)` … `op.ilike(v)`: the operator's name, a dot, the value as written. */
  function Encode(o: Operator, v: string): string {
    OpName(o) + "." + v
  }

  const ALL_OPERATORS: seq<Operator> := [Eq, Neq, Gt, Gte, Lt, Lte, Like, Ilike, In, Is]

  /** The first operator whose name and dot start `s`. */
  function DecodeFrom(s: string, ops: seq<Operator>): Option<(Operator, string)> {
    if ops == [] then None
    else
      var p := OpName(ops[0]) + ".";
      if StartsWith(s, p) then Some((ops[0], s[|p|..])) else DecodeFrom(s, ops[1..])
  }

  /** How the server reads a filter value back: operator, then everything after the first dot. */
  function Decode(s: string): Option<(Operator, string)> {
    DecodeFrom(s, ALL_OPERATORS)
  }

  /** Two dot-free names: when one name and a dot start the other name, a dot and more, the names agree. */
  lemma NamePrefix(n: string, m: string, v: string)
    requires '.' !in n && '.' !in m
    requires StartsWith(n + "." + v, m + ".")
    ensures n == m
  {
    var e := n + "." + v;
    assert e[..|m| + 1] == m + ".";
    assert e[|m|] == '.' && e[|n|] == '.';
    assert forall i :: 0 <= i < |n| ==> e[i] == n[i] && n[i] in n;
    assert forall i :: 0 <= i < |m| ==> e[i] == m[i] && m[i] in m;
    assert |n| == |m|;
    assert n == e[..|n|] == m;
  }

  /** No operator name followed by a dot starts the encoding of another operator. */
  lemma PrefixFree(o: Operator, q: Operator, v: string)
    requires StartsWith(Encode(o, v), OpName(q) + ".")
    ensures q == o
  {
    NamePrefix(OpName(o), OpName(q), v);
  }

  lemma {:induction false} DecodeFromEncode(o: Operator, v: string, ops: seq<Operator>)
    requires o in ops
    ensures DecodeFrom(Encode(o, v), ops) == Some((o, v))
  {
    var p := OpName(ops[0]) + ".";
    if ops[0] == o {
      assert Encode(o, v)[..|p|] == p;
      assert Encode(o, v)[|p|..] == v;
    } else {
      if StartsWith(Encode(o, v), p) {
        PrefixFree(o, ops[0], v);
      }
      DecodeFromEncode(o, v, ops[1..]);
    }
  }

  /** Every encoded filter reads back as the operator and value it was made from. */
  lemma DecodeEncode(o: Operator, v: string)
    ensures Decode(Encode(o, v)) == Some((o, v))
  {
    DecodeFromEncode(o, v, ALL_OPERATORS);
  }

  /** `op.in(arr)`: the elements joined by ',' inside parentheses. */
  function InList(arr: seq<string>): (r: string)
    ensures Decode(r) == Some((In, "(" + Join(arr, ",") + ")"))
  {
    DecodeEncode(In, "(" + Join(arr, ",") + ")");
    Encode(In, "(" + Join(arr, ",") + ")")
  }

  /** How the server splits an `in` list: the text between the parentheses, at each comma. */
  function DecodeIn(s: string): Option<seq<string>> {
    match Decode(s)
    case Some((In, v)) =>
      if |v| >= 2 && v[0] == '(' && v[|v| - 1] == ')' then Some(Split(v[1..|v| - 1], ',')) else None
    case _ => None
  }

  /** A non-empty list of comma-free values survives the trip through `op.in`. */
  lemma InListRoundTrip(arr: seq<string>)
    requires |arr| >= 1
    requires forall i :: 0 <= i < |arr| ==> ',' !in arr[i]
    ensures DecodeIn(InList(arr)) == Some(arr)
  {
    var v := "(" + Join(arr, ",") + ")";
    assert v[1..|v| - 1] == Join(arr, ",");
    SplitJoin(arr, ',');
  }

  /** `op.isNull()`, `op.isTrue()`, `op.isFalse()`. */
  const IS_NULL := "is.null"
  const IS_TRUE := "is.true"
  const IS_FALSE := "is.false"

  /** The three constants are `is` filters on null, true and false. */
  lemma IsConstants()
    ensures Decode(IS_NULL) == Some((Is, "null"))
    ensures Decode(IS_TRUE) == Some((Is, "true"))
    ensures Decode(IS_FALSE) == Some((Is, "false"))
  {
    assert IS_NULL == Encode(Is, "null") && IS_TRUE == Encode(Is, "true") && IS_FALSE == Encode(Is, "false");
    DecodeEncode(Is, "null");
    DecodeEncode(Is, "true");
    DecodeEncode(Is, "false");
  }

  // ---------------------------------------------------------------------
  // Query strings

  /** A parameter value: undefined, null, or a value stringified with `String(v)`. */
  datatype Param = Undefined | Null | Value(text: string)

  type Query = seq<(string, string)>

  function Names(q: Query): seq<string> {
    Map(q, (p: (string, string)) => p.0)
  }

  predicate DistinctNames(q: Query) {
    forall i, j :: 0 <= i < j < |q| ==> q[i].0 != q[j].0
  }

  /** The entries of a parameter object: each name once. */
  predicate DistinctParams(params: seq<(string, Param)>) {
    forall i, j :: 0 <= i < j < |params| ==> params[i].0 != params[j].0
  }

  function IndexOfName(q: Query, k: string): (i: int)
    ensures -1 <= i < |q|
    ensures i >= 0 ==> q[i].0 == k
    ensures i == -1 ==> forall j :: 0 <= j < |q| ==> q[j].0 != k
  {
    FindIndexBy(q, (p: (string, string)) => p.0 == k)
  }

  /**
   * `URLSearchParams.set(k, v)`: the first pair named `k` takes the value and
   * the other pairs with that name go; with none, the pair is appended.
   */
  function SearchSet(q: Query, k: string, v: string): (r: Query)
    ensures IndexOfName(q, k) == -1 ==> r == q + [(k, v)]
  {
    var i := IndexOfName(q, k);
    if i == -1 then q + [(k, v)]
    else
      var named := (p: (string, string)) => p.0 != k;
      Filter(q[..i], named) + [(k, v)] + Filter(q[i + 1..], named)
  }

  predicate Present(p: (string, Param)) {
    p.1.Value?
  }

  function AsPair(p: (string, Param)): (string, string)
    requires Present(p)
  {
    (p.0, p.1.text)
  }

  /** The pairs a parameter object contributes: those whose value is neither undefined nor null, in order. */
  function KeptParams(params: seq<(string, Param)>): (q: Query)
    ensures |q| <= |params|
    ensures forall i :: 0 <= i < |q| ==> (q[i].0, Value(q[i].1)) in params
  {
    if params == [] then []
    else
      var init := KeptParams(params[..|params| - 1]);
      var last := params[|params| - 1];
      if Present(last) then init + [AsPair(last)] else init
  }

  /** A kept pair is exactly a parameter with a value. */
  lemma {:induction false} KeptParamsSpec(params: seq<(string, Param)>)
    ensures forall k, t :: (k, t) in KeptParams(params) <==> (k, Value(t)) in params
  {
    if params != [] {
      var init := params[..|params| - 1];
      KeptParamsSpec(init);
      assert params == init + [params[|params| - 1]];
    }
  }

  /** One more parameter: it adds its pair when it has a value. */
  lemma KeptStep(params: seq<(string, Param)>, i: nat)
    requires i < |params|
    ensures KeptParams(params[..i + 1])
      == if Present(params[i]) then KeptParams(params[..i]) + [AsPair(params[i])] else KeptParams(params[..i])
  {
    assert params[..i + 1][..i] == params[..i];
  }

  /** With each name once, no parameter before the `i`-th has set its name. */
  lemma NotYetSet(params: seq<(string, Param)>, i: nat)
    requires DistinctParams(params) && i < |params|
    ensures IndexOfName(KeptParams(params[..i]), params[i].0) == -1
  {
    var q := KeptParams(params[..i]);
    forall j | 0 <= j < |q| ensures q[j].0 != params[i].0 {
      var m :| 0 <= m < i && params[..i][m] == (q[j].0, Value(q[j].1));
    }
  }

  /** A URL as the helpers build it: the resource's address and its query pairs. */
  datatype Url = Url(path: string, query: Query)

  /**
   * `buildURL`: each parameter with a value is set on the query, in order;
   * undefined and null ones are skipped.
   */
  method BuildURL(apiUrl: string, resource: string, params: Option<seq<(string, Param)>>) returns (url: Url)
    requires params.Some? ==> DistinctParams(params.value)
    ensures url.path == apiUrl + "/" + resource
    ensures params.None? ==> url.query == []
    ensures params.Some? ==> url.query == KeptParams(params.value)
  {
    var query: Query := [];
    if params.Some? {
      var ps := params.value;
      for i := 0 to |ps|
        invariant query == KeptParams(ps[..i])
      {
        var (k, v) := ps[i];
        KeptStep(ps, i);
        if v != Undefined && v != Null {
          NotYetSet(ps, i);
          query := SearchSet(query, k, v.text);
        }
      }
      assert ps[..|ps|] == ps;
    }
    url := Url(apiUrl + "/" + resource, query);
  }

  // ---------------------------------------------------------------------
  // Requests

  datatype Method = GET | POST | PATCH | DELETE

  /** The optional third argument: a Prefer value and extra headers. */
  datatype Options = Options(prefer: Option<string>, headers: seq<(string, string)>)

  /** One row, or an array of rows, each in its JSON form. */
  datatype Rows = OneRow(row: string) | ManyRows(rows: seq<string>)

  datatype Body = NoBody | JsonArray(items: seq<string>) | JsonValue(value: string) | CsvText(text: string)

  /** What `request` is called with. */
  datatype Request = Request(verb: Method, url: Url, contentType: Option<string>, prefer: Option<string>, headers: seq<(string, string)>, body: Body)

  function HeaderValue(hs: seq<(string, string)>, name: string): Option<string> {
    var i := IndexOfName(hs, name);
    if i == -1 then None else Some(hs[i].1)
  }

  function PreferOption(opts: Option<Options>): Option<string> {
    if opts.Some? then opts.value.prefer else None
  }

  function HeadersOption(opts: Option<Options>): seq<(string, string)> {
    if opts.Some? then opts.value.headers else []
  }

  /** `opts?.prefer ?? "return=representation"`: only a missing value is replaced, an empty one stays. */
  function PreferOrRepresentation(opts: Option<Options>): (p: Option<string>)
    ensures PreferOption(opts).None? ==> p == Some("return=representation")
    ensures PreferOption(opts).Some? ==> p == PreferOption(opts)
  {
    Some(PreferOption(opts).GetOr("return=representation"))
  }

  /** The content type a helper sets, unless the caller's headers name one. */
  function ContentType(opts: Option<Options>, default: string): Option<string> {
    var given := HeaderValue(HeadersOption(opts), "Content-Type");
    if given.Some? then given else Some(default)
  }

  function AddressOf(apiUrl: string, resource: string): Url {
    Url(apiUrl + "/" + resource, [])
  }

  /** `api.get`. */
  function Get(apiUrl: string, resource: string, params: seq<(string, Param)>, opts: Option<Options>): Request {
    Request(GET, Url(apiUrl + "/" + resource, KeptParams(params)), None, PreferOption(opts), HeadersOption(opts), NoBody)
  }

  /** `api.post`: the body is always a JSON array; one row is wrapped. */
  function Post(apiUrl: string, resource: string, rows: Rows, opts: Option<Options>): (r: Request)
    ensures r.body.JsonArray?
    ensures rows.OneRow? ==> r.body.items == [rows.row]
    ensures rows.ManyRows? ==> r.body.items == rows.rows
  {
    var items := match rows
      case OneRow(row) => [row]
      case ManyRows(rs) => rs;
    Request(POST, AddressOf(apiUrl, resource), ContentType(opts, "application/json"),
            PreferOrRepresentation(opts), HeadersOption(opts), JsonArray(items))
  }

  /** `api.postCSV`. */
  function PostCSV(apiUrl: string, resource: string, csv: string, opts: Option<Options>): Request {
    Request(POST, AddressOf(apiUrl, resource), ContentType(opts, "text/csv"),
            PreferOrRepresentation(opts), HeadersOption(opts), CsvText(csv))
  }

  /** `api.patch`. */
  function Patch(apiUrl: string, resource: string, filters: seq<(string, Param)>, patchBody: string, opts: Option<Options>): Request {
    Request(PATCH, Url(apiUrl + "/" + resource, KeptParams(filters)), ContentType(opts, "application/json"),
            PreferOrRepresentation(opts), HeadersOption(opts), JsonValue(patchBody))
  }

  /** `api.del`. */
  function Del(apiUrl: string, resource: string, filters: seq<(string, Param)>, opts: Option<Options>): Request {
    Request(DELETE, Url(apiUrl + "/" + resource, KeptParams(filters)), None, PreferOption(opts), HeadersOption(opts), NoBody)
  }

  /** The Prefer header `request` sends: its `prefer` argument when truthy, else whatever the headers say. */
  function SentPrefer(r: Request): Option<string> {
    if Truthy(r.prefer) then r.prefer else HeaderValue(r.headers, "Prefer")
  }

  /**
   * Without a Prefer option or header, inserts and updates ask for the rows
   * back and reads and deletes send no Prefer; an empty Prefer option sends none.
   */
  lemma PreferDefaults(apiUrl: string, resource: string, rows: Rows, csv: string, params: seq<(string, Param)>, patchBody: string, headers: seq<(string, string)>)
    requires HeaderValue(headers, "Prefer").None?
    ensures var opts := Some(Options(None, headers));
      && SentPrefer(Post(apiUrl, resource, rows, opts)) == Some("return=representation")
      && SentPrefer(PostCSV(apiUrl, resource, csv, opts)) == Some("return=representation")
      && SentPrefer(Patch(apiUrl, resource, params, patchBody, opts)) == Some("return=representation")
      && SentPrefer(Get(apiUrl, resource, params, opts)) == None
      && SentPrefer(Del(apiUrl, resource, params, opts)) == None
    ensures var empty := Some(Options(Some(""), headers));
      && SentPrefer(Post(apiUrl, resource, rows, empty)) == None
      && SentPrefer(Patch(apiUrl, resource, params, patchBody, empty)) == None
  {
  }

  /** The reads and writes that take filters send exactly the filters with values. */
  lemma FiltersKept(apiUrl: string, resource: string, params: seq<(string, Param)>, patchBody: string, opts: Option<Options>)
    ensures forall k, t :: (k, t) in Get(apiUrl, resource, params, opts).url.query <==> (k, Value(t)) in params
    ensures Patch(apiUrl, resource, params, patchBody, opts).url.query == Get(apiUrl, resource, params, opts).url.query
    ensures Del(apiUrl, resource, params, opts).url.query == Get(apiUrl, resource, params, opts).url.query
  {
    KeptParamsSpec(params);
  }

  // ---------------------------------------------------------------------
  // Responses

  /** What came back: status, body text (`None` when reading it failed), content type and JSON payload. */
  datatype Response = Response(ok: bool, text: Option<string>, statusText: string, contentType: Option<string>, json: string)

  datatype Outcome = Thrown(message: string) | NullResult | JsonResult(value: string)

  /**
   * `request` once the response is in: a non-OK status throws with the body
   * text, or the status text when the body is empty or unreadable; a response
   * that is not JSON gives null.
   */
  function Respond(res: Response): (o: Outcome)
    ensures o.Thrown? <==> !res.ok
    ensures o.Thrown? && res.statusText != "" ==> o.message != ""
    ensures o.Thrown? && Truthy(res.text) ==> o.message == res.text.value
    ensures o.Thrown? && !Truthy(res.text) ==> o.message == res.statusText
    ensures o == NullResult <==> res.ok && (res.contentType.None? || !Contains(res.contentType.value, "application/json"))
    ensures o.JsonResult? ==> o.value == res.json
  {
    if !res.ok then
      var text := res.text.GetOr(res.statusText);
      Thrown(if text != "" then text else res.statusText)
    else if res.contentType.None? || !Contains(res.contentType.value, "application/json") then NullResult
    else JsonResult(res.json)
  }
}
