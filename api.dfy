/** The frontend's HTTP client (frontend/src/api.ts): query-string construction, the URLs
    of the calls the dashboard makes, and the status check applied to every response. */
module Api {
  import opened Wrappers
  import opened Types

  /** A value of the `Record<string, string | number | boolean | undefined>` passed to `qs`;
      numbers are the integers the dashboard sends. */
  datatype ParamValue = Str(s: string) | Num(n: int) | Bool(b: bool) | Undefined

  type Param = (string, ParamValue)

  /** The filter in `qs`: a pair survives unless its value is `undefined` or `""`. */
  predicate Kept(v: ParamValue) {
    !v.Undefined? && v != Str("")
  }

  function DigitChar(d: nat): (c: char)
    requires d < 10
    ensures '0' <= c <= '9'
  {
    "0123456789"[d]
  }

  /** Decimal digits of a natural number, most significant first. */
  function NatToString(n: nat): (r: string)
    ensures |r| >= 1
    ensures forall i :: 0 <= i < |r| ==> '0' <= r[i] <= '9'
    decreases n
  {
    if n < 10 then [DigitChar(n)] else NatToString(n / 10) + [DigitChar(n % 10)]
  }

  /** `String(n)` for an integer-valued number. */
  function NumberToString(n: int): (r: string)
    ensures |r| >= 1
  {
    if n < 0 then "-" + NatToString(-n) else NatToString(n)
  }

  /** `String(v)`. */
  function Render(v: ParamValue): string {
    match v
    case Str(s) => s
    case Num(n) => NumberToString(n)
    case Bool(b) => if b then "true" else "false"
    case Undefined => "undefined"
  }

  /** The entry one parameter contributes: none, or the key with the rendered value. */
  function PairOf(p: Param): seq<(string, string)> {
    if Kept(p.1) then [(p.0, Render(p.1))] else []
  }

  /** The entries `qs` hands to `URLSearchParams`: surviving pairs, values rendered, in order. */
  function QueryPairs(params: seq<Param>): (r: seq<(string, string)>)
    ensures |r| <= |params|
  {
    if params == [] then [] else PairOf(params[0]) + QueryPairs(params[1..])
  }

  lemma QueryPairsCons(p: Param, ps: seq<Param>)
    ensures QueryPairs([p] + ps) == PairOf(p) + QueryPairs(ps)
  {
    assert ([p] + ps)[1..] == ps;
  }

  /** `k=v` pairs joined by `&`; the form-urlencoded escaping of keys and values is not modelled. */
  function Serialize(pairs: seq<(string, string)>): string {
    if pairs == [] then ""
    else if |pairs| == 1 then pairs[0].0 + "=" + pairs[0].1
    else pairs[0].0 + "=" + pairs[0].1 + "&" + Serialize(pairs[1..])
  }

  /** `qs(params)`. */
  function Qs(params: seq<Param>): string {
    var pairs := QueryPairs(params);
    if pairs == [] then "" else "?" + Serialize(pairs)
  }

  /** `qs` keeps a pair exactly when its value is neither `undefined` nor `""`, so `false` and
      `0` are kept. */
  lemma {:induction false} QueryPairsMembers(params: seq<Param>, k: string, w: string)
    ensures (k, w) in QueryPairs(params) <==>
      exists i :: 0 <= i < |params| && params[i].0 == k && Kept(params[i].1) && Render(params[i].1) == w
  {
    if params != [] {
      QueryPairsMembers(params[1..], k, w);
      if (k, w) in QueryPairs(params[1..]) {
        var i :| 0 <= i < |params[1..]| && params[1..][i].0 == k && Kept(params[1..][i].1)
                 && Render(params[1..][i].1) == w;
        assert params[i + 1] == params[1..][i];
      }
      if exists i :: 0 <= i < |params| && params[i].0 == k && Kept(params[i].1) && Render(params[i].1) == w {
        var i :| 0 <= i < |params| && params[i].0 == k && Kept(params[i].1) && Render(params[i].1) == w;
        if i > 0 {
          assert params[1..][i - 1] == params[i];
        }
      }
    }
  }

  /** Input order is kept: the pairs of a concatenation are the concatenation of the pairs. */
  lemma {:induction false} QueryPairsAppend(a: seq<Param>, b: seq<Param>)
    ensures QueryPairs(a + b) == QueryPairs(a) + QueryPairs(b)
  {
    if a == [] {
      assert a + b == b;
    } else {
      assert a + b == [a[0]] + (a[1..] + b);
      QueryPairsCons(a[0], a[1..] + b);
      QueryPairsAppend(a[1..], b);
    }
  }

  lemma {:induction false} SerializeStartsWithKey(pairs: seq<(string, string)>)
    requires pairs != []
    ensures |Serialize(pairs)| >= |pairs[0].0| + 1
    ensures Serialize(pairs)[..|pairs[0].0| + 1] == pairs[0].0 + "="
  {
  }

  /** `qs` returns `""` exactly when no pair survives, and otherwise a string beginning with
      `?` followed by the first surviving key. */
  lemma QsShape(params: seq<Param>)
    ensures Qs(params) == "" <==> QueryPairs(params) == []
    ensures QueryPairs(params) != [] ==>
      var k := QueryPairs(params)[0].0;
      |Qs(params)| >= |k| + 2 && Qs(params)[0] == '?' && Qs(params)[1..|k| + 2] == k + "="
  {
    if QueryPairs(params) != [] {
      SerializeStartsWithKey(QueryPairs(params));
    }
  }

  /** A filter value, `undefined` when the key is absent. */
  function OptStr(o: Option<string>): ParamValue {
    match o
    case Some(s) => Str(s)
    case None => Undefined
  }

  function OptBool(o: Option<bool>): ParamValue {
    match o
    case Some(b) => Bool(b)
    case None => Undefined
  }

  /** The filters object as `qs` sees it, the keys in declaration order. */
  function FilterParams(f: AlertFilters): seq<Param> {
    [("feed_category", OptStr(f.feedCategory)), ("category", OptStr(f.category)),
     ("severity", OptStr(f.severity)), ("analysed", OptBool(f.analysed))]
  }

  /** `{ ...filters, limit, offset }`. */
  function FetchAlertsParams(f: AlertFilters, limit: int, offset: int): seq<Param> {
    FilterParams(f) + [("limit", Num(limit)), ("offset", Num(offset))]
  }

  const Base := "/api/alerts"

  /** The URL `fetchAlerts(filters, limit, offset)` requests. */
  function FetchAlertsUrl(f: AlertFilters, limit: int := 500, offset: int := 0): string {
    Base + "/" + Qs(FetchAlertsParams(f, limit, offset))
  }

  /** The pairs of the filter part, one per present non-empty filter, in declaration order. */
  function FilterPairs(f: AlertFilters): seq<(string, string)> {
    PairOf(("feed_category", OptStr(f.feedCategory))) + PairOf(("category", OptStr(f.category)))
    + PairOf(("severity", OptStr(f.severity))) + PairOf(("analysed", OptBool(f.analysed)))
  }

  lemma QueryPairsOfTwo(p0: Param, p1: Param)
    ensures QueryPairs([p0, p1]) == PairOf(p0) + PairOf(p1)
  {
    QueryPairsCons(p1, []);
    assert [p0, p1] == [p0] + [p1];
    QueryPairsCons(p0, [p1]);
  }

  lemma QueryPairsOfFour(p0: Param, p1: Param, p2: Param, p3: Param)
    ensures QueryPairs([p0, p1, p2, p3]) == PairOf(p0) + PairOf(p1) + PairOf(p2) + PairOf(p3)
  {
    QueryPairsOfTwo(p2, p3);
    assert [p1, p2, p3] == [p1] + [p2, p3];
    QueryPairsCons(p1, [p2, p3]);
    assert [p0, p1, p2, p3] == [p0] + [p1, p2, p3];
    QueryPairsCons(p0, [p1, p2, p3]);
  }

  /** `fetchAlerts` always sends `limit` and `offset`, after the present filters, so its URL
      always carries a query string. */
  lemma FetchAlertsQuery(f: AlertFilters, limit: int, offset: int)
    ensures QueryPairs(FetchAlertsParams(f, limit, offset))
         == FilterPairs(f) + [("limit", NumberToString(limit)), ("offset", NumberToString(offset))]
    ensures FetchAlertsUrl(f, limit, offset)
         == Base + "/?" + Serialize(FilterPairs(f) + [("limit", NumberToString(limit)), ("offset", NumberToString(offset))])
  {
    var fp := FilterParams(f);
    QueryPairsOfFour(fp[0], fp[1], fp[2], fp[3]);
    QueryPairsOfTwo(("limit", Num(limit)), ("offset", Num(offset)));
    QueryPairsAppend(fp, [("limit", Num(limit)), ("offset", Num(offset))]);
  }

  /** What a request says about one string filter: `qs` drops a `""` value, so that key is
      not sent at all. */
  function Sent(o: Option<string>): Option<string> {
    if o == Some("") then None else o
  }

  /** The filters a request built from `f` carries. */
  function SentFilters(f: AlertFilters): AlertFilters {
    AlertFilters(Sent(f.feedCategory), Sent(f.category), Sent(f.severity), f.analysed)
  }

  /** A filter is sent exactly when it is present and non-empty; `analysed` is sent as
      `"true"` or `"false"`. */
  lemma FilterPairsMembers(f: AlertFilters)
    ensures forall c :: ("feed_category", c) in FilterPairs(f) <==> f.feedCategory == Some(c) && c != ""
    ensures forall c :: ("category", c) in FilterPairs(f) <==> f.category == Some(c) && c != ""
    ensures forall c :: ("severity", c) in FilterPairs(f) <==> f.severity == Some(c) && c != ""
    ensures forall c :: ("analysed", c) in FilterPairs(f) <==>
      (f.analysed == Some(true) && c == "true") || (f.analysed == Some(false) && c == "false")
  {
    var p0, p1 := ("feed_category", OptStr(f.feedCategory)), ("category", OptStr(f.category));
    var p2, p3 := ("severity", OptStr(f.severity)), ("analysed", OptBool(f.analysed));
    assert p0.0[0] == 'f' && p1.0[0] == 'c' && p2.0[0] == 's' && p3.0[0] == 'a';
    forall k, c ensures (k, c) in FilterPairs(f) <==>
      (k, c) in PairOf(p0) || (k, c) in PairOf(p1) || (k, c) in PairOf(p2) || (k, c) in PairOf(p3)
    {
    }
    forall k, c ensures (k, c) in FilterPairs(f) <==>
      (k == p0.0 && Kept(p0.1) && Render(p0.1) == c) || (k == p1.0 && Kept(p1.1) && Render(p1.1) == c)
      || (k == p2.0 && Kept(p2.1) && Render(p2.1) == c) || (k == p3.0 && Kept(p3.1) && Render(p3.1) == c)
    {
    }
  }

  /** The URL `triggerAnalyse(limit)` posts to. */
  function TriggerAnalyseUrl(limit: int := 10): string {
    Base + "/analyse" + Qs([("limit", Num(limit))])
  }

  lemma TriggerAnalyseQuery(limit: int)
    ensures TriggerAnalyseUrl(limit) == Base + "/analyse?limit=" + NumberToString(limit)
  {
    var p := ("limit", Num(limit));
    assert [p] == [p] + [];
    QueryPairsCons(p, []);
  }

  /** `fetchAlert(id)`, `fetchStats()` and `triggerFetch()`. */
  function FetchAlertUrl(id: int): string { Base + "/" + NumberToString(id) }
  const StatsUrl := Base + "/stats"
  const TriggerFetchUrl := Base + "/fetch"

  /** What `fetch` resolved to: the status, the body text, and the decoded JSON body. */
  datatype Response<T> = Response(status: int, body: string, payload: T)

  /** `res.ok`: a 2xx status. */
  predicate StatusOk(status: int) {
    200 <= status <= 299
  }

  /** The message of the `Error` thrown for a non-OK response. */
  function StatusMessage(status: int, body: string): string {
    "API " + NumberToString(status) + ": " + body
  }

  /** `json(res)`: the decoded body for a 2xx status; otherwise the thrown error's message. */
  function Json<T>(res: Response<T>): (r: Result<T, string>)
    ensures r.Ok? <==> StatusOk(res.status)
    ensures r.Ok? ==> r.value == res.payload
    ensures r.Err? ==> r.error == StatusMessage(res.status, res.body)
  {
    if !StatusOk(res.status) then Err(StatusMessage(res.status, res.body)) else Ok(res.payload)
  }

  /** `${err}` for an `Error` with this message, as the dashboard's toasts render it. */
  function ErrorText(message: string): string {
    "Error: " + message
  }
}
