/** The alert routes of the backend (backend/routers/alerts.py): listing with optional
    filters, summary statistics, single-alert lookup and the classification trigger.
    The database is the sequence of persisted rows. */
module AlertsRouter {
  import opened Wrappers
  import opened Models
  import opened Types
  import Sorting
  import Sql
  import Agent

  /** A request the route rejects: FastAPI's 422 for out-of-range query parameters,
      or the route's own 404. */
  datatype HttpError = HttpError(status: int, detail: string)

  const NotFoundDetail := "Alert not found"

  /** `limit` must lie in 1..200 (the listing and the analyse trigger share the bound). */
  predicate LimitInRange(limit: int) {
    1 <= limit <= 200
  }

  // ---------------------------------------------------------------- listing

  /** Each filter that is present restricts its column by equality. */
  predicate Matches(f: AlertFilters, a: Alert) {
    && (f.feedCategory.Some? ==> a.feedCategory == f.feedCategory.value)
    && (f.category.Some? ==> a.category == f.category.value)
    && (f.severity.Some? ==> a.severity == f.severity.value)
    && (f.analysed.Some? ==> a.analysed == f.analysed.value)
  }

  /** The value FastAPI binds to a scalar query parameter: that of the last pair with the
      key (Starlette's query mapping keeps the last of repeated keys), or none. */
  function Lookup(pairs: seq<(string, string)>, k: string): (r: Option<string>)
    ensures r.None? <==> forall p :: p in pairs ==> p.0 != k
    ensures r.Some? ==> (k, r.value) in pairs
  {
    if pairs == [] then None
    else
      var last := pairs[|pairs| - 1];
      assert forall p :: p in pairs ==> p == last || p in pairs[..|pairs| - 1];
      if last.0 == k then Some(last.1) else Lookup(pairs[..|pairs| - 1], k)
  }

  /** Pairs appended after others do not change what is bound for a key they lack. */
  lemma {:induction false} LookupBeforeTail(ps: seq<(string, string)>, tail: seq<(string, string)>, k: string)
    requires forall p :: p in tail ==> p.0 != k
    ensures Lookup(ps + tail, k) == Lookup(ps, k)
    decreases |tail|
  {
    if tail != [] {
      var init := tail[..|tail| - 1];
      assert (ps + tail)[..|ps + tail| - 1] == ps + init;
      assert tail[|tail| - 1] in tail;
      LookupBeforeTail(ps, init, k);
    } else {
      assert ps + tail == ps;
    }
  }

  /** The strings pydantic accepts for `bool` (the lower-case spellings). */
  const TrueWords: set<string> := {"1", "on", "t", "true", "y", "yes"}
  const FalseWords: set<string> := {"0", "off", "f", "false", "n", "no"}

  /** pydantic's `bool` from a query string; none for a string it rejects. */
  function ParseBool(s: string): (r: Option<bool>)
    ensures r == Some(true) <==> s in TrueWords
    ensures r == Some(false) <==> s in FalseWords && s !in TrueWords
  {
    if s in TrueWords then Some(true) else if s in FalseWords then Some(false) else None
  }

  /** The two spellings `String(b)` gives a boolean parse back to it. */
  lemma ParseBoolRendered()
    ensures ParseBool("true") == Some(true)
    ensures ParseBool("false") == Some(false)
  {
    assert "false"[0] == 'f';
  }

  /** `feed_category`, `category`, `severity: str | None` and `analysed: bool | None`
      (alerts.py:45-48), bound from the query's pairs; an `analysed` that is not a boolean
      is a 422. */
  function DecodeFilters(pairs: seq<(string, string)>): (r: Result<AlertFilters, HttpError>)
    ensures r.Err? <==> Lookup(pairs, "analysed").Some? && ParseBool(Lookup(pairs, "analysed").value).None?
    ensures r.Err? ==> r.error.status == 422
    ensures r.Ok? ==> (r.value.analysed.Some? <==> Lookup(pairs, "analysed").Some?)
    ensures r.Ok? && r.value.analysed.Some? ==>
      Lookup(pairs, "analysed").Some? && r.value.analysed == ParseBool(Lookup(pairs, "analysed").value)
  {
    var analysed := Lookup(pairs, "analysed");
    if analysed.Some? && ParseBool(analysed.value).None? then
      Err(HttpError(422, "analysed is not a boolean"))
    else
      Ok(AlertFilters(Lookup(pairs, "feed_category"), Lookup(pairs, "category"), Lookup(pairs, "severity"),
                      if analysed.Some? then ParseBool(analysed.value) else None))
  }

  function ListAlerts(rows: seq<Alert>, f: AlertFilters, limit: int, offset: int)
    : (r: Result<AlertsListResponse, HttpError>)
    ensures r.Err? <==> !(LimitInRange(limit) && offset >= 0)
    ensures r.Err? ==> r.error.status == 422
    ensures r.Ok? ==> r.value.count == |r.value.alerts| <= limit
  {
    if !LimitInRange(limit) || offset < 0 then Err(HttpError(422, "limit or offset out of range"))
    else
      var page := Sql.SelectPage(rows, a => Matches(f, a), offset, limit);
      Ok(AlertsListResponse(|page|, page))
  }

  /** The listing returns exactly the matching rows whose rank (the number of matching rows
      with a smaller id) lies in `[offset, offset + limit)`, in ascending id order, and every
      returned alert equals every filter that was supplied. */
  lemma ListAlertsContents(rows: seq<Alert>, f: AlertFilters, limit: int, offset: int)
    requires Persisted(rows) && LimitInRange(limit) && offset >= 0
    ensures ListAlerts(rows, f, limit, offset).Ok?
    ensures var page := ListAlerts(rows, f, limit, offset).value.alerts;
      && Sorting.StrictlyAscending(page, IdKey)
      && (forall a :: a in page <==>
            a in rows && Matches(f, a) && offset <= Sql.Rank(rows, a => Matches(f, a), a) < offset + limit)
      && (forall a :: a in page && f.feedCategory.Some? ==> a.feedCategory == f.feedCategory.value)
      && (forall a :: a in page && f.category.Some? ==> a.category == f.category.value)
      && (forall a :: a in page && f.severity.Some? ==> a.severity == f.severity.value)
      && (forall a :: a in page && f.analysed.Some? ==> a.analysed == f.analysed.value)
  {
    Sql.SelectPageWindow(rows, a => Matches(f, a), offset, limit);
  }

  /** With no filter supplied, offset 0 and a limit covering the table, every row is listed. */
  lemma ListAlertsUnfiltered(rows: seq<Alert>, limit: int)
    requires Persisted(rows) && LimitInRange(limit) && |rows| <= limit
    ensures forall a :: a in ListAlerts(rows, NoFilters, limit, 0).value.alerts <==> a in rows
  {
    ListAlertsContents(rows, NoFilters, limit, 0);
    forall a | a in rows ensures Sql.Rank(rows, a => Matches(NoFilters, a), a) < limit {
      Sorting.CountBelowMember(Sql.Where(rows, a => Matches(NoFilters, a)), IdKey, a);
    }
  }

  // ---------------------------------------------------------------- analyse trigger

  /** `POST /analyse?limit=`: the limit is checked against 1..200 before the agent runs; the
      response counts the ids the batch returned. An out-of-range limit leaves the table
      untouched. */
  method TriggerAnalyse(table: Agent.AlertTable, limit: int,
                        classify: Alert -> Option<Agent.AlertClassification>)
    returns (r: Result<AnalyseResult, HttpError>)
    requires table.Valid()
    modifies table
    ensures table.Valid()
    ensures r.Err? <==> !LimitInRange(limit)
    ensures r.Err? ==> r.error.status == 422 && table.rows == old(table.rows)
    ensures r.Ok? ==> r.value.analysedCount == |r.value.analysedIds| <= limit
    ensures r.Ok? ==> r.value.analysedIds == Agent.SucceededIds(Agent.Candidates(old(table.rows), limit), classify)
  {
    if !LimitInRange(limit) {
      return Err(HttpError(422, "limit out of range"));
    }
    Agent.CandidatesOrdered(table.rows, limit);
    Agent.SucceededIdsMembers(Agent.Candidates(table.rows, limit), classify);
    var ids := table.AnalysePendingAlerts(limit, classify);
    r := Ok(AnalyseResult(|ids|, ids));
  }

  // ---------------------------------------------------------------- single alert

  /** `session.get(Alert, alert_id)` or 404. */
  function GetAlert(rows: seq<Alert>, id: int): (r: Result<Alert, HttpError>)
    ensures r.Ok? <==> exists i :: 0 <= i < |rows| && rows[i].id == Some(id)
    ensures r.Ok? ==> r.value in rows && r.value.id == Some(id)
    ensures r.Err? ==> r.error == HttpError(404, NotFoundDetail)
  {
    if rows == [] then Err(HttpError(404, NotFoundDetail))
    else if rows[0].id == Some(id) then Ok(rows[0])
    else
      var rest := GetAlert(rows[1..], id);
      assert forall i :: 1 <= i < |rows| ==> rows[i] == rows[1..][i - 1];
      rest
  }

  // ---------------------------------------------------------------- statistics

  function FeedCategoryOf(a: Alert): string { a.feedCategory }
  function SeverityOf(a: Alert): string { a.severity }
  function CategoryOf(a: Alert): string { a.category }

  /** The number of rows whose `field` equals `v`. */
  function CountRows(rows: seq<Alert>, field: Alert -> string, v: string): nat {
    if rows == [] then 0 else (if field(rows[0]) == v then 1 else 0) + CountRows(rows[1..], field, v)
  }

  /** The number of rows with the analysed flag set. */
  function CountAnalysed(rows: seq<Alert>): (n: nat)
    ensures n <= |rows|
  {
    if rows == [] then 0 else (if rows[0].analysed then 1 else 0) + CountAnalysed(rows[1..])
  }

  /** The analysed count reaches the row count exactly when no row is pending. */
  lemma {:induction false} CountAnalysedAll(rows: seq<Alert>)
    ensures CountAnalysed(rows) == |rows| <==> forall a :: a in rows ==> a.analysed
  {
    if rows != [] {
      CountAnalysedAll(rows[1..]);
      assert forall a :: a in rows <==> a == rows[0] || a in rows[1..];
    }
  }

  /** The column `field` of the rows, keeping empty values only when `keepEmpty`. */
  function Column(rows: seq<Alert>, field: Alert -> string, keepEmpty: bool): (vs: seq<string>)
    ensures forall v :: multiset(vs)[v] == if v == "" && !keepEmpty then 0 else CountRows(rows, field, v)
  {
    if rows == [] then []
    else
      var x := field(rows[0]);
      var rest := Column(rows[1..], field, keepEmpty);
      if x != "" || keepEmpty then [x] + rest else rest
  }

  function BucketValue(b: Bucket): string { b.value }

  /** The key that orders buckets by descending count. */
  function DescendingCount(b: Bucket): int { -b.count }

  ghost function ValueSet(g: seq<Bucket>): set<string> {
    set b | b in g :: b.value
  }

  function SumCounts(g: seq<Bucket>): int {
    if g == [] then 0 else g[0].count + SumCounts(g[1..])
  }

  /** The count recorded for `w` (its first bucket), or 0 when `w` has none. */
  function CountOf(g: seq<Bucket>, w: string): int {
    if g == [] then 0 else if g[0].value == w then g[0].count else CountOf(g[1..], w)
  }

  /** Adds one occurrence of `v` to a group-by result in first-appearance order. */
  function Tally(g: seq<Bucket>, v: string): (r: seq<Bucket>)
    ensures SumCounts(r) == SumCounts(g) + 1
  {
    if g == [] then [Bucket(v, 1)]
    else if g[0].value == v then
      var r := [g[0].(count := g[0].count + 1)] + g[1..];
      assert r[1..] == g[1..];
      r
    else
      var r := [g[0]] + Tally(g[1..], v);
      assert r[1..] == Tally(g[1..], v);
      r
  }

  lemma ValueSetCons(b: Bucket, g: seq<Bucket>)
    ensures ValueSet([b] + g) == {b.value} + ValueSet(g)
  {
    assert forall c :: c in [b] + g <==> c == b || c in g;
  }

  lemma {:induction false} TallyValues(g: seq<Bucket>, v: string)
    ensures ValueSet(Tally(g, v)) == ValueSet(g) + {v}
  {
    if g == [] {
      assert ValueSet([Bucket(v, 1)]) == {v} by { ValueSetCons(Bucket(v, 1), []); }
    } else if g[0].value == v {
      assert g == [g[0]] + g[1..];
      ValueSetCons(g[0], g[1..]);
      ValueSetCons(g[0].(count := g[0].count + 1), g[1..]);
    } else {
      TallyValues(g[1..], v);
      assert g == [g[0]] + g[1..];
      ValueSetCons(g[0], g[1..]);
      ValueSetCons(g[0], Tally(g[1..], v));
    }
  }

  lemma {:induction false} TallyCountOf(g: seq<Bucket>, v: string, w: string)
    ensures CountOf(Tally(g, v), w) == CountOf(g, w) + (if w == v then 1 else 0)
  {
    if g != [] && g[0].value != v {
      TallyCountOf(g[1..], v, w);
    }
  }

  lemma {:induction false} TallyPositive(g: seq<Bucket>, v: string)
    requires forall b :: b in g ==> b.count >= 1
    ensures forall b :: b in Tally(g, v) ==> b.count >= 1
  {
    if g != [] && g[0].value != v {
      TallyPositive(g[1..], v);
    }
  }

  lemma HeadValueFresh(g: seq<Bucket>)
    requires g != [] && Sorting.DistinctBy(g, BucketValue)
    ensures g[0].value !in ValueSet(g[1..])
  {
    forall c | c in g[1..] ensures c.value != g[0].value {
      var m :| 0 <= m < |g[1..]| && g[1..][m] == c;
      assert g[m + 1] == c;
    }
  }

  lemma ConsDistinct(b: Bucket, r: seq<Bucket>)
    requires Sorting.DistinctBy(r, BucketValue) && b.value !in ValueSet(r)
    ensures Sorting.DistinctBy([b] + r, BucketValue)
  {
    forall k | 0 <= k < |r| ensures r[k].value != b.value {
      assert r[k] in r;
    }
  }

  lemma {:induction false} TallyDistinct(g: seq<Bucket>, v: string)
    requires Sorting.DistinctBy(g, BucketValue)
    ensures Sorting.DistinctBy(Tally(g, v), BucketValue)
  {
    if g == [] {
    } else if g[0].value == v {
      var r := Tally(g, v);
      forall i, j | 0 <= i < j < |r| ensures r[i].value != r[j].value {
        assert r[i].value == g[i].value && r[j].value == g[j].value;
      }
    } else {
      TallyDistinct(g[1..], v);
      TallyValues(g[1..], v);
      HeadValueFresh(g);
      ConsDistinct(g[0], Tally(g[1..], v));
    }
  }

  /** GROUP BY in first-appearance order: one bucket per distinct value with its count. */
  function GroupCount(vs: seq<string>): seq<Bucket> {
    if vs == [] then [] else Tally(GroupCount(vs[..|vs| - 1]), vs[|vs| - 1])
  }

  ghost predicate GroupInvariant(g: seq<Bucket>, vs: seq<string>) {
    && Sorting.DistinctBy(g, BucketValue)
    && (forall w :: CountOf(g, w) == multiset(vs)[w])
    && (forall b :: b in g ==> b.count >= 1)
    && SumCounts(g) == |vs|
  }

  lemma {:induction false} GroupCountInvariant(vs: seq<string>)
    ensures GroupInvariant(GroupCount(vs), vs)
  {
    if vs != [] {
      var init := vs[..|vs| - 1];
      var g := GroupCount(init);
      GroupCountInvariant(init);
      assert vs == init + [vs[|vs| - 1]];
      TallyDistinct(g, vs[|vs| - 1]);
      TallyPositive(g, vs[|vs| - 1]);
      forall w ensures CountOf(GroupCount(vs), w) == multiset(vs)[w] {
        TallyCountOf(g, vs[|vs| - 1], w);
      }
    }
  }

  lemma {:induction false} CountOfMember(g: seq<Bucket>, b: Bucket)
    requires Sorting.DistinctBy(g, BucketValue) && b in g
    ensures CountOf(g, b.value) == b.count
  {
    if g[0] != b {
      assert b in g[1..];
      var k :| 0 <= k < |g[1..]| && g[1..][k] == b;
      assert g[k + 1] == b;
      CountOfMember(g[1..], b);
    }
  }

  lemma {:induction false} CountOfPresent(g: seq<Bucket>, w: string)
    requires CountOf(g, w) != 0
    ensures w in ValueSet(g)
  {
    if g[0].value != w {
      CountOfPresent(g[1..], w);
      var c :| c in g[1..] && c.value == w;
      assert c in g;
    }
  }

  lemma {:induction false} SumCountsInsert(b: Bucket, g: seq<Bucket>)
    ensures SumCounts(Sorting.Insert(b, g, DescendingCount)) == b.count + SumCounts(g)
  {
    if g != [] && DescendingCount(b) > DescendingCount(g[0]) {
      SumCountsInsert(b, g[1..]);
      assert ([g[0]] + Sorting.Insert(b, g[1..], DescendingCount))[1..]
          == Sorting.Insert(b, g[1..], DescendingCount);
    } else {
      assert ([b] + g)[1..] == g;
    }
  }

  lemma {:induction false} SumCountsSorted(g: seq<Bucket>)
    ensures SumCounts(Sorting.SortByKey(g, DescendingCount)) == SumCounts(g)
  {
    if g != [] {
      SumCountsSorted(g[1..]);
      SumCountsInsert(g[0], Sorting.SortByKey(g[1..], DescendingCount));
    }
  }

  /** `GROUP BY value ORDER BY count(id) DESC`: ties keep first-appearance order. */
  function Breakdown(vs: seq<string>): seq<Bucket> {
    Sorting.SortByKey(GroupCount(vs), DescendingCount)
  }

  /** What a breakdown is: one bucket per distinct value of `vs`, each with the number of
      times the value occurs, counts summing to `|vs|`, heaviest first. */
  ghost predicate IsBreakdownOf(g: seq<Bucket>, vs: seq<string>) {
    && Sorting.DistinctBy(g, BucketValue)
    && (forall b :: b in g ==> 1 <= b.count == multiset(vs)[b.value])
    && (forall v :: v in vs ==> v in ValueSet(g))
    && SumCounts(g) == |vs|
    && (forall i, j :: 0 <= i < j < |g| ==> g[i].count >= g[j].count)
  }

  lemma BreakdownCorrect(vs: seq<string>)
    ensures IsBreakdownOf(Breakdown(vs), vs)
  {
    var g := GroupCount(vs);
    GroupCountInvariant(vs);
    Sorting.SortByKeyDistinctBy(g, DescendingCount, BucketValue);
    Sorting.SortByKeyAscending(g, DescendingCount);
    SumCountsSorted(g);
    var r := Breakdown(vs);
    forall b | b in r ensures 1 <= b.count == multiset(vs)[b.value] {
      assert b in multiset(g);
      CountOfMember(g, b);
    }
    forall v | v in vs ensures v in ValueSet(r) {
      assert multiset(vs)[v] > 0;
      CountOfPresent(g, v);
      var c :| c in g && c.value == v;
      assert c in multiset(r);
    }
  }

  function AlertStatsOf(rows: seq<Alert>): AlertStats {
    var total := |rows|;
    var analysed := CountAnalysed(rows);
    AlertStats(
      total, analysed, total - analysed,
      Breakdown(Column(rows, FeedCategoryOf, true)),
      Breakdown(Column(rows, SeverityOf, false)),
      Breakdown(Column(rows, CategoryOf, false)))
  }

  /** The stats response: pending is total minus analysed; `by_feed_category` covers every row
      (so its counts sum to the total), the other two breakdowns skip empty values; each
      breakdown has one bucket per value with that value's row count, heaviest first. */
  lemma AlertStatsCorrect(rows: seq<Alert>)
    ensures var st := AlertStatsOf(rows);
      && st.total == |rows| && st.analysed == CountAnalysed(rows)
      && st.pending == st.total - st.analysed >= 0
      && IsBreakdownOf(st.byFeedCategory, Column(rows, FeedCategoryOf, true))
      && IsBreakdownOf(st.bySeverity, Column(rows, SeverityOf, false))
      && IsBreakdownOf(st.byCategory, Column(rows, CategoryOf, false))
      && SumCounts(st.byFeedCategory) == st.total
      && (forall b :: b in st.byFeedCategory ==> b.count == CountRows(rows, FeedCategoryOf, b.value))
      && (forall b :: b in st.bySeverity ==> b.value != "" && b.count == CountRows(rows, SeverityOf, b.value))
      && (forall b :: b in st.byCategory ==> b.value != "" && b.count == CountRows(rows, CategoryOf, b.value))
      && (forall a :: a in rows ==> a.feedCategory in ValueSet(st.byFeedCategory))
      && (forall a :: a in rows && a.severity != "" ==> a.severity in ValueSet(st.bySeverity))
      && (forall a :: a in rows && a.category != "" ==> a.category in ValueSet(st.byCategory))
  {
    var fc := Column(rows, FeedCategoryOf, true);
    var sv := Column(rows, SeverityOf, false);
    var ct := Column(rows, CategoryOf, false);
    BreakdownCorrect(fc);
    BreakdownCorrect(sv);
    BreakdownCorrect(ct);
    assert |fc| == |rows| by { ColumnAllLength(rows, FeedCategoryOf); }
    forall a | a in rows ensures a.feedCategory in fc && (a.severity != "" ==> a.severity in sv)
                              && (a.category != "" ==> a.category in ct) {
      RowCounted(rows, FeedCategoryOf, a);
      RowCounted(rows, SeverityOf, a);
      RowCounted(rows, CategoryOf, a);
      assert multiset(fc)[a.feedCategory] > 0;
    }
  }

  lemma {:induction false} ColumnAllLength(rows: seq<Alert>, field: Alert -> string)
    ensures |Column(rows, field, true)| == |rows|
  {
    if rows != [] {
      ColumnAllLength(rows[1..], field);
    }
  }

  lemma {:induction false} RowCounted(rows: seq<Alert>, field: Alert -> string, a: Alert)
    requires a in rows
    ensures CountRows(rows, field, field(a)) > 0
  {
    if rows[0] != a {
      RowCounted(rows[1..], field, a);
    }
  }
}
