/** The filter bar (frontend/src/components/AlertsToolbar.tsx): how a choice in a select
    becomes the next filters object, the status encoding, the option lists derived from the
    stats, and when the two action buttons are disabled. */
module Toolbar {
  import opened Wrappers
  import opened Models
  import opened Types
  import AlertsRouter

  /** The value of the placeholder item every filter select offers first. */
  const AllItem := "__all__"

  /** `FilterSelect`'s `onValueChange`: the placeholder item passes `""`, any other item its
      own value. */
  function SelectedValue(item: string): (v: string)
    ensures item == AllItem ==> v == ""
    ensures item != AllItem ==> v == item
  {
    if item == AllItem then "" else item
  }

  /** `v || undefined`: the empty string leaves the key absent. */
  function Present(v: string): (o: Option<string>)
    ensures o == None <==> v == ""
    ensures o.Some? ==> o.value == v
  {
    if v == "" then None else Some(v)
  }

  /** The value a text filter's select shows: `filters.key ?? ""`. */
  function Shown(o: Option<string>): string {
    o.GetOr("")
  }

  /** The three text-filter `onChange` payloads: `{ ...filters, key: v || undefined }`. */
  function SetFeedCategory(f: AlertFilters, v: string): (r: AlertFilters)
    ensures r.feedCategory == Present(v)
    ensures r.category == f.category && r.severity == f.severity && r.analysed == f.analysed
  {
    f.(feedCategory := Present(v))
  }

  function SetCategory(f: AlertFilters, v: string): (r: AlertFilters)
    ensures r.category == Present(v)
    ensures r.feedCategory == f.feedCategory && r.severity == f.severity && r.analysed == f.analysed
  {
    f.(category := Present(v))
  }

  function SetSeverity(f: AlertFilters, v: string): (r: AlertFilters)
    ensures r.severity == Present(v)
    ensures r.feedCategory == f.feedCategory && r.category == f.category && r.analysed == f.analysed
  {
    f.(severity := Present(v))
  }

  /** The status select's value: absent `""`, true `"true"`, false `"false"`. */
  function EncodeStatus(o: Option<bool>): string {
    match o
    case None => ""
    case Some(b) => if b then "true" else "false"
  }

  /** The status `onChange`: `""` is absent, `"true"` is true, anything else is false. */
  function DecodeStatus(v: string): (o: Option<bool>)
    ensures o == None <==> v == ""
    ensures o == Some(true) <==> v == "true"
  {
    if v == "" then None else Some(v == "true")
  }

  function SetStatus(f: AlertFilters, v: string): (r: AlertFilters)
    ensures r.analysed == DecodeStatus(v)
    ensures r.feedCategory == f.feedCategory && r.category == f.category && r.severity == f.severity
  {
    f.(analysed := DecodeStatus(v))
  }

  /** Decoding the shown status gives back the filter, and encoding a chosen status item gives
      back the item: the status select neither loses nor invents a state. */
  lemma StatusRoundTrip(o: Option<bool>, item: string)
    ensures DecodeStatus(EncodeStatus(o)) == o
    ensures item in {"", "true", "false"} ==> EncodeStatus(DecodeStatus(item)) == item
  {
    if o == Some(false) {
      assert EncodeStatus(o) == "false" && "false" != "true";
    }
  }

  /** The filters the toolbar produces never hold an empty string. */
  ghost predicate NoEmptyValues(f: AlertFilters) {
    f.feedCategory != Some("") && f.category != Some("") && f.severity != Some("")
  }

  /** Every payload keeps `NoEmptyValues`, and re-choosing the value a select shows leaves
      the filters as they were. */
  lemma SettersKeepFilters(f: AlertFilters, v: string)
    requires NoEmptyValues(f)
    ensures NoEmptyValues(SetFeedCategory(f, v)) && NoEmptyValues(SetCategory(f, v))
    ensures NoEmptyValues(SetSeverity(f, v)) && NoEmptyValues(SetStatus(f, v))
    ensures SetFeedCategory(f, Shown(f.feedCategory)) == f
    ensures SetCategory(f, Shown(f.category)) == f
    ensures SetSeverity(f, Shown(f.severity)) == f
    ensures SetStatus(f, EncodeStatus(f.analysed)) == f
  {
    StatusRoundTrip(f.analysed, "");
  }

  function Values(g: seq<Bucket>): (vs: seq<string>)
    ensures |vs| == |g|
    ensures forall i :: 0 <= i < |g| ==> vs[i] == g[i].value
  {
    seq(|g|, i requires 0 <= i < |g| => g[i].value)
  }

  /** The option lists: the breakdown values in order, none before the stats arrive. */
  datatype Options = Options(feedCategories: seq<string>, categories: seq<string>, severities: seq<string>)

  function OptionsOf(stats: Option<AlertStats>): (o: Options)
    ensures stats.None? ==> o == Options([], [], [])
    ensures stats.Some? ==> o == Options(Values(stats.value.byFeedCategory),
                                         Values(stats.value.byCategory),
                                         Values(stats.value.bySeverity))
  {
    match stats
    case None => Options([], [], [])
    case Some(s) => Options(Values(s.byFeedCategory), Values(s.byCategory), Values(s.bySeverity))
  }

  /** The values of a breakdown are duplicate-free and are exactly the values counted. */
  lemma BreakdownValues(vs: seq<string>)
    ensures var o := Values(AlertsRouter.Breakdown(vs));
      && (forall i, j :: 0 <= i < j < |o| ==> o[i] != o[j])
      && (forall v :: v in o <==> v in vs)
  {
    var g := AlertsRouter.Breakdown(vs);
    AlertsRouter.BreakdownCorrect(vs);
    forall v ensures v in Values(g) <==> v in vs {
      if v in Values(g) {
        var i :| 0 <= i < |g| && Values(g)[i] == v;
        assert g[i] in g;
        assert multiset(vs)[v] >= 1;
      }
      if v in vs {
        assert v in AlertsRouter.ValueSet(g);
        var b :| b in g && b.value == v;
        var i :| 0 <= i < |g| && g[i] == b;
        assert Values(g)[i] == v;
      }
    }
    forall i, j | 0 <= i < j < |g| ensures Values(g)[i] != Values(g)[j] {
      assert AlertsRouter.BucketValue(g[i]) != AlertsRouter.BucketValue(g[j]);
    }
  }

  /** Over the backend's stats, every option list is duplicate-free, the feed list offers
      every stored feed category, and the category and severity lists never offer `""` (so
      choosing any of their items sets the key). */
  lemma OptionsOfStats(rows: seq<Alert>)
    ensures var o := OptionsOf(Some(AlertsRouter.AlertStatsOf(rows)));
      && (forall i, j :: 0 <= i < j < |o.feedCategories| ==> o.feedCategories[i] != o.feedCategories[j])
      && (forall i, j :: 0 <= i < j < |o.categories| ==> o.categories[i] != o.categories[j])
      && (forall i, j :: 0 <= i < j < |o.severities| ==> o.severities[i] != o.severities[j])
      && (forall v :: v in o.categories ==> v != "" && SetCategory(NoFilters, v).category == Some(v))
      && (forall v :: v in o.severities ==> v != "" && SetSeverity(NoFilters, v).severity == Some(v))
      && (forall a :: a in rows ==> a.feedCategory in o.feedCategories)
  {
    var fc := AlertsRouter.Column(rows, AlertsRouter.FeedCategoryOf, true);
    var sv := AlertsRouter.Column(rows, AlertsRouter.SeverityOf, false);
    var ct := AlertsRouter.Column(rows, AlertsRouter.CategoryOf, false);
    BreakdownValues(fc);
    BreakdownValues(sv);
    BreakdownValues(ct);
    assert multiset(sv)[""] == 0 && multiset(ct)[""] == 0;
    forall a | a in rows ensures a.feedCategory in fc {
      AlertsRouter.RowCounted(rows, AlertsRouter.FeedCategoryOf, a);
      assert multiset(fc)[a.feedCategory] > 0;
    }
  }

  /** `disabled={fetching}`. */
  predicate FetchDisabled(fetching: bool) {
    fetching
  }

  /** `disabled={analysing || !stats?.pending}`. */
  function AnalyseDisabled(analysing: bool, stats: Option<AlertStats>): (d: bool)
    ensures d <==> analysing || stats.None? || stats.value.pending == 0
  {
    analysing || match stats case None => true case Some(s) => s.pending == 0
  }

  /** Over the backend's stats, Analyse is enabled exactly when no analysis is running and
      some stored alert is still pending. */
  lemma AnalyseEnabledIffPending(rows: seq<Alert>, analysing: bool)
    ensures !AnalyseDisabled(analysing, Some(AlertsRouter.AlertStatsOf(rows)))
        <==> !analysing && exists a :: a in rows && !a.analysed
  {
    AlertsRouter.AlertStatsCorrect(rows);
    AlertsRouter.CountAnalysedAll(rows);
  }
}
