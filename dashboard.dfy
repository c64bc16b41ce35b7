/** The dashboard component (frontend/src/components/Dashboard.tsx): its state, the toast
    with its two timers, the four asynchronous actions, selection, and the sorted view.
    Every network call is replaced by the value it settled with (`Ok` for a resolved
    promise, `Err` with the text of the thrown error for a rejected one); each timer is a
    pending-event field that a `Tick` method fires. */
module Dashboard {
  import opened Wrappers
  import opened Models
  import opened Types
  import Api
  import SortEngine
  import Toolbar
  import AlertsRouter

  // ---------------------------------------------------------------- toast

  /** The toast: `toastMsg`, `toastVisible`, `toastExiting`, whether the 3500 ms timer held
      in `toastTimer` is still pending, and how many 250 ms removal timers are pending
      (those are never held anywhere, so nothing can cancel them). */
  datatype Toast = Toast(msg: Option<string>, visible: bool, exiting: bool, exitPending: bool, removalsPending: nat)

  const NoToast := Toast(None, false, false, false, 0)

  /** `showToast(m)`: cancels the pending exit timer, shows `m`, and starts a new exit
      timer; removal timers already started keep running. */
  function ToastShow(t: Toast, m: string): (r: Toast)
    ensures r.msg == Some(m) && r.visible && !r.exiting
    ensures r.exitPending && r.removalsPending == t.removalsPending
  {
    Toast(Some(m), true, false, true, t.removalsPending)
  }

  /** The 3500 ms timer fires: the toast starts its exit and a removal timer starts. */
  function ToastFireExit(t: Toast): (r: Toast)
    requires t.exitPending
    ensures r.exiting && !r.exitPending && r.removalsPending == t.removalsPending + 1
    ensures r.msg == t.msg && r.visible == t.visible
  {
    t.(exiting := true, exitPending := false, removalsPending := t.removalsPending + 1)
  }

  /** A 250 ms timer fires: the toast is removed, whichever message it now shows. */
  function ToastFireRemoval(t: Toast): (r: Toast)
    requires t.removalsPending > 0
    ensures r.msg == None && !r.visible && !r.exiting
    ensures r.exitPending == t.exitPending && r.removalsPending == t.removalsPending - 1
  {
    Toast(None, false, false, t.exitPending, t.removalsPending - 1)
  }

  /** A toast is on screen exactly when it has a message, and a toast on screen always has
      a timer pending that will take it down. */
  ghost predicate ToastInv(t: Toast) {
    && (t.visible <==> t.msg.Some?)
    && (t.visible ==> t.exitPending || t.removalsPending > 0)
  }

  lemma ToastTransitionsKeepInv(t: Toast, m: string)
    requires ToastInv(t)
    ensures ToastInv(ToastShow(t, m))
    ensures t.exitPending ==> ToastInv(ToastFireExit(t))
    ensures t.removalsPending > 0 ==> ToastInv(ToastFireRemoval(t))
  {
  }

  /** Only the last message shown matters while the exit timer is pending: showing twice
      is showing the second message once. */
  lemma ToastShowTwice(t: Toast, a: string, b: string)
    ensures ToastShow(ToastShow(t, a), b) == ToastShow(t, b)
  {
  }

  /** The removal timer of an earlier toast is not cancelled by a later `showToast`: if `b`
      is shown during `a`'s exit animation, `a`'s removal takes `b` down at once, while
      `b`'s own exit timer is still pending. */
  lemma StaleRemovalHidesNewToast(t: Toast, a: string, b: string)
    ensures var r := ToastFireRemoval(ToastShow(ToastFireExit(ToastShow(t, a)), b));
      r.msg == None && !r.visible && r.exitPending && r.removalsPending == t.removalsPending
  {
  }

  // ---------------------------------------------------------------- state

  /** Every `useState` of the component, the toast collected in one value. */
  datatype View = View(
    stats: Option<AlertStats>,
    alerts: seq<Alert>,
    selected: Option<Alert>,
    filters: AlertFilters,
    sortKey: SortKey,
    loadingStats: bool,
    loadingAlerts: bool,
    fetching: bool,
    analysing: bool,
    lastFetched: Option<int>,
    toast: Toast
  )

  /** The first render. */
  const Initial := View(None, [], None, NoFilters, PublishedDate, true, true, false, false, None, NoToast)

  /** `${err}`: how a caught error from the API client reads in a toast. */
  function Caught<T>(r: Result<T, string>): Result<T, string> {
    match r
    case Ok(v) => Ok(v)
    case Err(message) => Err(Api.ErrorText(message))
  }

  /** `loadStats`: the flag is set, then cleared whatever happened; on failure the stats are
      kept and a toast says why. */
  function LoadStatsStep(v: View, outcome: Result<AlertStats, string>): View {
    match outcome
    case Ok(s) => v.(stats := Some(s), loadingStats := false)
    case Err(e) => v.(toast := ToastShow(v.toast, "Failed to load stats: " + e), loadingStats := false)
  }

  /** `loadAlerts`: likewise for the list. */
  function LoadAlertsStep(v: View, outcome: Result<AlertsListResponse, string>): View {
    match outcome
    case Ok(res) => v.(alerts := res.alerts, loadingAlerts := false)
    case Err(e) => v.(toast := ToastShow(v.toast, "Failed to load alerts: " + e), loadingAlerts := false)
  }

  function FetchedMessage(r: IngestResult): string {
    "Fetched " + Api.NumberToString(r.feedsFetched) + " feeds — " + Api.NumberToString(r.newAlerts)
    + " new alerts, " + Api.NumberToString(r.duplicatesSkipped) + " duplicates skipped"
  }

  /** `handleFetch`: the `fetching` flag is set while the request runs; on success a summary
      toast, `lastFetched` set to `now`, then both reloads (which catch their own errors); on
      failure only the error toast; the flag is cleared in either case. */
  function FetchStep(v: View, outcome: Result<IngestResult, string>, now: int,
                     statsOutcome: Result<AlertStats, string>,
                     alertsOutcome: Result<AlertsListResponse, string>): View {
    match outcome
    case Ok(r) => FetchResolvedStep(v.(fetching := true), r, now, statsOutcome, alertsOutcome).(fetching := false)
    case Err(e) => v.(toast := ToastShow(v.toast, "Fetch failed: " + e), fetching := false)
  }

  /** The success path of `handleFetch` once the request resolved with `r`. */
  function FetchResolvedStep(v: View, r: IngestResult, now: int, statsOutcome: Result<AlertStats, string>,
                             alertsOutcome: Result<AlertsListResponse, string>): View {
    var shown := v.(toast := ToastShow(v.toast, FetchedMessage(r)), lastFetched := Some(now));
    LoadAlertsStep(LoadStatsStep(shown, statsOutcome), alertsOutcome)
  }

  /** `stats?.pending ?? 10`: the batch size `handleAnalyse` asks for. */
  function AnalyseLimit(stats: Option<AlertStats>): (n: int)
    ensures stats.None? ==> n == 10
    ensures stats.Some? ==> n == stats.value.pending
  {
    match stats
    case Some(s) => s.pending
    case None => 10
  }

  /** `selectedAlert && result.analysed_ids.includes(selectedAlert.id)`. */
  predicate SelectedIn(selected: Option<Alert>, ids: seq<int>) {
    selected.Some? && selected.value.id.Some? && selected.value.id.value in ids
  }

  /** `alerts.find((a) => a.id === id)`. */
  function FindById(s: seq<Alert>, id: int): (r: Option<Alert>)
    ensures r.None? <==> forall a :: a in s ==> a.id != Some(id)
    ensures r.Some? ==> exists k :: 0 <= k < |s| && s[k] == r.value && r.value.id == Some(id)
                                    && forall j :: 0 <= j < k ==> s[j].id != Some(id)
  {
    if s == [] then None
    else if s[0].id == Some(id) then Some(s[0])
    else
      var r := FindById(s[1..], id);
      assert forall a :: a in s ==> a == s[0] || a in s[1..];
      assert forall j :: 1 <= j < |s| ==> s[j] == s[1..][j - 1];
      r
  }

  /** `handleAnalyse`: asks for `AnalyseLimit(v.stats)` with the `analysing` flag set, cleared
      in either case; on success a toast, both reloads, and
      then the selection is re-resolved, but from `v.alerts`, the list captured when the
      handler started, not the reloaded one. */
  function AnalyseStep(v: View, outcome: Result<AnalyseResult, string>,
                       statsOutcome: Result<AlertStats, string>,
                       alertsOutcome: Result<AlertsListResponse, string>): View {
    match outcome
    case Ok(r) => AnalyseResolvedStep(v.(analysing := true), r, statsOutcome, alertsOutcome, v.alerts, v.selected).(analysing := false)
    case Err(e) => v.(toast := ToastShow(v.toast, "Analysis failed: " + e), analysing := false)
  }

  /** The success path of `handleAnalyse` once the request resolved with `r`: a toast, both
      reloads, then the selection re-resolved from `captured` and `selection`, the values the
      handler's closure holds. */
  function AnalyseResolvedStep(v: View, r: AnalyseResult, statsOutcome: Result<AlertStats, string>,
                               alertsOutcome: Result<AlertsListResponse, string>,
                               captured: seq<Alert>, selection: Option<Alert>): View {
    var shown := v.(toast := ToastShow(v.toast, "Analysed " + Api.NumberToString(r.analysedCount) + " alerts"));
    var reloaded := LoadAlertsStep(LoadStatsStep(shown, statsOutcome), alertsOutcome);
    reloaded.(selected :=
      if SelectedIn(selection, r.analysedIds) && FindById(captured, selection.value.id.value).Some?
      then FindById(captured, selection.value.id.value)
      else reloaded.selected)
  }

  /** `handleSelect(id)` and the detail panel's close. */
  function SelectStep(v: View, id: int): View {
    v.(selected := FindById(v.alerts, id))
  }

  function CloseStep(v: View): View {
    v.(selected := None)
  }

  // ---------------------------------------------------------------- properties

  /** Each action clears its own flag on success and on failure alike. */
  lemma FlagsCleared(v: View, so: Result<AlertStats, string>, ao: Result<AlertsListResponse, string>,
                     fo: Result<IngestResult, string>, now: int, an: Result<AnalyseResult, string>)
    ensures !LoadStatsStep(v, so).loadingStats
    ensures !LoadAlertsStep(v, ao).loadingAlerts
    ensures !FetchStep(v, fo, now, so, ao).fetching
    ensures !AnalyseStep(v, an, so, ao).analysing
    ensures fo.Ok? ==> var w := FetchStep(v, fo, now, so, ao); !w.loadingStats && !w.loadingAlerts
    ensures an.Ok? ==> var w := AnalyseStep(v, an, so, ao); !w.loadingStats && !w.loadingAlerts
  {
  }

  /** A failed action keeps the data it would have replaced and shows its error behind its
      own prefix. */
  lemma FailuresKeepData(v: View, e: string, so: Result<AlertStats, string>,
                         ao: Result<AlertsListResponse, string>, now: int)
    ensures var w := LoadStatsStep(v, Err(e));
      w.stats == v.stats && w.alerts == v.alerts && w.toast.msg == Some("Failed to load stats: " + e)
    ensures var w := LoadAlertsStep(v, Err(e));
      w.stats == v.stats && w.alerts == v.alerts && w.toast.msg == Some("Failed to load alerts: " + e)
    ensures var w := FetchStep(v, Err(e), now, so, ao);
      && w.stats == v.stats && w.alerts == v.alerts && w.lastFetched == v.lastFetched
      && w.selected == v.selected && w.toast.msg == Some("Fetch failed: " + e)
    ensures var w := AnalyseStep(v, Err(e), so, ao);
      && w.stats == v.stats && w.alerts == v.alerts && w.selected == v.selected
      && w.toast.msg == Some("Analysis failed: " + e)
  {
  }

  /** A successful fetch records `now` and reloads both stats and alerts from the results
      of the two reload requests. */
  lemma FetchSuccessReloads(v: View, r: IngestResult, now: int, so: Result<AlertStats, string>,
                            ao: Result<AlertsListResponse, string>)
    ensures var w := FetchStep(v, Ok(r), now, so, ao);
      && w.lastFetched == Some(now)
      && w.stats == (if so.Ok? then Some(so.value) else v.stats)
      && w.alerts == (if ao.Ok? then ao.value.alerts else v.alerts)
      && w.selected == v.selected && w.filters == v.filters
      && w.toast.msg == Some(if ao.Err? then "Failed to load alerts: " + ao.error
                             else if so.Err? then "Failed to load stats: " + so.error
                             else FetchedMessage(r))
  {
  }

  /** The selection after a successful analysis: replaced only when the selected id was
      analysed and occurs in the list captured at the start, and then by that list's
      element. */
  lemma AnalyseSelection(v: View, r: AnalyseResult, so: Result<AlertStats, string>,
                         ao: Result<AlertsListResponse, string>)
    ensures var w := AnalyseStep(v, Ok(r), so, ao);
      && (!SelectedIn(v.selected, r.analysedIds) ==> w.selected == v.selected)
      && (SelectedIn(v.selected, r.analysedIds) ==>
            var found := FindById(v.alerts, v.selected.value.id.value);
            w.selected == (if found.Some? then found else v.selected)
            && (found.Some? ==> w.selected.value in v.alerts))
      && w.alerts == (if ao.Ok? then ao.value.alerts else v.alerts)
  {
  }

  /** The consequence of re-resolving from the captured list: when the selection was made
      from the current list, a successful analysis leaves the selection exactly as it was,
      however the reloaded list classifies that alert. */
  lemma {:induction false} AnalyseKeepsStaleSelection(v: View, id: int, r: AnalyseResult,
                                                      so: Result<AlertStats, string>,
                                                      ao: Result<AlertsListResponse, string>)
    requires v.selected == FindById(v.alerts, id)
    ensures AnalyseStep(v, Ok(r), so, ao).selected == v.selected
  {
    if v.selected.Some? {
      var k :| 0 <= k < |v.alerts| && v.alerts[k] == v.selected.value && v.selected.value.id == Some(id)
               && forall j :: 0 <= j < k ==> v.alerts[j].id != Some(id);
      assert v.selected.value.id.value == id;
    }
  }

  /** Selecting an id shows the first alert of the list with that id, or nothing when no
      alert has it; closing clears the selection. */
  lemma SelectAndClose(v: View, id: int)
    ensures var w := SelectStep(v, id);
      && (w.selected.None? <==> forall a :: a in v.alerts ==> a.id != Some(id))
      && (w.selected.Some? ==> w.selected.value in v.alerts && w.selected.value.id == Some(id))
      && w.alerts == v.alerts && w.stats == v.stats && w.toast == v.toast
    ensures CloseStep(v).selected == None
  {
    var w := SelectStep(v, id);
    if w.selected.Some? {
      var k :| 0 <= k < |v.alerts| && v.alerts[k] == w.selected.value && w.selected.value.id == Some(id)
               && forall j :: 0 <= j < k ==> v.alerts[j].id != Some(id);
    }
  }

  lemma LoadsKeepToastInv(v: View, so: Result<AlertStats, string>, ao: Result<AlertsListResponse, string>)
    requires ToastInv(v.toast)
    ensures ToastInv(LoadStatsStep(v, so).toast) && ToastInv(LoadAlertsStep(v, ao).toast)
    ensures ToastInv(LoadAlertsStep(LoadStatsStep(v, so), ao).toast)
  {
    var w := LoadStatsStep(v, so);
    if so.Err? {
      ToastTransitionsKeepInv(v.toast, "Failed to load stats: " + so.error);
    }
    if ao.Err? {
      ToastTransitionsKeepInv(v.toast, "Failed to load alerts: " + ao.error);
      ToastTransitionsKeepInv(w.toast, "Failed to load alerts: " + ao.error);
    }
  }

  /** `handleFetch` and `handleAnalyse` keep the toast invariant, whatever their calls return. */
  lemma FetchKeepsToastInv(v: View, fo: Result<IngestResult, string>, now: int,
                           so: Result<AlertStats, string>, ao: Result<AlertsListResponse, string>)
    requires ToastInv(v.toast)
    ensures ToastInv(FetchStep(v, fo, now, so, ao).toast)
  {
    match fo {
      case Ok(r) =>
        ToastTransitionsKeepInv(v.toast, FetchedMessage(r));
        LoadsKeepToastInv(v.(fetching := true, toast := ToastShow(v.toast, FetchedMessage(r)), lastFetched := Some(now)), so, ao);
      case Err(e) =>
        ToastTransitionsKeepInv(v.toast, "Fetch failed: " + e);
    }
  }

  lemma AnalyseKeepsToastInv(v: View, an: Result<AnalyseResult, string>,
                             so: Result<AlertStats, string>, ao: Result<AlertsListResponse, string>)
    requires ToastInv(v.toast)
    ensures ToastInv(AnalyseStep(v, an, so, ao).toast)
  {
    match an {
      case Ok(r) =>
        var m := "Analysed " + Api.NumberToString(r.analysedCount) + " alerts";
        ToastTransitionsKeepInv(v.toast, m);
        var w := LoadAlertsStep(LoadStatsStep(v.(analysing := true, toast := ToastShow(v.toast, m)), so), ao);
        LoadsKeepToastInv(v.(analysing := true, toast := ToastShow(v.toast, m)), so, ao);
        assert AnalyseStep(v, an, so, ao).toast == w.toast;
      case Err(e) =>
        ToastTransitionsKeepInv(v.toast, "Analysis failed: " + e);
    }
  }

  /** An error reported by the API client reaches the toast as `Error: API <status>: <body>`
      behind the action's prefix. */
  lemma ApiErrorToast(v: View, res: Api.Response<AlertsListResponse>)
    requires !Api.StatusOk(res.status)
    ensures LoadAlertsStep(v, Caught(Api.Json(res))).toast.msg
         == Some("Failed to load alerts: Error: API " + Api.NumberToString(res.status) + ": " + res.body)
  {
    var n := Api.NumberToString(res.status);
    assert "Failed to load alerts: " + Api.ErrorText(Api.StatusMessage(res.status, res.body))
        == "Failed to load alerts: Error: API " + n + ": " + res.body;
  }

  /** The analysis request against the backend's bound: with the backend's stats loaded and
      the button enabled, the request is accepted exactly when at most 200 alerts are
      pending, so a backlog above 200 makes every analysis fail with 422 until it shrinks;
      without stats the default of 10 is always accepted. */
  lemma AnalyseRequestBound(rows: seq<Alert>)
    ensures AlertsRouter.LimitInRange(AnalyseLimit(None))
    ensures var stats := Some(AlertsRouter.AlertStatsOf(rows));
      !Toolbar.AnalyseDisabled(false, stats) ==>
        (AlertsRouter.LimitInRange(AnalyseLimit(stats)) <==> |rows| - AlertsRouter.CountAnalysed(rows) <= 200)
  {
    AlertsRouter.AlertStatsCorrect(rows);
  }

  /** The backend decodes from a `fetchAlerts` request exactly the filters the client
      sent: those of `f` without its `""` values, which `qs` drops; with no such value it
      decodes `f` itself. */
  lemma {:induction false} FiltersRoundTrip(f: AlertFilters, limit: int, offset: int)
    ensures AlertsRouter.DecodeFilters(Api.QueryPairs(Api.FetchAlertsParams(f, limit, offset)))
         == Ok(Api.SentFilters(f))
    ensures Toolbar.NoEmptyValues(f) ==> Api.SentFilters(f) == f
  {
    Api.FetchAlertsQuery(f, limit, offset);
    var tail := [("limit", Api.NumberToString(limit)), ("offset", Api.NumberToString(offset))];
    PageLookups(Api.FilterPairs(f), tail);
    FilterLookups(f);
    DecodeFromLookups(Api.FilterPairs(f) + tail, Api.SentFilters(f));
  }

  /** The `limit` and `offset` pairs leave every filter key's value alone. */
  lemma PageLookups(fp: seq<(string, string)>, tail: seq<(string, string)>)
    requires |tail| == 2 && tail[0].0 == "limit" && tail[1].0 == "offset"
    ensures AlertsRouter.Lookup(fp + tail, "feed_category") == AlertsRouter.Lookup(fp, "feed_category")
    ensures AlertsRouter.Lookup(fp + tail, "category") == AlertsRouter.Lookup(fp, "category")
    ensures AlertsRouter.Lookup(fp + tail, "severity") == AlertsRouter.Lookup(fp, "severity")
    ensures AlertsRouter.Lookup(fp + tail, "analysed") == AlertsRouter.Lookup(fp, "analysed")
  {
    assert forall p :: p in tail ==> p.0[0] == 'l' || p.0[0] == 'o';
    AlertsRouter.LookupBeforeTail(fp, tail, "feed_category");
    AlertsRouter.LookupBeforeTail(fp, tail, "category");
    AlertsRouter.LookupBeforeTail(fp, tail, "severity");
    AlertsRouter.LookupBeforeTail(fp, tail, "analysed");
  }

  /** The filters decoded from any pairs whose lookups give `g`'s values, with `analysed`
      rendered as `"true"` or `"false"`. */
  lemma DecodeFromLookups(pairs: seq<(string, string)>, g: AlertFilters)
    requires AlertsRouter.Lookup(pairs, "feed_category") == g.feedCategory
    requires AlertsRouter.Lookup(pairs, "category") == g.category
    requires AlertsRouter.Lookup(pairs, "severity") == g.severity
    requires AlertsRouter.Lookup(pairs, "analysed")
          == (if g.analysed.None? then None else Some(if g.analysed.value then "true" else "false"))
    ensures AlertsRouter.DecodeFilters(pairs) == Ok(g)
  {
    if g.analysed.Some? {
      AlertsRouter.ParseBoolRendered();
      assert AlertsRouter.ParseBool(AlertsRouter.Lookup(pairs, "analysed").value) == g.analysed;
    }
  }

  /** What is bound for each filter key from the filter pairs alone. */
  lemma FilterLookups(f: AlertFilters)
    ensures AlertsRouter.Lookup(Api.FilterPairs(f), "feed_category") == Api.Sent(f.feedCategory)
    ensures AlertsRouter.Lookup(Api.FilterPairs(f), "category") == Api.Sent(f.category)
    ensures AlertsRouter.Lookup(Api.FilterPairs(f), "severity") == Api.Sent(f.severity)
    ensures AlertsRouter.Lookup(Api.FilterPairs(f), "analysed")
         == (if f.analysed.None? then None else Some(if f.analysed.value then "true" else "false"))
  {
    Api.FilterPairsMembers(f);
    var fp := Api.FilterPairs(f);
    LookupSent(fp, "feed_category", f.feedCategory);
    LookupSent(fp, "category", f.category);
    LookupSent(fp, "severity", f.severity);
    LookupAnalysed(fp, f.analysed);
  }

  /** The value bound for `analysed` when its pairs are those of the boolean filter. */
  lemma LookupAnalysed(pairs: seq<(string, string)>, b: Option<bool>)
    requires forall c :: ("analysed", c) in pairs <==>
      (b == Some(true) && c == "true") || (b == Some(false) && c == "false")
    ensures AlertsRouter.Lookup(pairs, "analysed") == (if b.None? then None else Some(if b.value then "true" else "false"))
  {
    if b.Some? {
      assert ("analysed", if b.value then "true" else "false") in pairs;
    }
  }

  /** The value bound for a key whose pairs are those of one optional string filter. */
  lemma LookupSent(pairs: seq<(string, string)>, k: string, o: Option<string>)
    requires forall c :: (k, c) in pairs <==> o == Some(c) && c != ""
    ensures AlertsRouter.Lookup(pairs, k) == Api.Sent(o)
  {
    var r := AlertsRouter.Lookup(pairs, k);
    if o.Some? && o.value != "" {
      assert (k, o.value) in pairs;
    }
  }

  /** `loadAlerts` asks for the first page of 200 for the current filters; every alert it
      then shows is a stored row satisfying every filter the backend received, and these
      are the dashboard's own filters whenever none of them holds `""`. */
  lemma LoadedAlertsMatchFilters(v: View, rows: seq<Alert>)
    requires Persisted(rows)
    ensures var sent := AlertsRouter.DecodeFilters(Api.QueryPairs(Api.FetchAlertsParams(v.filters, 200, 0)));
      && sent == Ok(Api.SentFilters(v.filters))
      && AlertsRouter.ListAlerts(rows, sent.value, 200, 0).Ok?
      && var w := LoadAlertsStep(v, Ok(AlertsRouter.ListAlerts(rows, sent.value, 200, 0).value));
         |w.alerts| <= 200 && forall a :: a in w.alerts ==> a in rows && AlertsRouter.Matches(sent.value, a)
    ensures Toolbar.NoEmptyValues(v.filters) ==> Api.SentFilters(v.filters) == v.filters
  {
    FiltersRoundTrip(v.filters, 200, 0);
    AlertsRouter.ListAlertsContents(rows, Api.SentFilters(v.filters), 200, 0);
  }

  // ---------------------------------------------------------------- the component

  class Component {
    var stats: Option<AlertStats>
    var alerts: seq<Alert>
    var selectedAlert: Option<Alert>
    var filters: AlertFilters
    var sortKey: SortKey
    var loadingStats: bool
    var loadingAlerts: bool
    var fetching: bool
    var analysing: bool
    var lastFetched: Option<int>
    var toastMsg: Option<string>
    var toastVisible: bool
    var toastExiting: bool
    var exitTimerPending: bool
    var removalTimersPending: nat
    /** The date parser behind `new Date(s).getTime()`. */
    const parseDate: string -> int

    function CurrentToast(): Toast
      reads this`toastMsg, this`toastVisible, this`toastExiting, this`exitTimerPending, this`removalTimersPending
    {
      Toast(toastMsg, toastVisible, toastExiting, exitTimerPending, removalTimersPending)
    }

    function State(): View
      reads this
    {
      View(stats, alerts, selectedAlert, filters, sortKey, loadingStats, loadingAlerts, fetching,
           analysing, lastFetched, CurrentToast())
    }

    /** The toast invariant, which reads nothing but the toast's fields. */
    ghost predicate Valid()
      reads this`toastMsg, this`toastVisible, this`toastExiting, this`exitTimerPending, this`removalTimersPending
    {
      ToastInv(CurrentToast())
    }

    constructor (parseDate: string -> int)
      ensures State() == Initial && Valid() && this.parseDate == parseDate
    {
      stats, alerts, selectedAlert, filters, sortKey := None, [], None, NoFilters, PublishedDate;
      loadingStats, loadingAlerts, fetching, analysing, lastFetched := true, true, false, false, None;
      toastMsg, toastVisible, toastExiting, exitTimerPending, removalTimersPending := None, false, false, false, 0;
      this.parseDate := parseDate;
    }

    /** `sortedAlerts`: a sorted copy; `alerts` itself is left as it is. */
    function SortedAlerts(): (r: seq<Alert>)
      reads this
      ensures multiset(r) == multiset(alerts) && |r| == |alerts|
      ensures SortEngine.SortedBy(sortKey, parseDate, r)
    {
      SortEngine.SortAlertsSorted(sortKey, parseDate, alerts);
      SortEngine.SortAlerts(sortKey, parseDate, alerts)
    }

    method ShowToast(msg: string)
      requires Valid()
      modifies this
      ensures Valid()
      ensures State() == old(State()).(toast := ToastShow(old(CurrentToast()), msg))
    {
      if exitTimerPending {
        exitTimerPending := false;   // clearTimeout(toastTimer.current)
      }
      toastExiting := false;
      toastMsg := Some(msg);
      toastVisible := true;
      exitTimerPending := true;      // toastTimer.current = setTimeout(..., 3500)
    }

    /** The 3500 ms timer fires. */
    method TickToastExit()
      requires exitTimerPending
      requires Valid()
      modifies this
      ensures Valid()
      ensures State() == old(State()).(toast := ToastFireExit(old(CurrentToast())))
    {
      exitTimerPending := false;
      toastExiting := true;
      removalTimersPending := removalTimersPending + 1;   // setTimeout(..., 250)
    }

    /** A 250 ms timer fires. */
    method TickToastRemoval()
      requires removalTimersPending > 0
      requires Valid()
      modifies this
      ensures Valid()
      ensures State() == old(State()).(toast := ToastFireRemoval(old(CurrentToast())))
    {
      removalTimersPending := removalTimersPending - 1;
      toastVisible := false;
      toastExiting := false;
      toastMsg := None;
    }

    method LoadStats(outcome: Result<AlertStats, string>)
      requires Valid()
      modifies this
      ensures Valid()
      ensures State() == LoadStatsStep(old(State()), outcome)
    {
      loadingStats := true;
      match outcome {
        case Ok(s) => stats := Some(s);
        case Err(e) => ShowToast("Failed to load stats: " + e);
      }
      loadingStats := false;
    }

    /** Returns the URL the request went to. */
    method LoadAlerts(outcome: Result<AlertsListResponse, string>) returns (url: string)
      requires Valid()
      modifies this
      ensures Valid()
      ensures url == Api.FetchAlertsUrl(old(filters), 200, 0)
      ensures State() == LoadAlertsStep(old(State()), outcome)
    {
      loadingAlerts := true;
      url := Api.FetchAlertsUrl(filters, 200, 0);
      match outcome {
        case Ok(res) => alerts := res.alerts;
        case Err(e) => ShowToast("Failed to load alerts: " + e);
      }
      loadingAlerts := false;
    }

    /** `Promise.all([loadStats(), loadAlerts()])`, the stats settling first. */
    method ReloadBoth(statsOutcome: Result<AlertStats, string>,
                      alertsOutcome: Result<AlertsListResponse, string>)
      requires Valid()
      modifies this
      ensures Valid()
      ensures State() == LoadAlertsStep(LoadStatsStep(old(State()), statsOutcome), alertsOutcome)
    {
      LoadStats(statsOutcome);
      var _ := LoadAlerts(alertsOutcome);
    }

    /** The rest of `handleFetch`'s `try` once `triggerFetch` resolved with `r`. */
    method FetchResolved(r: IngestResult, now: int, statsOutcome: Result<AlertStats, string>,
                         alertsOutcome: Result<AlertsListResponse, string>)
      requires Valid()
      modifies this
      ensures Valid()
      ensures State() == FetchResolvedStep(old(State()), r, now, statsOutcome, alertsOutcome)
    {
      ShowToast(FetchedMessage(r));
      lastFetched := Some(now);
      ReloadBoth(statsOutcome, alertsOutcome);
    }

    method HandleFetch(outcome: Result<IngestResult, string>, now: int,
                       statsOutcome: Result<AlertStats, string>,
                       alertsOutcome: Result<AlertsListResponse, string>)
      requires Valid()
      modifies this
      ensures Valid()
      ensures State() == FetchStep(old(State()), outcome, now, statsOutcome, alertsOutcome)
    {
      SetFetching(true);
      match outcome {
        case Ok(r) =>
          FetchResolved(r, now, statsOutcome, alertsOutcome);
        case Err(e) =>
          ShowToast("Fetch failed: " + e);
      }
      SetFetching(false);
    }

    /** `setFetching(b)`. */
    method SetFetching(b: bool)
      requires Valid()
      modifies this
      ensures Valid()
      ensures State() == old(State()).(fetching := b)
    {
      fetching := b;
    }

    /** Returns the URL the analysis request went to. */
    method HandleAnalyse(outcome: Result<AnalyseResult, string>,
                         statsOutcome: Result<AlertStats, string>,
                         alertsOutcome: Result<AlertsListResponse, string>)
      returns (url: string)
      requires Valid()
      modifies this
      ensures Valid()
      ensures url == Api.TriggerAnalyseUrl(AnalyseLimit(old(stats)))
      ensures State() == AnalyseStep(old(State()), outcome, statsOutcome, alertsOutcome)
    {
      // the handler's closure: the values of this render
      var capturedAlerts, capturedSelected := alerts, selectedAlert;
      SetAnalysing(true);
      url := Api.TriggerAnalyseUrl(AnalyseLimit(stats));
      match outcome {
        case Ok(r) =>
          AnalyseResolved(r, statsOutcome, alertsOutcome, capturedAlerts, capturedSelected);
        case Err(e) =>
          ShowToast("Analysis failed: " + e);
      }
      SetAnalysing(false);
    }

    /** `setAnalysing(b)`. */
    method SetAnalysing(b: bool)
      requires Valid()
      modifies this
      ensures Valid()
      ensures State() == old(State()).(analysing := b)
    {
      analysing := b;
    }

    /** The rest of `handleAnalyse`'s `try` once `triggerAnalyse` resolved with `r`, with the
        alerts and selection the handler captured. */
    method AnalyseResolved(r: AnalyseResult, statsOutcome: Result<AlertStats, string>,
                           alertsOutcome: Result<AlertsListResponse, string>,
                           captured: seq<Alert>, selection: Option<Alert>)
      requires Valid()
      modifies this
      ensures Valid()
      ensures State() == AnalyseResolvedStep(old(State()), r, statsOutcome, alertsOutcome, captured, selection)
    {
      ShowToast("Analysed " + Api.NumberToString(r.analysedCount) + " alerts");
      ReloadBoth(statsOutcome, alertsOutcome);
      Reselect(captured, selection, r.analysedIds);
    }

    /** The tail of `handleAnalyse`: if the selection (as captured) was analysed, look it up
        again in the captured list and select what is found. */
    method Reselect(captured: seq<Alert>, selection: Option<Alert>, ids: seq<int>)
      requires Valid()
      modifies this
      ensures Valid()
      ensures State() == old(State()).(selected :=
        if SelectedIn(selection, ids) && FindById(captured, selection.value.id.value).Some?
        then FindById(captured, selection.value.id.value) else old(selectedAlert))
    {
      if SelectedIn(selection, ids) {
        var updated := FindById(captured, selection.value.id.value);
        if updated.Some? {
          selectedAlert := updated;
        }
      }
    }

    method HandleSelect(id: int)
      requires Valid()
      modifies this
      ensures Valid()
      ensures State() == SelectStep(old(State()), id)
    {
      selectedAlert := FindById(alerts, id);
    }

    method Close()
      requires Valid()
      modifies this
      ensures Valid()
      ensures State() == CloseStep(old(State()))
    {
      selectedAlert := None;
    }

    /** `onFilterChange`: the new filters object makes `loadAlerts` run again. */
    method ChangeFilters(f: AlertFilters, alertsOutcome: Result<AlertsListResponse, string>)
      returns (url: string)
      requires Valid()
      modifies this
      ensures Valid()
      ensures url == Api.FetchAlertsUrl(f, 200, 0)
      ensures State() == LoadAlertsStep(old(State()).(filters := f), alertsOutcome)
    {
      filters := f;
      url := LoadAlerts(alertsOutcome);
    }

    method ChangeSortKey(k: SortKey)
      requires Valid()
      modifies this
      ensures Valid()
      ensures State() == old(State()).(sortKey := k)
    {
      sortKey := k;
    }
  }
}
