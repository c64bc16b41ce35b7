# Regulatory alerts dashboard — a Dafny model

This project models the logic of a regulatory-alert dashboard. The back end ingests the RSS
feeds of the Guernsey Financial Services Commission, stores one alert row per new link, and
has a language model classify pending alerts in batches. The React front end lists, filters,
sorts and inspects those alerts.

The model covers seven source files, one Dafny module for each and a few shared modules:

- `models.dfy` (`Models`): the alert row. It states the field defaults, the primary-key
  invariant `Persisted`, and the unique-link invariant `LinksUnique`.
- `types.dfy` (`Types`): the records exchanged over HTTP: filters, list response, stats
  with buckets, ingest result, analyse result and sort key.
- `wrappers.dfy` (`Wrappers`): `Option` and `Result`.
- `sorting.dfy` (`Sorting`) and `sql.dfy` (`Sql`): the query semantics the back end relies
  on. `WHERE`, the stable `ORDER BY`, `OFFSET` and `LIMIT`, and the page that results.
- `feed_service.dfy` (`FeedService`): `_parse_entry`, and `fetch_and_store` as an
  imperative loop over feeds and entries. It is proved equal to a fold (`Ingest`) whose
  invariants give the counter balance and the deduplication guarantees.
- `alerts_router.dfy` (`AlertsRouter`): the four routes: listing, stats, single alert, and
  the analyse trigger. Out-of-range query parameters give a 422 error value.
- `agent.dfy` (`Agent`): `analyse_pending_alerts` as a method on a class that owns the
  table rows. Each candidate gets an oracle answer, and the method commits or rolls back
  for each one.
- `api.dfy` (`Api`): `qs`, the URLs of the client calls, and the status check in `json`.
- `toolbar.dfy` (`Toolbar`): the filter payload builders, the `__all__` placeholder, the
  status encoding, the option lists, and the two `disabled` predicates.
- `sort_engine.dfy` (`SortEngine`): the client-side comparator for the three sort keys,
  and a stable sort with the ordering and stability lemmas for each key.
- `dashboard.dfy` (`Dashboard`): the component.
  - Pure step functions over a `View` of all its state, with the lemmas about them.
  - A class `Component` with one field per `useState`. Its methods are proved to perform
    exactly those steps, and each keeps the toast invariant `Valid()`.
  - The toast's two timers are pending-event fields, fired by `Tick` methods.
  - Network results are parameters: `Ok` for a resolved call, `Err` with the text of the
    caught error for a rejected one.

External effects become inputs:
- the parsed feeds are a sequence of per-feed outcomes;
- the links already stored are a set;
- the language model is an oracle `Alert -> Option<AlertClassification>`, where `None` is
  any exception during classification or commit;
- date parsing is a parameter `string -> int`;
- the clock readings (`created_at`, `lastFetched`) are parameters.

## Model

| member | source | states |
|---|---|---|
| Models.NewAlert | backend/models.py:12-35 | a new row has no id, is not analysed and has every classification field at its empty default; title, link, source, feed category, published date, raw content and creation time are the given ones |
| Sorting.SortByKeyAscending | backend/routers/alerts.py:65 | the ordered rows are ascending by the key |
| Sorting.SortByKeyStable | backend/routers/alerts.py:85 | rows with equal keys keep their input order |
| Sorting.SortByKeyStrictlyAscending | backend/models.py:13 | with pairwise distinct ids the order is strictly ascending |
| Sorting.SortByKeyCountBelow | backend/routers/alerts.py:65 | ordering does not change how many rows lie below a key |
| Sorting.PositionIsCountBelow | backend/routers/alerts.py:65 | in a strictly ascending sequence, an element's position is the number of elements below it |
| Sql.Where | backend/routers/alerts.py:56-63 | a row is kept exactly when it satisfies the predicate |
| Sql.OffsetLimit | backend/routers/alerts.py:65 | the result is the rows from `offset` on, at most `limit` of them, with the exact length |
| Sql.SelectPageWindow | backend/routers/alerts.py:54-66 | a page holds exactly the matching rows whose rank lies in `[offset, offset + limit)`, in strictly ascending id order |
| AlertsRouter.Lookup | backend/routers/alerts.py:45-50 | a key is bound to none exactly when no pair has it, and otherwise to a value it is paired with |
| AlertsRouter.LookupBeforeTail | backend/routers/alerts.py:45-50 | pairs after the last one with a key do not change what that key is bound to |
| AlertsRouter.ParseBool | backend/routers/alerts.py:48 | true exactly for the accepted true spellings, false exactly for the false ones, none for anything else |
| AlertsRouter.DecodeFilters | backend/routers/alerts.py:44-48 | a 422 exactly when `analysed` is present but not a boolean; otherwise `analysed` is present exactly when the query has it, with its parsed value |
| AlertsRouter.ListAlerts | backend/routers/alerts.py:43-68 | a 422 exactly when `limit` is outside 1..200 or `offset` is negative; otherwise `count == len(alerts) <= limit` |
| AlertsRouter.ListAlertsContents | backend/routers/alerts.py:54-68 | every listed alert satisfies every supplied filter by equality; the page is the rank window of the matching rows, in ascending id order |
| AlertsRouter.ListAlertsUnfiltered | backend/routers/alerts.py:54-68 | with no filters, offset 0 and a limit covering the table, every row is listed |
| AlertsRouter.TriggerAnalyse | backend/routers/alerts.py:29-39 | a 422 exactly for a limit outside 1..200, with the table untouched; otherwise `analysed_count == len(analysed_ids) <= limit`, and the ids are the batch's |
| AlertsRouter.GetAlert | backend/routers/alerts.py:121-127 | the row with that id when one exists; otherwise a 404 with "Alert not found" |
| AlertsRouter.CountAnalysedAll | backend/routers/alerts.py:75-79 | the analysed count equals the total exactly when no row is pending |
| AlertsRouter.BreakdownCorrect | backend/routers/alerts.py:82-102 | a breakdown has one bucket per distinct value, each counting that value's rows; the counts sum to the number of values and the buckets are sorted heaviest first |
| AlertsRouter.AlertStatsCorrect | backend/routers/alerts.py:72-117 | `pending == total - analysed >= 0`; the feed-category breakdown covers every row and sums to the total; the severity and category breakdowns omit empty values |
| Agent.NewClassification | agents/regulatory/agent.py:23-68 | summary, category and severity are required; the list fields default to empty lists and the effective date to `""` |
| Agent.ApplyClassification | agents/regulatory/agent.py:124-133 | the row's eight classification fields become the oracle's output, `analysed` becomes true, and the source fields are kept |
| Agent.CandidatesOrdered | agents/regulatory/agent.py:106-111 | at most `limit` candidates, all pending rows of the table, in strictly ascending id order |
| Agent.CandidatesAreFirstPending | agents/regulatory/agent.py:106-111 | a pending row is a candidate exactly when fewer than `limit` pending rows have a smaller id |
| Agent.SucceededIdsMembers | agents/regulatory/agent.py:118-149 | an id is returned exactly when its candidate got a classification; a failure drops only its own id |
| Agent.SucceededIdsAscending | agents/regulatory/agent.py:118-139 | the returned ids strictly ascend, following candidate order |
| Agent.CommitReplacesRow | agents/regulatory/agent.py:135-137 | committing an alert that updates a stored row keeps the key invariant, the links, and their uniqueness; the alert is then in the table, and every row that changed is the one with its id |
| Agent.AlertTable.AnalysePendingAlerts | agents/regulatory/agent.py:100-152 | returns the ids of the classified candidates, or `[]` with the table unchanged when there are none; afterwards every classified candidate carries its classification and is analysed, and every other row is unchanged |
| Agent.BatchStep | agents/regulatory/agent.py:120-149 | one iteration extends the result and the table state by exactly that candidate's outcome |
| Agent.BatchResult | agents/regulatory/agent.py:118-152 | after the loop, the table still satisfies the key invariant, and each returned id's row holds the oracle's answer |
| FeedService.EffectiveFeeds | backend/services/feed_service.py:134 | no feed list, or an empty one, means the thirteen default feeds |
| FeedService.RawContent | backend/services/feed_service.py:114-118 | the first content item's value when the content list is non-empty, else a non-empty summary, else `""` |
| FeedService.ParseEntry | backend/services/feed_service.py:111-127 | title defaults to "Untitled"; link, published date and content come from the entry; source is the jurisdiction and feed category the feed's category; the row is new and unclassified |
| FeedService.FeedErrors | backend/services/feed_service.py:144-160 | a feed that raises, or is bozo with no entries, contributes exactly one message; any other feed contributes none |
| FeedService.EntryStepKeeps | backend/services/feed_service.py:164-175 | one entry increments `entries_found` and exactly one of `new_alerts`/`duplicates_skipped`, and keeps the deduplication invariant |
| FeedService.EntriesFromKeeps | backend/services/feed_service.py:164-175 | a fetched feed's entries keep both invariants; `entries_found` grows by the number of entries |
| FeedService.FeedStepKeeps | backend/services/feed_service.py:142-175 | one feed keeps the invariants; `feeds_fetched` grows by one exactly when the feed was fetched, and `errors` by that feed's message |
| FeedService.IngestFromKeeps | backend/services/feed_service.py:142-175 | the feed loop keeps the invariants; `feeds_fetched` and `errors` grow by the fetched count and the per-feed messages, and `entries_found` by the number of entries the fetched feeds returned |
| FeedService.EntriesFromCovers | backend/services/feed_service.py:166-174 | links are only ever added, and every non-empty link read is then known |
| FeedService.IngestFromCovers | backend/services/feed_service.py:142-175 | over the whole loop, every non-empty link of every fetched feed ends up in `existing_links` |
| FeedService.ErrorsAndFetched | backend/services/feed_service.py:142-162 | every feed is either fetched or reported: `feeds_fetched + len(errors) == len(feeds)` |
| FeedService.IngestCorrect | backend/services/feed_service.py:130-184 | feeds balance; errors are the per-feed messages in order; `entries_found` is the number of entries of all fetched feeds and equals `new_alerts + duplicates_skipped`; added alerts have non-empty, distinct, previously unstored links; `existing_links` grows by exactly their links |
| FeedService.IngestProvenance | backend/services/feed_service.py:164-175 | every added alert is `_parse_entry` of an entry of one of the feeds |
| FeedService.CommitKeepsLinksUnique | backend/models.py:17 | when the initial link set is the table's links, committing the added alerts keeps `link` unique across the table |
| FeedService.FetchAndStore | backend/services/feed_service.py:130-184 | the imperative loop computes exactly the fold `Ingest`, so it has all of `IngestCorrect`'s guarantees; `entries_found` is the total number of entries fetched |
| FeedService.StoreEntries | backend/services/feed_service.py:164-175 | the inner loop computes exactly the entry fold of one feed |
| Api.NatToString | frontend/src/api.ts:30 | `String(n)` is a non-empty string of decimal digits |
| Api.QueryPairsMembers | frontend/src/api.ts:24-26 | a pair survives exactly when its value is neither `undefined` nor `""`, so `false` and `0` are kept |
| Api.QueryPairsAppend | frontend/src/api.ts:24-30 | input order is kept: the pairs of a concatenation are the concatenation of the pairs |
| Api.QsShape | frontend/src/api.ts:27-31 | `qs` is `""` exactly when no pair survives; otherwise it starts with `?` and the first surviving key |
| Api.FetchAlertsQuery | frontend/src/api.ts:34-39 | the pairs are the present filters followed by `limit` and `offset`, so the URL always has a query string |
| Api.FilterPairsMembers | frontend/src/api.ts:21-39 | a filter is sent exactly when present and non-empty; `analysed` as `"true"` or `"false"` |
| Api.TriggerAnalyseQuery | frontend/src/api.ts:56-58 | the analyse URL is `/api/alerts/analyse?limit=<limit>` |
| Api.Json | frontend/src/api.ts:12-19 | the payload exactly for a 2xx status; otherwise an error whose message is `API <status>: <body>` |
| Toolbar.SelectedValue | frontend/src/components/AlertsToolbar.tsx:152 | the `__all__` item passes `""`; any other item passes its own value |
| Toolbar.Present | frontend/src/components/AlertsToolbar.tsx:54 | `v \|\| undefined` is absent exactly for `""` |
| Toolbar.SetFeedCategory | frontend/src/components/AlertsToolbar.tsx:53-55 | sets the feed category, absent for `""`; every other key is unchanged |
| Toolbar.SetCategory | frontend/src/components/AlertsToolbar.tsx:61-63 | sets the category, absent for `""`; every other key is unchanged |
| Toolbar.SetSeverity | frontend/src/components/AlertsToolbar.tsx:69-71 | sets the severity, absent for `""`; every other key is unchanged |
| Toolbar.DecodeStatus | frontend/src/components/AlertsToolbar.tsx:84-88 | `""` is absent, `"true"` is true, and anything else is false |
| Toolbar.SetStatus | frontend/src/components/AlertsToolbar.tsx:84-88 | sets `analysed` to the decoded status; every other key is unchanged |
| Toolbar.StatusRoundTrip | frontend/src/components/AlertsToolbar.tsx:75-88 | decoding the shown status gives back the filter, and encoding a decoded item gives back the item |
| Toolbar.SettersKeepFilters | frontend/src/components/AlertsToolbar.tsx:49-90 | no payload stores an empty string, and re-choosing the shown value leaves the filters as they were |
| Toolbar.OptionsOf | frontend/src/components/AlertsToolbar.tsx:41-44 | the option lists are the breakdown values in order, all empty when there are no stats |
| Toolbar.BreakdownValues | frontend/src/components/AlertsToolbar.tsx:41-44 | a breakdown's values are duplicate-free and are exactly the values counted |
| Toolbar.OptionsOfStats | frontend/src/components/AlertsToolbar.tsx:41-44 | over the back end's stats, every list is duplicate-free, every stored feed category is offered, and no category or severity option is `""` |
| Toolbar.AnalyseDisabled | frontend/src/components/AlertsToolbar.tsx:126 | disabled exactly while analysing, without stats, or with nothing pending |
| Toolbar.AnalyseEnabledIffPending | frontend/src/components/AlertsToolbar.tsx:126 | over the back end's stats: enabled exactly when no analysis is running and some stored alert is pending |
| SortEngine.SeverityRank | frontend/src/components/Dashboard.tsx:10-16 | Critical 0, High 1, Medium 2, Low 3; any other severity, `""` included, ranks 4 |
| SortEngine.StrCompareZero | frontend/src/components/Dashboard.tsx:140 | the string comparison is 0 exactly for equal strings |
| SortEngine.StrCompareAntisymmetric | frontend/src/components/Dashboard.tsx:140 | swapping the arguments negates the comparison |
| SortEngine.StrCompareTransitive | frontend/src/components/Dashboard.tsx:140 | the string order is transitive |
| SortEngine.Timestamp | frontend/src/components/Dashboard.tsx:125-126 | an empty date reads as timestamp 0 |
| SortEngine.LeqTotal | frontend/src/components/Dashboard.tsx:121-145 | for every key, any two alerts are comparable |
| SortEngine.LeqTransitive | frontend/src/components/Dashboard.tsx:121-145 | for every key, the comparator's order is transitive |
| SortEngine.TiesAgree | frontend/src/components/Dashboard.tsx:121-145 | alerts tied with a common alert tie with each other |
| SortEngine.SortAlerts | frontend/src/components/Dashboard.tsx:119-147 | the sorted copy is a permutation of the alerts |
| SortEngine.InsertSorted | frontend/src/components/Dashboard.tsx:121-145 | inserting into a sorted list keeps it sorted |
| SortEngine.SortAlertsSorted | frontend/src/components/Dashboard.tsx:119-147 | the sorted copy is ordered by the comparator |
| SortEngine.SortAlertsStable | frontend/src/components/Dashboard.tsx:120-121 | any group of pairwise-tied alerts keeps its input order |
| SortEngine.SortAlertsStableOn | frontend/src/components/Dashboard.tsx:120-121 | the alerts tied with any one alert keep their input order |
| SortEngine.SeveritySortRanks | frontend/src/components/Dashboard.tsx:129-134 | the severity sort gives non-decreasing ranks |
| SortEngine.EffectiveDateSortOrder | frontend/src/components/Dashboard.tsx:135-141 | dated alerts come before undated ones, and dated ones ascend by string order |
| SortEngine.PublishedDateSortOrder | frontend/src/components/Dashboard.tsx:123-128 | the published-date sort gives non-increasing timestamps |
| SortEngine.UndatedKeepOrder | frontend/src/components/Dashboard.tsx:137 | under the effective-date sort, the undated alerts keep their input order |
| SortEngine.SameSeverityKeepOrder | frontend/src/components/Dashboard.tsx:129-134 | under the severity sort, alerts of one severity keep their input order |
| Dashboard.ToastShow | frontend/src/components/Dashboard.tsx:36-44 | a show displays the message, is not exiting, and has a fresh exit timer pending; the removal timers already pending are untouched |
| Dashboard.ToastFireExit | frontend/src/components/Dashboard.tsx:44-46 | the 3500 ms timer starts the exit and one more removal timer |
| Dashboard.ToastFireRemoval | frontend/src/components/Dashboard.tsx:46-50 | a removal clears the message and hides the toast, whichever message it shows |
| Dashboard.ToastTransitionsKeepInv | frontend/src/components/Dashboard.tsx:36-52 | each transition keeps the toast invariant: visible exactly with a message, and a visible toast always has a timer pending |
| Dashboard.ToastShowTwice | frontend/src/components/Dashboard.tsx:37-44 | showing twice is showing the second message once |
| Dashboard.StaleRemovalHidesNewToast | frontend/src/components/Dashboard.tsx:44-50 | a show during the exit window is hidden by the earlier removal timer, while its own exit timer is still pending |
| Dashboard.AnalyseLimit | frontend/src/components/Dashboard.tsx:104 | the batch size asked for is `stats.pending`, or 10 without stats |
| Dashboard.FindById | frontend/src/components/Dashboard.tsx:150 | the first alert with that id, or none exactly when no alert has it |
| Dashboard.FlagsCleared | frontend/src/components/Dashboard.tsx:54-116 | each action clears its own flag on success and on failure |
| Dashboard.FailuresKeepData | frontend/src/components/Dashboard.tsx:54-116 | a failure keeps stats, alerts and selection, and toasts the error behind the action's prefix |
| Dashboard.FetchSuccessReloads | frontend/src/components/Dashboard.tsx:85-99 | a successful fetch sets `lastFetched` and reloads stats and alerts; the last toast is the last failed reload's message, or the summary |
| Dashboard.AnalyseSelection | frontend/src/components/Dashboard.tsx:104-110 | the selection is replaced only when its id was analysed and occurs in the list captured at the start, and then by that list's element |
| Dashboard.AnalyseKeepsStaleSelection | frontend/src/components/Dashboard.tsx:107-109 | a selection made from the current list survives a successful analysis unchanged, whatever the reloaded list holds |
| Dashboard.SelectAndClose | frontend/src/components/Dashboard.tsx:149-152 | selection is the first alert with the id, or none exactly when no alert has it; close clears it |
| Dashboard.LoadsKeepToastInv | frontend/src/components/Dashboard.tsx:54-75 | the two loads keep the toast invariant |
| Dashboard.FetchKeepsToastInv | frontend/src/components/Dashboard.tsx:85-99 | `handleFetch` keeps the toast invariant |
| Dashboard.AnalyseKeepsToastInv | frontend/src/components/Dashboard.tsx:101-116 | `handleAnalyse` keeps the toast invariant |
| Dashboard.ApiErrorToast | frontend/src/components/Dashboard.tsx:70-71 | a non-2xx alerts response toasts `Failed to load alerts: Error: API <status>: <body>` |
| Dashboard.AnalyseRequestBound | frontend/src/components/Dashboard.tsx:104 | with the back end's stats and the button enabled, the request is accepted exactly when at most 200 alerts are pending; the default of 10 is always accepted |
| Dashboard.FiltersRoundTrip | frontend/src/api.ts:21-39 | the back end decodes from a `fetchAlerts` query exactly the filters sent: the client's filters without their `""` values, and the client's filters themselves when none is `""` |
| Dashboard.LoadedAlertsMatchFilters | frontend/src/components/Dashboard.tsx:68 | the loaded list is the back end's first page of 200 for the filters it decodes from the request, so every shown alert is a stored row matching them; these are the current filters whenever none of them is `""` |
| Dashboard.Component.constructor | frontend/src/components/Dashboard.tsx:19-34 | the initial state: no stats, no alerts, no selection, no filters, published-date sort, both loading flags set, no toast |
| Dashboard.Component.SortedAlerts | frontend/src/components/Dashboard.tsx:119-147 | the sorted view is a permutation of `alerts`, ordered by the comparator; `alerts` itself is not changed |
| Dashboard.Component.ShowToast | frontend/src/components/Dashboard.tsx:36-52 | performs `ToastShow` and changes nothing else |
| Dashboard.Component.TickToastExit | frontend/src/components/Dashboard.tsx:44-46 | performs `ToastFireExit` and changes nothing else |
| Dashboard.Component.TickToastRemoval | frontend/src/components/Dashboard.tsx:46-50 | performs `ToastFireRemoval` and changes nothing else |
| Dashboard.Component.LoadStats | frontend/src/components/Dashboard.tsx:54-63 | performs `LoadStatsStep` |
| Dashboard.Component.LoadAlerts | frontend/src/components/Dashboard.tsx:65-75 | requests `fetchAlerts(filters, 200)`'s URL and performs `LoadAlertsStep` |
| Dashboard.Component.ReloadBoth | frontend/src/components/Dashboard.tsx:93 | performs `LoadStatsStep`, then `LoadAlertsStep` |
| Dashboard.Component.FetchResolved | frontend/src/components/Dashboard.tsx:88-93 | performs `FetchResolvedStep`: the summary toast, `lastFetched`, and both reloads |
| Dashboard.Component.SetFetching | frontend/src/components/Dashboard.tsx:86 | changes only the `fetching` flag |
| Dashboard.Component.HandleFetch | frontend/src/components/Dashboard.tsx:85-99 | performs `FetchStep`: the flag is set, the resolved or failed path runs, and the flag is cleared |
| Dashboard.Component.SetAnalysing | frontend/src/components/Dashboard.tsx:102 | changes only the `analysing` flag |
| Dashboard.Component.AnalyseResolved | frontend/src/components/Dashboard.tsx:105-110 | performs `AnalyseResolvedStep`: the toast, both reloads, and the re-resolved selection |
| Dashboard.Component.Reselect | frontend/src/components/Dashboard.tsx:107-110 | replaces the selection only when the captured selection was analysed and its id occurs in the captured list, and then by that list's element |
| Dashboard.Component.HandleAnalyse | frontend/src/components/Dashboard.tsx:101-116 | requests the analyse URL for `AnalyseLimit(stats)` and performs `AnalyseStep`, with the `analysing` flag set and then cleared |
| Dashboard.Component.HandleSelect | frontend/src/components/Dashboard.tsx:149-152 | performs `SelectStep` |
| Dashboard.Component.Close | frontend/src/components/Dashboard.tsx:219 | clears the selection |
| Dashboard.Component.ChangeFilters | frontend/src/components/Dashboard.tsx:192 | stores the new filters, then reloads the alerts for them |
| Dashboard.Component.ChangeSortKey | frontend/src/components/Dashboard.tsx:194 | changes only the sort key |

## Notes on the source as written

- `handleAnalyse` re-resolves the selected alert from the list its closure captured before the
  reload (Dashboard.tsx:107-109), not from the reloaded list. When the selection came from that
  list, it therefore stays exactly as it was, unanalysed version included. The model keeps this
  behaviour (`Dashboard.AnalyseKeepsStaleSelection`).
- `showToast` cancels only the 3500 ms timer. A removal timer started by an earlier toast still
  fires and hides a toast shown during its exit animation (`Dashboard.StaleRemovalHidesNewToast`).
  Afterwards `exiting` can become true while nothing is visible; the invariant proved is
  therefore "visible exactly with a message", not "exiting implies visible".
- `handleAnalyse` asks for `stats.pending` alerts, but the route accepts at most 200
  (alerts.py:31). With more than 200 pending alerts every analysis fails with a 422 until the
  backlog shrinks by other means (`Dashboard.AnalyseRequestBound`).
- `fetchAlerts` defaults to `limit = 500` (api.ts:36), which the listing route rejects.
  The dashboard always passes 200, so this default is never used by the modelled core.

## Left out

- Rendering: the JSX, the toast's CSS animation, the "Last updated" formatting and the other
  presentational components are not modelled.
- Timing and interleaving: React state batching and re-render scheduling are not modelled, and
  neither is the wall-clock duration of the timers. Each asynchronous action is one sequential
  method, so the intermediate states in which a flag is set are not observable. `Promise.all`
  settles stats first, then alerts. A filter change and its reload form one step.
- `SortEngine.Timestamp`: `new Date(s).getTime()` is a parameter `string -> int`. Its NaN
  result for an unparsable date is not modelled.
- `SortEngine.StrCompare`: `localeCompare` is replaced by plain lexicographic order on
  characters.
- `SortEngine.SeverityRank`: a severity that names a property of `Object.prototype`
  (e.g. "toString") is not modelled; every unknown severity ranks 4.
- `Api.Serialize`: the form-urlencoded percent-encoding of `URLSearchParams` is not modelled.
  Pairs are joined as `k=v` with `&`.
- `Api.FilterParams`: the key order of the filters object in `qs` is fixed to declaration order.
  JavaScript's insertion order of object keys is not modelled.
- `Api.Json`: a body that fails to parse as JSON is not modelled; the decoded payload is part of
  the response value. Errors thrown by `fetch` itself reach the dashboard only as error strings.
- `Api.Render`: numbers are integers; `String` of a non-integral number is not modelled.
- `AlertsRouter.Breakdown`: SQL leaves the order of buckets with equal counts unspecified. The
  model keeps them in order of first appearance.
- `FeedService.FetchAndStore`: every created alert gets one `now` reading, and ids are assigned on
  commit, outside the model. The HTTP fetch, feedparser, the SSL context and logging are replaced
  by the per-feed outcome sequence. The `trigger_fetch` route only forwards the result and is not
  modelled separately.
- `FeedService.FetchAndStore`: the final `session.commit()` (feed_service.py:177) is assumed to
  succeed. If it raised, the exception would leave the function after every counter had been
  computed, and no alert would be stored; that failure path is not modelled.
- `FeedService.DefaultFeeds`: the thirteen feed records are transcribed; no lemma restates them.
- `Agent.AlertTable.AnalysePendingAlerts`: the language-model call, the prompt text, `session.refresh`
  and logging are the oracle or are omitted. A failure of the commit itself is folded into the
  oracle's `None`.
- `AlertsRouter.TriggerAnalyse`: FastAPI's validation and response serialisation are reduced to the
  422 error value and the two response fields.
- `AlertsRouter.ParseBool`: pydantic also accepts upper- and mixed-case spellings of the boolean
  words; only the lower-case ones are modelled.
- `AlertsRouter.DecodeFilters`: only the four filters are decoded from the query pairs. `limit`
  and `offset` reach `ListAlerts` as integers, since the dashboard always sends 200 and 0.
- `Toolbar.FetchDisabled`: `disabled={fetching}` is stated as a predicate only.
- `fetchAlert`, `fetchStats` and `triggerFetch` are modelled as their URLs only (`Api.FetchAlertUrl`,
  `Api.StatsUrl`, `Api.TriggerFetchUrl`); the dashboard does not call `fetchAlert`.
