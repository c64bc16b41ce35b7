/** The JSON records the frontend and the backend exchange (frontend/src/types/index.ts). */
module Types {
  import opened Wrappers
  import opened Models

  /** `{feed_category?, category?, severity?, analysed?}`: an absent key places no constraint. */
  datatype AlertFilters = AlertFilters(
    feedCategory: Option<string>,
    category: Option<string>,
    severity: Option<string>,
    analysed: Option<bool>
  )

  const NoFilters := AlertFilters(None, None, None, None)

  datatype AlertsListResponse = AlertsListResponse(count: int, alerts: seq<Alert>)

  /** One row of a stats breakdown: a dimension value and how many alerts carry it. */
  datatype Bucket = Bucket(value: string, count: int)

  datatype AlertStats = AlertStats(
    total: int,
    analysed: int,
    pending: int,
    byFeedCategory: seq<Bucket>,
    bySeverity: seq<Bucket>,
    byCategory: seq<Bucket>
  )

  datatype IngestResult = IngestResult(
    feedsFetched: nat,
    entriesFound: nat,
    newAlerts: nat,
    duplicatesSkipped: nat,
    errors: seq<string>
  )

  datatype AnalyseResult = AnalyseResult(analysedCount: int, analysedIds: seq<int>)

  datatype SortKey = PublishedDate | Severity | EffectiveDate
}
