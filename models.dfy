/** The persisted alert row (backend/models.py). One Alert type is used by every layer:
    the backend row, the JSON the API returns, and the frontend's copy of it. */
module Models {
  import opened Wrappers

  datatype Alert = Alert(
    id: Option<int>,            // None until the row is persisted
    // Source data from the RSS feed
    title: string,
    link: string,               // unique across the table
    source: string,
    feedCategory: string,
    publishedDate: string,
    rawContent: string,
    // Classification written by the agent
    summary: string,
    category: string,
    subcategories: seq<string>,
    severity: string,
    affectedSectors: seq<string>,
    actionItems: seq<string>,
    effectiveDate: string,
    keyEntities: seq<string>,
    // Metadata
    analysed: bool,
    createdAt: string           // the clock reading taken at construction
  )

  /** All eight classification fields hold their defaults. */
  predicate Unclassified(a: Alert) {
    && a.summary == "" && a.category == "" && a.subcategories == [] && a.severity == ""
    && a.affectedSectors == [] && a.actionItems == [] && a.effectiveDate == ""
    && a.keyEntities == []
  }

  /** Construction of a new row: title, link and source are required, every other field takes
      its declared default; `now` stands for the clock reading of the created_at default. */
  function NewAlert(title: string, link: string, source: string, now: string,
                    feedCategory: string := "", publishedDate: string := "",
                    rawContent: string := ""): (a: Alert)
    ensures a.id == None && !a.analysed && Unclassified(a)
    ensures a.title == title && a.link == link && a.source == source
    ensures a.feedCategory == feedCategory && a.publishedDate == publishedDate
    ensures a.rawContent == rawContent && a.createdAt == now
  {
    Alert(None, title, link, source, feedCategory, publishedDate, rawContent,
          "", "", [], "", [], [], "", [], false, now)
  }

  /** The integer id used for ordering; a row that is not persisted sorts as 0. */
  function IdKey(a: Alert): int {
    match a.id
    case Some(i) => i
    case None => 0
  }

  /** The table's primary-key invariant: every row has an id and no two rows share one. */
  ghost predicate Persisted(rows: seq<Alert>) {
    && (forall i :: 0 <= i < |rows| ==> rows[i].id.Some?)
    && (forall i, j :: 0 <= i < j < |rows| ==> rows[i].id != rows[j].id)
  }

  /** The unique constraint on `link`. */
  ghost predicate LinksUnique(rows: seq<Alert>) {
    forall i, j :: 0 <= i < j < |rows| ==> rows[i].link != rows[j].link
  }

  ghost function LinksOf(rows: seq<Alert>): set<string> {
    set i | 0 <= i < |rows| :: rows[i].link
  }
}
