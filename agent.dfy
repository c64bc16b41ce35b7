/** The batch classifier (agents/regulatory/agent.py): picks the pending alerts in id order,
    asks the language model for a classification of each, and writes every classification
    it gets back onto its row. The model call is the oracle `classify`; `None` stands for
    any exception raised while classifying or committing. */
module Agent {
  import opened Wrappers
  import opened Models
  import Sorting
  import Sql

  /** The structured output the model must return for every alert. */
  datatype AlertClassification = AlertClassification(
    summary: string,
    category: string,
    subcategories: seq<string>,
    severity: string,
    affectedSectors: seq<string>,
    actionItems: seq<string>,
    effectiveDate: string,
    keyEntities: seq<string>
  )

  /** summary, category and severity are required; the list fields default to empty lists
      and the effective date to the empty string. */
  function NewClassification(summary: string, category: string, severity: string,
                             subcategories: seq<string> := [], affectedSectors: seq<string> := [],
                             actionItems: seq<string> := [], effectiveDate: string := "",
                             keyEntities: seq<string> := []): (c: AlertClassification)
    ensures c.summary == summary && c.category == category && c.severity == severity
    ensures c.subcategories == subcategories && c.affectedSectors == affectedSectors
    ensures c.actionItems == actionItems && c.effectiveDate == effectiveDate
    ensures c.keyEntities == keyEntities
  {
    AlertClassification(summary, category, subcategories, severity, affectedSectors,
                        actionItems, effectiveDate, keyEntities)
  }

  /** The eight classification fields of a row. */
  function ClassificationOf(a: Alert): AlertClassification {
    AlertClassification(a.summary, a.category, a.subcategories, a.severity, a.affectedSectors,
                        a.actionItems, a.effectiveDate, a.keyEntities)
  }

  /** The fields the classifier never touches. */
  predicate SameSource(a: Alert, b: Alert) {
    && a.id == b.id && a.title == b.title && a.link == b.link && a.source == b.source
    && a.feedCategory == b.feedCategory && a.publishedDate == b.publishedDate
    && a.rawContent == b.rawContent && a.createdAt == b.createdAt
  }

  /** Maps the structured output back onto the row and marks it analysed. */
  function ApplyClassification(a: Alert, c: AlertClassification): (r: Alert)
    ensures ClassificationOf(r) == c && r.analysed && SameSource(r, a)
  {
    a.(summary := c.summary, category := c.category, subcategories := c.subcategories,
       severity := c.severity, affectedSectors := c.affectedSectors, actionItems := c.actionItems,
       effectiveDate := c.effectiveDate, keyEntities := c.keyEntities, analysed := true)
  }

  function IsPending(a: Alert): bool { !a.analysed }

  /** `SELECT alert WHERE analysed = false ORDER BY id LIMIT limit`. */
  function Candidates(rows: seq<Alert>, limit: nat): seq<Alert> {
    Sql.SelectPage(rows, IsPending, 0, limit)
  }

  /** The candidates are pending rows of the table in strictly ascending id order,
      at most `limit` of them. */
  lemma CandidatesOrdered(rows: seq<Alert>, limit: nat)
    requires Persisted(rows)
    ensures var c := Candidates(rows, limit);
      && |c| <= limit
      && Sorting.StrictlyAscending(c, IdKey)
      && (forall a :: a in c ==> a in rows && !a.analysed)
  {
    Sql.SelectPageWindow(rows, IsPending, 0, limit);
  }

  /** A pending row is a candidate exactly when fewer than `limit` pending rows have a
      smaller id: the batch is the first `limit` pending alerts by id. */
  lemma CandidatesAreFirstPending(rows: seq<Alert>, limit: nat)
    requires Persisted(rows)
    ensures forall a :: a in rows && !a.analysed ==>
      (a in Candidates(rows, limit) <==> Sql.Rank(rows, IsPending, a) < limit)
  {
    Sql.SelectPageWindow(rows, IsPending, 0, limit);
  }

  /** The ids of the candidates the oracle classified, in candidate order. */
  function SucceededIds(cands: seq<Alert>, classify: Alert -> Option<AlertClassification>): seq<int> {
    if cands == [] then []
    else
      var last := cands[|cands| - 1];
      SucceededIds(cands[..|cands| - 1], classify) + (if classify(last).Some? then [IdKey(last)] else [])
  }

  /** A row after the batch: classified when it was a candidate the oracle answered for,
      untouched (rolled back) otherwise. */
  function AfterBatch(a: Alert, cands: seq<Alert>, classify: Alert -> Option<AlertClassification>): Alert {
    if a in cands && classify(a).Some? then ApplyClassification(a, classify(a).value) else a
  }

  ghost predicate StrictlyIncreasing(ids: seq<int>) {
    forall i, j :: 0 <= i < j < |ids| ==> ids[i] < ids[j]
  }

  /** An id is returned exactly when it belongs to a candidate the oracle classified:
      a failure drops only its own id, never the later ones. */
  lemma {:induction false} SucceededIdsMembers(cands: seq<Alert>, classify: Alert -> Option<AlertClassification>)
    ensures |SucceededIds(cands, classify)| <= |cands|
    ensures forall x :: x in SucceededIds(cands, classify) <==>
      exists a :: a in cands && IdKey(a) == x && classify(a).Some?
  {
    if cands != [] {
      var init := cands[..|cands| - 1];
      var last := cands[|cands| - 1];
      SucceededIdsMembers(init, classify);
      assert cands == init + [last];
      assert forall a :: a in cands <==> a in init || a == last;
    }
  }

  /** Candidates in ascending id order give the ids in ascending order. */
  lemma {:induction false} SucceededIdsAscending(cands: seq<Alert>, classify: Alert -> Option<AlertClassification>)
    requires Sorting.StrictlyAscending(cands, IdKey)
    ensures StrictlyIncreasing(SucceededIds(cands, classify))
  {
    if cands != [] {
      var init := cands[..|cands| - 1];
      var last := cands[|cands| - 1];
      assert Sorting.StrictlyAscending(init, IdKey) by {
        forall i, j | 0 <= i < j < |init| ensures IdKey(init[i]) < IdKey(init[j]) {
          assert init[i] == cands[i] && init[j] == cands[j];
        }
      }
      SucceededIdsAscending(init, classify);
      SucceededIdsMembers(init, classify);
      var ids := SucceededIds(cands, classify);
      var prev := SucceededIds(init, classify);
      forall x | x in prev ensures x < IdKey(last) {
        var a :| a in init && IdKey(a) == x && classify(a).Some?;
        var k :| 0 <= k < |init| && init[k] == a;
        assert cands[k] == a;
      }
      if classify(last).Some? {
        IncreasingSnoc(prev, IdKey(last));
      }
    }
  }

  lemma IncreasingSnoc(prev: seq<int>, x: int)
    requires StrictlyIncreasing(prev) && forall y :: y in prev ==> y < x
    ensures StrictlyIncreasing(prev + [x])
  {
    var ids := prev + [x];
    forall i, j | 0 <= i < j < |ids| ensures ids[i] < ids[j] {
      if j < |prev| {
        assert ids[i] == prev[i] && ids[j] == prev[j];
      } else {
        assert ids[i] == prev[i] && prev[i] in prev;
      }
    }
  }

  /** The row with `updated`'s id replaced by `updated`: the effect of `session.add` and
      `session.commit` on the table. */
  function ReplaceRow(rows: seq<Alert>, updated: Alert): (r: seq<Alert>)
    ensures |r| == |rows|
    ensures forall k :: 0 <= k < |r| ==> r[k].id == rows[k].id
    ensures forall k :: 0 <= k < |r| && rows[k].id == updated.id ==> r[k] == updated
    ensures forall k :: 0 <= k < |r| && rows[k].id != updated.id ==> r[k] == rows[k]
  {
    seq(|rows|, k requires 0 <= k < |rows| => if rows[k].id == updated.id then updated else rows[k])
  }

  /** Committing an updated version of a stored row (same id, same link) keeps the primary
      key and the unique link constraint, leaves the set of links as it was, stores the
      update, and changes no other row. */
  lemma CommitReplacesRow(rows: seq<Alert>, updated: Alert)
    requires Persisted(rows)
    requires exists k :: 0 <= k < |rows| && rows[k].id == updated.id && rows[k].link == updated.link
    ensures var r := ReplaceRow(rows, updated);
      && Persisted(r)
      && LinksOf(r) == LinksOf(rows)
      && (LinksUnique(rows) ==> LinksUnique(r))
      && updated in r
      && (forall k :: 0 <= k < |r| && r[k] != rows[k] ==> r[k] == updated && rows[k].id == updated.id)
  {
    var r := ReplaceRow(rows, updated);
    var j :| 0 <= j < |rows| && rows[j].id == updated.id && rows[j].link == updated.link;
    assert r[j] == updated;
    forall k | 0 <= k < |r| ensures r[k].link == rows[k].link {
      if rows[k].id == updated.id {
        assert k == j;
      }
    }
    assert LinksOf(r) == LinksOf(rows) by {
      forall l | l in LinksOf(r) ensures l in LinksOf(rows) {
        var i :| 0 <= i < |r| && r[i].link == l;
        assert rows[i].link == l;
      }
      forall l | l in LinksOf(rows) ensures l in LinksOf(r) {
        var i :| 0 <= i < |rows| && rows[i].link == l;
        assert r[i].link == l;
      }
    }
  }

  /** The alert table as the classifier's database session sees it. */
  class AlertTable {
    var rows: seq<Alert>

    ghost predicate Valid()
      reads this
    {
      Persisted(rows)
    }

    constructor (rows: seq<Alert>)
      requires Persisted(rows)
      ensures Valid() && this.rows == rows
    {
      this.rows := rows;
    }

    /** `analyse_pending_alerts`: classifies the candidates in order, committing each success
        and rolling back each failure; returns the ids it classified. */
    method AnalysePendingAlerts(limit: nat, classify: Alert -> Option<AlertClassification>)
      returns (analysedIds: seq<int>)
      requires Valid()
      modifies this
      ensures Valid()
      ensures analysedIds == SucceededIds(Candidates(old(rows), limit), classify)
      ensures Candidates(old(rows), limit) == [] ==> analysedIds == [] && rows == old(rows)
      ensures |rows| == |old(rows)|
      ensures forall k :: 0 <= k < |rows| ==>
        rows[k] == AfterBatch(old(rows)[k], Candidates(old(rows), limit), classify)
      ensures forall k :: 0 <= k < |rows| && IdKey(rows[k]) in analysedIds ==>
        rows[k].analysed && classify(old(rows)[k]) == Some(ClassificationOf(rows[k]))
    {
      var pending := Candidates(rows, limit);
      CandidatesOrdered(rows, limit);
      if pending == [] {
        // nothing is pending: return without touching the session
        assert Batched(old(rows), rows, pending, classify);
        BatchResult(old(rows), rows, pending, classify);
        return [];
      }
      analysedIds := [];
      var i := 0;
      while i < |pending|
        invariant 0 <= i <= |pending|
        invariant analysedIds == SucceededIds(pending[..i], classify)
        invariant Batched(old(rows), rows, pending[..i], classify)
      {
        var alert := pending[i];
        var outcome := classify(alert);
        BatchStep(old(rows), rows, pending, i, classify);
        if outcome.Some? {
          // the row is updated in place and committed
          rows := ReplaceRow(rows, ApplyClassification(alert, outcome.value));
          analysedIds := analysedIds + [IdKey(alert)];
        } else {
          // session.rollback(): nothing was written for this alert
        }
        i := i + 1;
      }
      assert pending[..i] == pending;
      SucceededIdsMembers(pending, classify);
      BatchResult(old(rows), rows, pending, classify);
    }
  }

  /** `rows` is `orig` after the candidates `done` were processed. */
  ghost predicate Batched(orig: seq<Alert>, rows: seq<Alert>, done: seq<Alert>,
                          classify: Alert -> Option<AlertClassification>)
  {
    && |rows| == |orig|
    && forall k :: 0 <= k < |rows| ==> rows[k] == AfterBatch(orig[k], done, classify)
  }

  lemma BatchStep(orig: seq<Alert>, rows: seq<Alert>, pending: seq<Alert>, i: nat,
                  classify: Alert -> Option<AlertClassification>)
    requires Persisted(orig) && Sorting.StrictlyAscending(pending, IdKey)
    requires forall a :: a in pending ==> a in orig
    requires i < |pending| && Batched(orig, rows, pending[..i], classify)
    ensures SucceededIds(pending[..i + 1], classify)
         == SucceededIds(pending[..i], classify) + (if classify(pending[i]).Some? then [IdKey(pending[i])] else [])
    ensures var alert := pending[i];
      Batched(orig, if classify(alert).Some? then ReplaceRow(rows, ApplyClassification(alert, classify(alert).value)) else rows,
              pending[..i + 1], classify)
  {
    var alert := pending[i];
    var done, done' := pending[..i], pending[..i + 1];
    assert done' == done + [alert];
    assert done'[..i] == done;
    assert alert !in done by {
      forall k | 0 <= k < i ensures pending[k] != alert {
        assert IdKey(pending[k]) < IdKey(pending[i]);
      }
    }
    assert alert in pending;
    var j :| 0 <= j < |orig| && orig[j] == alert;
    var next := if classify(alert).Some? then ReplaceRow(rows, ApplyClassification(alert, classify(alert).value)) else rows;
    forall k | 0 <= k < |orig| ensures next[k] == AfterBatch(orig[k], done', classify) {
      assert rows[k] == AfterBatch(orig[k], done, classify);
      if k == j {
        assert rows[k] == alert;
      } else {
        assert orig[k].id != alert.id;
        assert rows[k].id == orig[k].id;
        assert orig[k] in done' <==> orig[k] in done;
      }
    }
  }

  lemma BatchResult(orig: seq<Alert>, rows: seq<Alert>, cands: seq<Alert>,
                    classify: Alert -> Option<AlertClassification>)
    requires Persisted(orig) && Batched(orig, rows, cands, classify)
    requires forall a :: a in cands ==> a in orig
    requires forall x :: x in SucceededIds(cands, classify) <==>
      exists a :: a in cands && IdKey(a) == x && classify(a).Some?
    ensures Persisted(rows) && |rows| == |orig|
    ensures forall k :: 0 <= k < |rows| ==> rows[k] == AfterBatch(orig[k], cands, classify)
    ensures forall k :: 0 <= k < |rows| && IdKey(rows[k]) in SucceededIds(cands, classify) ==>
      rows[k].analysed && classify(orig[k]) == Some(ClassificationOf(rows[k]))
  {
    forall k | 0 <= k < |rows| ensures rows[k].id == orig[k].id {
    }
    forall k | 0 <= k < |rows| && IdKey(rows[k]) in SucceededIds(cands, classify)
      ensures rows[k].analysed && classify(orig[k]) == Some(ClassificationOf(rows[k]))
    {
      var a :| a in cands && IdKey(a) == IdKey(rows[k]) && classify(a).Some?;
      var j :| 0 <= j < |orig| && orig[j] == a;
      assert k == j;
    }
  }
}
