/** The query semantics the backend relies on: `WHERE` filtering, `ORDER BY id`,
    `OFFSET` and `LIMIT` over the alert table. */
module Sql {
  import opened Models
  import Sorting

  /** The rows satisfying `p`, in table order. */
  function Where(rows: seq<Alert>, p: Alert -> bool): (r: seq<Alert>)
    ensures forall a :: a in r <==> a in rows && p(a)
    ensures |r| <= |rows|
  {
    if rows == [] then []
    else
      assert rows == [rows[0]] + rows[1..];
      (if p(rows[0]) then [rows[0]] else []) + Where(rows[1..], p)
  }

  lemma {:induction false} WherePersisted(rows: seq<Alert>, p: Alert -> bool)
    requires Persisted(rows)
    ensures Persisted(Where(rows, p))
  {
    if rows != [] {
      WherePersisted(rows[1..], p);
      var w := Where(rows[1..], p);
      forall i | 0 <= i < |w| ensures w[i].id != rows[0].id {
        assert w[i] in rows[1..];
      }
    }
  }

  /** `ORDER BY id ASC`. */
  function OrderById(rows: seq<Alert>): (r: seq<Alert>)
    ensures multiset(r) == multiset(rows)
    ensures |r| == |rows|
  {
    Sorting.SortByKey(rows, IdKey)
  }

  /** Persisted rows come out in strictly ascending id order. */
  lemma OrderByIdStrict(rows: seq<Alert>)
    requires Persisted(rows)
    ensures Sorting.StrictlyAscending(OrderById(rows), IdKey)
  {
    Sorting.SortByKeyStrictlyAscending(rows, IdKey);
  }

  /** `OFFSET offset LIMIT limit`. */
  function OffsetLimit(rows: seq<Alert>, offset: nat, limit: nat): (r: seq<Alert>)
    ensures |r| <= limit
    ensures |r| == if offset >= |rows| then 0 else if |rows| - offset < limit then |rows| - offset else limit
    ensures forall k :: 0 <= k < |r| ==> r[k] == rows[offset + k]
  {
    var rest := if offset <= |rows| then rows[offset..] else [];
    if limit <= |rest| then rest[..limit] else rest
  }

  /** `SELECT ... WHERE p ORDER BY id OFFSET offset LIMIT limit`. */
  function SelectPage(rows: seq<Alert>, p: Alert -> bool, offset: nat, limit: nat): seq<Alert> {
    OffsetLimit(OrderById(Where(rows, p)), offset, limit)
  }

  /** The number of rows satisfying `p` whose id is below that of `a`: the rank of `a` in the ordering. */
  function Rank(rows: seq<Alert>, p: Alert -> bool, a: Alert): nat {
    Sorting.CountBelow(Where(rows, p), IdKey, IdKey(a))
  }

  /** A page holds exactly the rows that satisfy `p` and whose rank lies in
      `[offset, offset + limit)`; its ids strictly ascend. */
  lemma {:induction false} SelectPageWindow(rows: seq<Alert>, p: Alert -> bool, offset: nat, limit: nat)
    requires Persisted(rows)
    ensures Sorting.StrictlyAscending(SelectPage(rows, p, offset, limit), IdKey)
    ensures forall a :: a in SelectPage(rows, p, offset, limit) <==>
      (a in rows && p(a) && offset <= Rank(rows, p, a) < offset + limit)
  {
    WherePersisted(rows, p);
    OrderByIdStrict(Where(rows, p));
    forall a ensures a in SelectPage(rows, p, offset, limit) <==>
      (a in rows && p(a) && offset <= Rank(rows, p, a) < offset + limit)
    {
      if a in SelectPage(rows, p, offset, limit) {
        PageMemberInWindow(rows, p, offset, limit, a);
      }
      if a in rows && p(a) && offset <= Rank(rows, p, a) < offset + limit {
        WindowMemberInPage(rows, p, offset, limit, a);
      }
    }
  }

  /** In the ordered rows, the position of an alert is its rank. */
  lemma RankIsPosition(w: seq<Alert>, j: nat, a: Alert)
    requires Sorting.StrictlyAscending(OrderById(w), IdKey)
    requires j < |OrderById(w)| && OrderById(w)[j] == a
    ensures Sorting.CountBelow(w, IdKey, IdKey(a)) == j
  {
    Sorting.SortByKeyCountBelow(w, IdKey, IdKey(a));
    Sorting.PositionIsCountBelow(OrderById(w), IdKey, j);
  }

  lemma PageMemberInWindow(rows: seq<Alert>, p: Alert -> bool, offset: nat, limit: nat, a: Alert)
    requires Sorting.StrictlyAscending(OrderById(Where(rows, p)), IdKey)
    requires a in SelectPage(rows, p, offset, limit)
    ensures a in rows && p(a) && offset <= Rank(rows, p, a) < offset + limit
  {
    var w := Where(rows, p);
    var t := OrderById(w);
    var page := OffsetLimit(t, offset, limit);
    var k :| 0 <= k < |page| && page[k] == a;
    var j := offset + k;
    assert t[j] == a;
    RankIsPosition(w, j, a);
    assert a in multiset(w) by { assert a in multiset(t); }
  }

  lemma WindowMemberInPage(rows: seq<Alert>, p: Alert -> bool, offset: nat, limit: nat, a: Alert)
    requires Sorting.StrictlyAscending(OrderById(Where(rows, p)), IdKey)
    requires a in rows && p(a) && offset <= Rank(rows, p, a) < offset + limit
    ensures a in SelectPage(rows, p, offset, limit)
  {
    var w := Where(rows, p);
    var t := OrderById(w);
    assert a in multiset(t) by { assert a in w; }
    var j :| 0 <= j < |t| && t[j] == a;
    RankIsPosition(w, j, a);
    assert OffsetLimit(t, offset, limit)[j - offset] == a;
  }
}
