/** The dashboard's client-side ordering of the alert list (the `sortedAlerts` memo of
    frontend/src/components/Dashboard.tsx): a comparator per sort key, applied by a stable
    sort to a copy of the list. */
module SortEngine {
  import opened Models
  import opened Types

  /** `SEVERITY_ORDER[s] ?? 4`: the four named severities rank 0..3, the empty string and any
      unknown value rank 4. */
  function SeverityRank(s: string): (r: nat)
    ensures r <= 4
    ensures r == 0 <==> s == "Critical"
    ensures r == 1 <==> s == "High"
    ensures r == 2 <==> s == "Medium"
    ensures r == 3 <==> s == "Low"
  {
    if s == "Critical" then 0
    else if s == "High" then 1
    else if s == "Medium" then 2
    else if s == "Low" then 3
    else 4
  }

  /** Plain lexicographic order on strings, the stand-in for `localeCompare`:
      negative, zero or positive. */
  function StrCompare(a: string, b: string): (r: int)
    ensures -1 <= r <= 1
  {
    if a == [] && b == [] then 0
    else if a == [] then -1
    else if b == [] then 1
    else if a[0] < b[0] then -1
    else if a[0] > b[0] then 1
    else StrCompare(a[1..], b[1..])
  }

  lemma {:induction false} StrCompareZero(a: string, b: string)
    ensures StrCompare(a, b) == 0 <==> a == b
  {
    if a != [] && b != [] && a[0] == b[0] {
      StrCompareZero(a[1..], b[1..]);
      assert a == [a[0]] + a[1..] && b == [b[0]] + b[1..];
    }
  }

  lemma {:induction false} StrCompareAntisymmetric(a: string, b: string)
    ensures StrCompare(a, b) == -StrCompare(b, a)
  {
    if a != [] && b != [] && a[0] == b[0] {
      StrCompareAntisymmetric(a[1..], b[1..]);
    }
  }

  lemma {:induction false} StrCompareTransitive(a: string, b: string, c: string)
    requires StrCompare(a, b) <= 0 && StrCompare(b, c) <= 0
    ensures StrCompare(a, c) <= 0
  {
    if a != [] && b != [] && c != [] && a[0] == b[0] == c[0] {
      StrCompareTransitive(a[1..], b[1..], c[1..]);
    }
  }

  /** `new Date(s || 0).getTime()`, given the date parser as `parse`: the empty string is the
      epoch, timestamp 0. */
  function Timestamp(parse: string -> int, s: string): (t: int)
    ensures s == "" ==> t == 0
  {
    if s == "" then 0 else parse(s)
  }

  /** The comparator passed to `sort`: negative when `a` belongs before `b`. */
  function Compare(key: SortKey, parse: string -> int, a: Alert, b: Alert): int {
    match key
    case PublishedDate => Timestamp(parse, b.publishedDate) - Timestamp(parse, a.publishedDate)
    case Severity => SeverityRank(a.severity) - SeverityRank(b.severity)
    case EffectiveDate =>
      if a.effectiveDate == "" && b.effectiveDate == "" then 0
      else if a.effectiveDate == "" then 1
      else if b.effectiveDate == "" then -1
      else StrCompare(a.effectiveDate, b.effectiveDate)
  }

  /** `a` may stand before `b`. */
  predicate Leq(key: SortKey, parse: string -> int, a: Alert, b: Alert) {
    Compare(key, parse, a, b) <= 0
  }

  /** Each comparator is a total preorder, which is what makes the sorted order well defined. */
  lemma LeqTotal(key: SortKey, parse: string -> int, a: Alert, b: Alert)
    ensures Leq(key, parse, a, b) || Leq(key, parse, b, a)
  {
    if key.EffectiveDate? && a.effectiveDate != "" && b.effectiveDate != "" {
      StrCompareAntisymmetric(a.effectiveDate, b.effectiveDate);
    }
  }

  lemma LeqTransitive(key: SortKey, parse: string -> int, a: Alert, b: Alert, c: Alert)
    requires Leq(key, parse, a, b) && Leq(key, parse, b, c)
    ensures Leq(key, parse, a, c)
  {
    if key.EffectiveDate? && a.effectiveDate != "" && b.effectiveDate != "" && c.effectiveDate != "" {
      StrCompareTransitive(a.effectiveDate, b.effectiveDate, c.effectiveDate);
    }
  }

  /** Two alerts the comparator ties are interchangeable against any third. */
  lemma TiesAgree(key: SortKey, parse: string -> int, a: Alert, b: Alert, c: Alert)
    requires Compare(key, parse, a, c) == 0 && Compare(key, parse, b, c) == 0
    ensures Compare(key, parse, a, b) == 0
  {
    if key.EffectiveDate? && a.effectiveDate != "" && b.effectiveDate != "" {
      StrCompareZero(a.effectiveDate, c.effectiveDate);
      StrCompareZero(b.effectiveDate, c.effectiveDate);
      StrCompareZero(a.effectiveDate, b.effectiveDate);
    }
  }

  /** Inserts `x` in front of the first element it may stand before. */
  function Insert(key: SortKey, parse: string -> int, x: Alert, s: seq<Alert>): (r: seq<Alert>)
    ensures multiset(r) == multiset(s) + multiset{x}
    ensures |r| == |s| + 1
  {
    if s == [] || Leq(key, parse, x, s[0]) then [x] + s
    else
      assert s == [s[0]] + s[1..];
      [s[0]] + Insert(key, parse, x, s[1..])
  }

  /** `[...alerts].sort(comparator)`: a stable insertion sort of a copy. */
  function SortAlerts(key: SortKey, parse: string -> int, s: seq<Alert>): (r: seq<Alert>)
    ensures multiset(r) == multiset(s)
    ensures |r| == |s|
  {
    if s == [] then [] else
      assert s == [s[0]] + s[1..];
      Insert(key, parse, s[0], SortAlerts(key, parse, s[1..]))
  }

  ghost predicate SortedBy(key: SortKey, parse: string -> int, s: seq<Alert>) {
    forall i, j :: 0 <= i < j < |s| ==> Leq(key, parse, s[i], s[j])
  }

  lemma SortedCons(key: SortKey, parse: string -> int, y: Alert, r: seq<Alert>)
    requires SortedBy(key, parse, r)
    requires forall z :: z in r ==> Leq(key, parse, y, z)
    ensures SortedBy(key, parse, [y] + r)
  {
    forall i, j | 0 <= i < j < |r| + 1 ensures Leq(key, parse, ([y] + r)[i], ([y] + r)[j]) {
      assert ([y] + r)[j] == r[j - 1];
      if i > 0 {
        assert ([y] + r)[i] == r[i - 1];
      } else {
        assert r[j - 1] in r;
      }
    }
  }

  lemma {:induction false} InsertSorted(key: SortKey, parse: string -> int, x: Alert, s: seq<Alert>)
    requires SortedBy(key, parse, s)
    ensures SortedBy(key, parse, Insert(key, parse, x, s))
  {
    if s == [] {
    } else if Leq(key, parse, x, s[0]) {
      forall z | z in s ensures Leq(key, parse, x, z) {
        var j :| 0 <= j < |s| && s[j] == z;
        if j > 0 { LeqTransitive(key, parse, x, s[0], s[j]); }
      }
      SortedCons(key, parse, x, s);
    } else {
      LeqTotal(key, parse, x, s[0]);
      SortedTail(key, parse, s);
      InsertSorted(key, parse, x, s[1..]);
      var r := Insert(key, parse, x, s[1..]);
      forall y | y in r ensures Leq(key, parse, s[0], y) {
        assert y in multiset(r);
        if y != x {
          assert y in s[1..];
          var j :| 0 <= j < |s[1..]| && s[1..][j] == y;
          assert s[j + 1] == y;
        }
      }
      SortedCons(key, parse, s[0], r);
      assert Insert(key, parse, x, s) == [s[0]] + r;
    }
  }

  /** The sorted copy is ordered by the comparator. */
  lemma {:induction false} SortAlertsSorted(key: SortKey, parse: string -> int, s: seq<Alert>)
    ensures SortedBy(key, parse, SortAlerts(key, parse, s))
  {
    if s != [] {
      SortAlertsSorted(key, parse, s[1..]);
      InsertSorted(key, parse, s[0], SortAlerts(key, parse, s[1..]));
    }
  }

  /** The subsequence of `s` whose elements satisfy `p`. */
  function Filter(s: seq<Alert>, p: Alert -> bool): (r: seq<Alert>)
    ensures forall a :: a in r ==> a in s && p(a)
  {
    if s == [] then []
    else (if p(s[0]) then [s[0]] else []) + Filter(s[1..], p)
  }

  /** Every two alerts that satisfy `p` tie under the comparator. */
  ghost predicate TieClass(key: SortKey, parse: string -> int, p: Alert -> bool) {
    forall a, b :: p(a) && p(b) ==> Compare(key, parse, a, b) == 0
  }

  lemma FilterCons(y: Alert, t: seq<Alert>, p: Alert -> bool)
    ensures Filter([y] + t, p) == (if p(y) then [y] else []) + Filter(t, p)
  {
    assert ([y] + t)[1..] == t;
  }

  lemma SortedTail(key: SortKey, parse: string -> int, s: seq<Alert>)
    requires s != [] && SortedBy(key, parse, s)
    ensures SortedBy(key, parse, s[1..])
  {
    forall i, j | 0 <= i < j < |s| - 1 ensures Leq(key, parse, s[1..][i], s[1..][j]) {
      assert s[1..][i] == s[i + 1] && s[1..][j] == s[j + 1];
    }
  }

  lemma {:induction false} InsertFilter(key: SortKey, parse: string -> int, x: Alert, s: seq<Alert>,
                                        p: Alert -> bool)
    requires SortedBy(key, parse, s) && TieClass(key, parse, p)
    ensures Filter(Insert(key, parse, x, s), p) == Filter([x] + s, p)
  {
    if s != [] && !Leq(key, parse, x, s[0]) {
      SortedTail(key, parse, s);
      InsertFilter(key, parse, x, s[1..], p);
      assert !(p(x) && p(s[0]));
      InsertFilterStep(x, s[0], s[1..], Insert(key, parse, x, s[1..]), p);
      assert s == [s[0]] + s[1..];
      assert Insert(key, parse, x, s) == [s[0]] + Insert(key, parse, x, s[1..]);
    }
  }

  /** The step of `InsertFilter` where `x` moves past `y` into `r`. */
  lemma InsertFilterStep(x: Alert, y: Alert, t: seq<Alert>, r: seq<Alert>, p: Alert -> bool)
    requires !(p(x) && p(y))
    requires Filter(r, p) == Filter([x] + t, p)
    ensures Filter([y] + r, p) == Filter([x] + ([y] + t), p)
  {
    FilterCons(y, r, p);
    FilterCons(x, t, p);
    FilterCons(y, t, p);
    FilterCons(x, [y] + t, p);
    if p(x) {
      assert Filter([y] + r, p) == Filter(r, p);
      assert Filter([y] + t, p) == Filter(t, p);
    } else {
      assert Filter(r, p) == Filter(t, p);
    }
  }

  /** Stability: any group of alerts that the comparator ties pairwise keeps its input order. */
  lemma {:induction false} SortAlertsStable(key: SortKey, parse: string -> int, s: seq<Alert>,
                                            p: Alert -> bool)
    requires TieClass(key, parse, p)
    ensures Filter(SortAlerts(key, parse, s), p) == Filter(s, p)
  {
    if s != [] {
      var t := SortAlerts(key, parse, s[1..]);
      SortAlertsStable(key, parse, s[1..], p);
      SortAlertsSorted(key, parse, s[1..]);
      InsertFilter(key, parse, s[0], t, p);
      FilterCons(s[0], t, p);
      assert s == [s[0]] + s[1..];
      FilterCons(s[0], s[1..], p);
    }
  }

  /** In particular the alerts tied with any one alert `c` keep their input order. */
  lemma SortAlertsStableOn(key: SortKey, parse: string -> int, s: seq<Alert>, c: Alert)
    ensures Filter(SortAlerts(key, parse, s), (a: Alert) => Compare(key, parse, a, c) == 0)
         == Filter(s, (a: Alert) => Compare(key, parse, a, c) == 0)
  {
    var p := (a: Alert) => Compare(key, parse, a, c) == 0;
    forall a, b | p(a) && p(b) ensures Compare(key, parse, a, b) == 0 {
      TiesAgree(key, parse, a, b, c);
    }
    SortAlertsStable(key, parse, s, p);
  }

  /** Severity sort: ranks never decrease along the list. */
  lemma SeveritySortRanks(parse: string -> int, s: seq<Alert>)
    ensures forall i, j :: 0 <= i < j < |s| ==>
      var r := SortAlerts(Severity, parse, s);
      SeverityRank(r[i].severity) <= SeverityRank(r[j].severity)
  {
    SortAlertsSorted(Severity, parse, s);
  }

  /** Effective-date sort: every dated alert precedes every undated one, and dated alerts
      ascend by string order. */
  lemma EffectiveDateSortOrder(parse: string -> int, s: seq<Alert>)
    ensures forall i, j :: 0 <= i < j < |s| ==>
      var r := SortAlerts(EffectiveDate, parse, s);
      r[j].effectiveDate != "" ==>
        r[i].effectiveDate != "" && StrCompare(r[i].effectiveDate, r[j].effectiveDate) <= 0
  {
    SortAlertsSorted(EffectiveDate, parse, s);
  }

  /** Published-date sort: newest first, an empty date counting as timestamp 0. */
  lemma PublishedDateSortOrder(parse: string -> int, s: seq<Alert>)
    ensures forall i, j :: 0 <= i < j < |s| ==>
      var r := SortAlerts(PublishedDate, parse, s);
      Timestamp(parse, r[i].publishedDate) >= Timestamp(parse, r[j].publishedDate)
  {
    SortAlertsSorted(PublishedDate, parse, s);
  }

  /** Undated alerts all tie under the effective-date comparator, so among themselves they
      keep their input order; so do alerts of one severity under the severity comparator. */
  lemma UndatedKeepOrder(parse: string -> int, s: seq<Alert>)
    ensures Filter(SortAlerts(EffectiveDate, parse, s), (a: Alert) => a.effectiveDate == "")
         == Filter(s, (a: Alert) => a.effectiveDate == "")
  {
    SortAlertsStable(EffectiveDate, parse, s, (a: Alert) => a.effectiveDate == "");
  }

  lemma SameSeverityKeepOrder(parse: string -> int, s: seq<Alert>, severity: string)
    ensures Filter(SortAlerts(Severity, parse, s), (a: Alert) => SeverityRank(a.severity) == SeverityRank(severity))
         == Filter(s, (a: Alert) => SeverityRank(a.severity) == SeverityRank(severity))
  {
    SortAlertsStable(Severity, parse, s, (a: Alert) => SeverityRank(a.severity) == SeverityRank(severity));
  }
}
