/** A stable sort by an integer key, the semantics this model gives to SQL `ORDER BY`
    (ascending `id`, descending `count(...)`). */
module Sorting {

  /** Inserts `x` in front of the first element whose key is not smaller than its own. */
  function Insert<T>(x: T, s: seq<T>, key: T -> int): (r: seq<T>)
    ensures multiset(r) == multiset(s) + multiset{x}
    ensures |r| == |s| + 1
  {
    if s == [] || key(x) <= key(s[0]) then [x] + s
    else
      assert s == [s[0]] + s[1..];
      [s[0]] + Insert(x, s[1..], key)
  }

  /** Insertion sort: ascending by `key`; elements with equal keys keep their input order. */
  function SortByKey<T>(s: seq<T>, key: T -> int): (r: seq<T>)
    ensures multiset(r) == multiset(s)
    ensures |r| == |s|
  {
    if s == [] then [] else
      assert s == [s[0]] + s[1..];
      Insert(s[0], SortByKey(s[1..], key), key)
  }

  ghost predicate Ascending<T>(s: seq<T>, key: T -> int) {
    forall i, j :: 0 <= i < j < |s| ==> key(s[i]) <= key(s[j])
  }

  lemma {:induction false} InsertAscending<T>(x: T, s: seq<T>, key: T -> int)
    requires Ascending(s, key)
    ensures Ascending(Insert(x, s, key), key)
  {
    if s == [] || key(x) <= key(s[0]) {
    } else {
      var y, t := s[0], s[1..];
      var r := Insert(x, t, key);
      assert Insert(x, s, key) == [y] + r;
      assert Ascending(t, key) by {
        forall i, j | 0 <= i < j < |t| ensures key(t[i]) <= key(t[j]) {
          assert t[i] == s[i + 1] && t[j] == s[j + 1];
        }
      }
      InsertAscending(x, t, key);
      forall z | z in r ensures key(y) <= key(z) {
        assert z in multiset(r);
        if z != x {
          var j :| 0 <= j < |t| && t[j] == z;
          assert s[j + 1] == z;
        }
      }
      AscendingCons(y, r, key);
    }
  }

  lemma AscendingCons<T>(y: T, r: seq<T>, key: T -> int)
    requires Ascending(r, key) && forall z :: z in r ==> key(y) <= key(z)
    ensures Ascending([y] + r, key)
  {
    forall i, j | 0 <= i < j < |r| + 1 ensures key(([y] + r)[i]) <= key(([y] + r)[j]) {
      assert ([y] + r)[j] == r[j - 1];
      if i > 0 {
        assert ([y] + r)[i] == r[i - 1];
      } else {
        assert r[j - 1] in r;
      }
    }
  }

  lemma {:induction false} SortByKeyAscending<T>(s: seq<T>, key: T -> int)
    ensures Ascending(SortByKey(s, key), key)
  {
    if s != [] {
      SortByKeyAscending(s[1..], key);
      InsertAscending(s[0], SortByKey(s[1..], key), key);
    }
  }

  /** The subsequence of `s` whose key equals `k`. */
  function WithKey<T>(s: seq<T>, key: T -> int, k: int): seq<T> {
    if s == [] then []
    else (if key(s[0]) == k then [s[0]] else []) + WithKey(s[1..], key, k)
  }

  lemma WithKeyCons<T>(y: T, t: seq<T>, key: T -> int, k: int)
    ensures WithKey([y] + t, key, k) == (if key(y) == k then [y] else []) + WithKey(t, key, k)
  {
    assert ([y] + t)[1..] == t;
  }

  /** The step of `InsertWithKey` where `x` moves past `y` into `r`. */
  lemma WithKeyStep<T>(x: T, y: T, t: seq<T>, r: seq<T>, key: T -> int, k: int)
    requires !(key(x) == k && key(y) == k)
    requires WithKey(r, key, k) == (if key(x) == k then [x] else []) + WithKey(t, key, k)
    ensures WithKey([y] + r, key, k) == (if key(x) == k then [x] else []) + WithKey([y] + t, key, k)
  {
    WithKeyCons(y, r, key, k);
    WithKeyCons(y, t, key, k);
    if key(x) == k {
      assert WithKey([y] + r, key, k) == WithKey(r, key, k);
      assert WithKey([y] + t, key, k) == WithKey(t, key, k);
    } else {
      assert WithKey(r, key, k) == WithKey(t, key, k);
    }
  }

  lemma {:induction false} InsertWithKey<T>(x: T, s: seq<T>, key: T -> int, k: int)
    ensures WithKey(Insert(x, s, key), key, k)
         == (if key(x) == k then [x] else []) + WithKey(s, key, k)
  {
    if s == [] || key(x) <= key(s[0]) {
      WithKeyCons(x, s, key, k);
    } else {
      var y, t := s[0], s[1..];
      var r := Insert(x, t, key);
      assert Insert(x, s, key) == [y] + r;
      assert s == [y] + t;
      InsertWithKey(x, t, key, k);
      WithKeyStep(x, y, t, r, key, k);
    }
  }

  /** Stability: for every key value, the elements carrying it appear in input order. */
  lemma {:induction false} SortByKeyStable<T>(s: seq<T>, key: T -> int, k: int)
    ensures WithKey(SortByKey(s, key), key, k) == WithKey(s, key, k)
  {
    if s != [] {
      SortByKeyStable(s[1..], key, k);
      InsertWithKey(s[0], SortByKey(s[1..], key), key, k);
    }
  }

  /** How many elements of `s` have a key below `k`. */
  function CountBelow<T>(s: seq<T>, key: T -> int, k: int): (n: nat)
    ensures n <= |s|
  {
    if s == [] then 0
    else (if key(s[0]) < k then 1 else 0) + CountBelow(s[1..], key, k)
  }

  lemma {:induction false} InsertCountBelow<T>(x: T, s: seq<T>, key: T -> int, k: int)
    ensures CountBelow(Insert(x, s, key), key, k)
         == (if key(x) < k then 1 else 0) + CountBelow(s, key, k)
  {
    if s == [] || key(x) <= key(s[0]) {
      assert ([x] + s)[1..] == s;
    } else {
      InsertCountBelow(x, s[1..], key, k);
      assert ([s[0]] + Insert(x, s[1..], key))[1..] == Insert(x, s[1..], key);
    }
  }

  /** Sorting does not change how many elements lie below a key. */
  lemma {:induction false} SortByKeyCountBelow<T>(s: seq<T>, key: T -> int, k: int)
    ensures CountBelow(SortByKey(s, key), key, k) == CountBelow(s, key, k)
  {
    if s != [] {
      SortByKeyCountBelow(s[1..], key, k);
      InsertCountBelow(s[0], SortByKey(s[1..], key), key, k);
    }
  }

  /** An element's own key is not below itself, so fewer than all elements lie below it. */
  lemma {:induction false} CountBelowMember<T>(s: seq<T>, key: T -> int, x: T)
    requires x in s
    ensures CountBelow(s, key, key(x)) < |s|
  {
    if s[0] != x {
      CountBelowMember(s[1..], key, x);
    }
  }

  ghost predicate StrictlyAscending<T>(s: seq<T>, key: T -> int) {
    forall i, j :: 0 <= i < j < |s| ==> key(s[i]) < key(s[j])
  }

  lemma {:induction false} CountBelowNone<T>(s: seq<T>, key: T -> int, k: int)
    requires forall i :: 0 <= i < |s| ==> k <= key(s[i])
    ensures CountBelow(s, key, k) == 0
  {
    if s != [] {
      CountBelowNone(s[1..], key, k);
    }
  }

  /** In a strictly ascending sequence, the position of an element is the number of keys below it. */
  lemma {:induction false} PositionIsCountBelow<T>(s: seq<T>, key: T -> int, p: nat)
    requires StrictlyAscending(s, key) && p < |s|
    ensures CountBelow(s, key, key(s[p])) == p
  {
    if p == 0 {
      CountBelowNone(s[1..], key, key(s[0]));
    } else {
      PositionIsCountBelow(s[1..], key, p - 1);
    }
  }

  lemma {:induction false} InsertStrictlyAscending<T>(x: T, s: seq<T>, key: T -> int)
    requires StrictlyAscending(s, key)
    requires forall i :: 0 <= i < |s| ==> key(s[i]) != key(x)
    ensures StrictlyAscending(Insert(x, s, key), key)
  {
    if s == [] || key(x) <= key(s[0]) {
    } else {
      InsertStrictlyAscending(x, s[1..], key);
      var r := Insert(x, s[1..], key);
      forall y | y in r ensures key(s[0]) < key(y) {
        assert y in multiset(r);
      }
    }
  }

  /** With pairwise distinct keys, the sorted sequence is strictly ascending. */
  lemma {:induction false} SortByKeyStrictlyAscending<T>(s: seq<T>, key: T -> int)
    requires DistinctBy(s, key)
    ensures StrictlyAscending(SortByKey(s, key), key)
  {
    if s != [] {
      var t := SortByKey(s[1..], key);
      SortByKeyStrictlyAscending(s[1..], key);
      forall i | 0 <= i < |t| ensures key(t[i]) != key(s[0]) {
        assert t[i] in multiset(s[1..]);
        var j :| 0 <= j < |s[1..]| && s[1..][j] == t[i];
        assert s[j + 1] == t[i];
      }
      InsertStrictlyAscending(s[0], t, key);
    }
  }

  ghost predicate DistinctBy<T, U>(s: seq<T>, f: T -> U) {
    forall i, j :: 0 <= i < j < |s| ==> f(s[i]) != f(s[j])
  }

  lemma {:induction false} InsertDistinctBy<T, U>(x: T, s: seq<T>, key: T -> int, f: T -> U)
    requires DistinctBy(s, f)
    requires forall i :: 0 <= i < |s| ==> f(s[i]) != f(x)
    ensures DistinctBy(Insert(x, s, key), f)
  {
    if s == [] || key(x) <= key(s[0]) {
    } else {
      InsertDistinctBy(x, s[1..], key, f);
      var r := Insert(x, s[1..], key);
      forall i | 0 <= i < |r| ensures f(r[i]) != f(s[0]) {
        assert r[i] in multiset(s[1..]) + multiset{x};
      }
    }
  }

  /** Sorting keeps a projection that was injective injective. */
  lemma {:induction false} SortByKeyDistinctBy<T, U>(s: seq<T>, key: T -> int, f: T -> U)
    requires DistinctBy(s, f)
    ensures DistinctBy(SortByKey(s, key), f)
  {
    if s != [] {
      var t := SortByKey(s[1..], key);
      SortByKeyDistinctBy(s[1..], key, f);
      forall i | 0 <= i < |t| ensures f(t[i]) != f(s[0]) {
        assert t[i] in multiset(s[1..]);
        var j :| 0 <= j < |s[1..]| && s[1..][j] == t[i];
        assert s[j + 1] == t[i];
      }
      InsertDistinctBy(s[0], t, key, f);
    }
  }
}
