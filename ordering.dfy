/** The database's `ORDER BY ... LIMIT k`, modelled as an insertion sort by a
    comparator followed by a prefix. `before(a, b)` means that `a` may be listed
    ahead of `b`; rows the comparator ties may come in either order, as SQL leaves
    them unspecified. */
module Ordering {

  ghost predicate TotalPreorder<T(!new)>(before: (T, T) -> bool) {
    && (forall a, b :: before(a, b) || before(b, a))
    && (forall a, b, c :: before(a, b) && before(b, c) ==> before(a, c))
  }

  predicate Sorted<T>(s: seq<T>, before: (T, T) -> bool) {
    forall i, j :: 0 <= i < j < |s| ==> before(s[i], s[j])
  }

  function Insert<T>(x: T, s: seq<T>, before: (T, T) -> bool): (r: seq<T>)
    ensures multiset(r) == multiset(s) + multiset{x}
  {
    if s == [] then [x]
    else if before(x, s[0]) then [x] + s
    else
      assert s == [s[0]] + s[1..];
      [s[0]] + Insert(x, s[1..], before)
  }

  function SortBy<T>(s: seq<T>, before: (T, T) -> bool): (r: seq<T>)
    ensures multiset(r) == multiset(s)
  {
    if s == [] then []
    else
      assert s == [s[0]] + s[1..];
      Insert(s[0], SortBy(s[1..], before), before)
  }

  /** The first `k` rows of the table in comparator order. */
  function Top<T>(s: seq<T>, before: (T, T) -> bool, k: nat): seq<T> {
    var sorted := SortBy(s, before);
    assert |sorted| == |s| by { assert |multiset(sorted)| == |multiset(s)|; }
    if |sorted| <= k then sorted else sorted[..k]
  }

  lemma {:induction false} InsertSorted<T(!new)>(x: T, s: seq<T>, before: (T, T) -> bool)
    requires TotalPreorder(before) && Sorted(s, before)
    ensures Sorted(Insert(x, s, before), before)
    decreases |s|
  {
    if s != [] && !before(x, s[0]) {
      var rest := Insert(x, s[1..], before);
      InsertSorted(x, s[1..], before);
      assert before(s[0], x);
      forall y | y in multiset(rest) ensures before(s[0], y) {
        assert y in multiset(s[1..]) + multiset{x};
        if y != x {
          assert y in s[1..];
        }
      }
      forall j | 0 <= j < |rest| ensures before(s[0], rest[j]) {
        assert rest[j] in multiset(rest);
      }
    }
  }

  lemma {:induction false} SortBySorted<T(!new)>(s: seq<T>, before: (T, T) -> bool)
    requires TotalPreorder(before)
    ensures Sorted(SortBy(s, before), before)
    decreases |s|
  {
    if s != [] {
      SortBySorted(s[1..], before);
      InsertSorted(s[0], SortBy(s[1..], before), before);
    }
  }

  /** What `ORDER BY ... LIMIT k` promises: `min(k, |s|)` rows of the table, in
      comparator order, and every row left out comes after every row kept. */
  lemma TopIsTop<T(!new)>(s: seq<T>, before: (T, T) -> bool, k: nat)
    requires TotalPreorder(before)
    ensures |Top(s, before, k)| == if |s| <= k then |s| else k
    ensures Sorted(Top(s, before, k), before)
    ensures multiset(Top(s, before, k)) <= multiset(s)
    ensures |s| <= k ==> multiset(Top(s, before, k)) == multiset(s)
    ensures forall x, y :: x in Top(s, before, k) && y in s && y !in Top(s, before, k) ==> before(x, y)
  {
    var sorted := SortBy(s, before);
    assert |sorted| == |s| by { assert |multiset(sorted)| == |multiset(s)|; }
    SortBySorted(s, before);
    var r := Top(s, before, k);
    var m := |r|;
    assert r == sorted[..m];
    assert sorted == sorted[..m] + sorted[m..];
    assert multiset(sorted) == multiset(r) + multiset(sorted[m..]);
    forall x, y | x in r && y in s && y !in r ensures before(x, y) {
      assert y in multiset(sorted);
      var p :| 0 <= p < |sorted| && sorted[p] == y;
      var q :| 0 <= q < m && r[q] == x;
      assert p >= m;
    }
  }

  /** A value found at two indices is held at least twice. */
  lemma HeldTwice<T>(s: seq<T>, i: nat, j: nat)
    requires i < j < |s|
    ensures s[i] == s[j] ==> multiset(s)[s[i]] >= 2
  {
    assert s == s[..i] + [s[i]] + s[i + 1..j] + [s[j]] + s[j + 1..];
  }
}
