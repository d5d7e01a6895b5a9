/** `ORDER BY key DESC [LIMIT k]` over a nullable numeric column, as SQLite
    evaluates it: NULL sorts below every number, so NULLs come last. Rows
    with equal keys keep their storage order (one of the orders SQL allows). */
module Ranking {
  import opened Wrappers
  import opened Seqs

  /** Key `a` may be listed before key `b` in descending order. */
  predicate AtLeast(a: Option<real>, b: Option<real>)
  {
    b.None? || (a.Some? && a.value >= b.value)
  }

  ghost predicate SortedDesc<T>(s: seq<T>, key: T -> Option<real>)
  {
    forall i, j :: 0 <= i < j < |s| ==> AtLeast(key(s[i]), key(s[j]))
  }

  function Insert<T>(x: T, s: seq<T>, key: T -> Option<real>): (r: seq<T>)
    requires SortedDesc(s, key)
    ensures SortedDesc(r, key)
    ensures multiset(r) == multiset(s) + multiset{x}
    decreases |s|
  {
    if |s| == 0 then [x]
    else if AtLeast(key(x), key(s[0])) then [x] + s
    else
      var rest := s[1..];
      var t := Insert(x, rest, key);
      assert forall j :: 0 <= j < |t| ==> AtLeast(key(s[0]), key(t[j])) by {
        forall j | 0 <= j < |t|
          ensures AtLeast(key(s[0]), key(t[j]))
        {
          assert t[j] in multiset(rest) + multiset{x};
          if t[j] != x {
            assert t[j] in rest;
            var m :| 0 <= m < |rest| && rest[m] == t[j];
            assert s[m + 1] == t[j];
          }
        }
      }
      assert s == [s[0]] + rest;
      [s[0]] + t
  }

  /** The rows of `s` in descending key order. */
  function SortDesc<T>(s: seq<T>, key: T -> Option<real>): (r: seq<T>)
    ensures SortedDesc(r, key)
    ensures multiset(r) == multiset(s)
    ensures |r| == |s|
    decreases |s|
  {
    if |s| == 0 then []
    else
      assert s == [s[0]] + s[1..];
      Insert(s[0], SortDesc(s[1..], key), key)
  }

  /** `ORDER BY key DESC LIMIT k`. */
  function TopK<T>(s: seq<T>, key: T -> Option<real>, k: nat): (r: seq<T>)
  {
    Take(SortDesc(s, key), k)
  }

  /** The top-k rows are at most k rows of the input, listed in descending
      key order, and no row left out ranks above a row kept. */
  lemma TopKIsTop<T>(s: seq<T>, key: T -> Option<real>, k: nat)
    ensures |TopK(s, key, k)| == if |s| <= k then |s| else k
    ensures SortedDesc(TopK(s, key, k), key)
    ensures multiset(TopK(s, key, k)) <= multiset(s)
    ensures forall x, y :: x in TopK(s, key, k) && y in multiset(s) - multiset(TopK(s, key, k))
              ==> AtLeast(key(x), key(y))
  {
    var sorted := SortDesc(s, key);
    var r := TopK(s, key, k);
    if |sorted| <= k {
      assert r == sorted;
      assert multiset(s) - multiset(r) == multiset{};
    } else {
      var rest := sorted[k..];
      assert sorted == r + rest;
      assert multiset(s) == multiset(r) + multiset(rest);
      forall x, y | x in r && y in multiset(s) - multiset(r)
        ensures AtLeast(key(x), key(y))
      {
        assert y in multiset(rest);
        assert y in rest;
        var i :| 0 <= i < |r| && r[i] == x;
        var j :| 0 <= j < |rest| && rest[j] == y;
        assert sorted[i] == x && sorted[k + j] == y;
      }
    }
  }

  /** The first row of a non-empty descending order carries the largest key. */
  lemma HeadIsMax<T>(s: seq<T>, key: T -> Option<real>, k: nat)
    requires 0 < k
    requires |s| > 0
    ensures |TopK(s, key, k)| > 0
    ensures forall y :: y in s ==> AtLeast(key(TopK(s, key, k)[0]), key(y))
  {
    var sorted := SortDesc(s, key);
    forall y | y in s
      ensures AtLeast(key(sorted[0]), key(y))
    {
      assert y in multiset(sorted);
      var j :| 0 <= j < |sorted| && sorted[j] == y;
      if j > 0 {
        assert AtLeast(key(sorted[0]), key(sorted[j]));
      }
    }
  }
}
