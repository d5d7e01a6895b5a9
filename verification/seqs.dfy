/** Order-preserving list operations that the pipeline's narrowing steps are
    built from: a filter, the subsequence relation, and a prefix (`s[:k]`). */
module Seqs {

  /** `r` can be obtained from `s` by deleting elements, keeping the relative
      order of what is left. */
  ghost predicate Subseq<T>(r: seq<T>, s: seq<T>)
    decreases |s|
  {
    if |r| == 0 then true
    else if |s| == 0 then false
    else (r[0] == s[0] && Subseq(r[1..], s[1..])) || Subseq(r, s[1..])
  }

  lemma {:induction false} SubseqRefl<T>(s: seq<T>)
    ensures Subseq(s, s)
    decreases |s|
  {
    if |s| > 0 {
      SubseqRefl(s[1..]);
    }
  }

  /** The elements of `s` that satisfy `p`, in their original order
      (a Python list comprehension `[x for x in s if p(x)]`). */
  function Filter<T>(p: T -> bool, s: seq<T>): (r: seq<T>)
    ensures |r| <= |s|
    ensures forall i :: 0 <= i < |r| ==> r[i] in s && p(r[i])
    ensures forall i :: 0 <= i < |s| && p(s[i]) ==> s[i] in r
    decreases |s|
  {
    if |s| == 0 then []
    else if p(s[0]) then [s[0]] + Filter(p, s[1..])
    else Filter(p, s[1..])
  }

  /** Filtering keeps `x` as often as it occurs when it satisfies `p`, and
      drops it otherwise. */
  lemma {:induction false} FilterCount<T>(p: T -> bool, s: seq<T>, x: T)
    ensures multiset(Filter(p, s))[x] == if p(x) then multiset(s)[x] else 0
    decreases |s|
  {
    if |s| > 0 {
      var t := s[1..];
      FilterCount(p, t, x);
      assert s == [s[0]] + t;
      assert multiset(s) == multiset{s[0]} + multiset(t);
      if p(s[0]) {
        assert multiset(Filter(p, s)) == multiset{s[0]} + multiset(Filter(p, t));
      } else {
        assert Filter(p, s) == Filter(p, t);
      }
    }
  }

  /** Filtering keeps every satisfying element as often as it occurs (repeats
      included) and nothing else. */
  lemma FilterCounts<T>(p: T -> bool, s: seq<T>)
    ensures multiset(Filter(p, s)) <= multiset(s)
    ensures forall i :: 0 <= i < |s| ==>
              multiset(Filter(p, s))[s[i]] == if p(s[i]) then multiset(s)[s[i]] else 0
  {
    forall x
      ensures multiset(Filter(p, s))[x] <= multiset(s)[x]
    {
      FilterCount(p, s, x);
    }
    forall i | 0 <= i < |s|
      ensures multiset(Filter(p, s))[s[i]] == if p(s[i]) then multiset(s)[s[i]] else 0
    {
      FilterCount(p, s, s[i]);
    }
  }

  lemma {:induction false} FilterIsSubseq<T>(p: T -> bool, s: seq<T>)
    ensures Subseq(Filter(p, s), s)
    decreases |s|
  {
    if |s| > 0 {
      FilterIsSubseq(p, s[1..]);
      if !p(s[0]) {
        var r := Filter(p, s[1..]);
        if |r| > 0 {
          assert Subseq(r, s[1..]);
        }
      }
    }
  }

  /** Filtering a list that already satisfies `p` everywhere returns it unchanged. */
  lemma {:induction false} FilterAllKept<T>(p: T -> bool, s: seq<T>)
    requires forall i :: 0 <= i < |s| ==> p(s[i])
    ensures Filter(p, s) == s
    decreases |s|
  {
    if |s| > 0 {
      FilterAllKept(p, s[1..]);
      assert [s[0]] + s[1..] == s;
    }
  }

  lemma FilterIdempotent<T>(p: T -> bool, s: seq<T>)
    ensures Filter(p, Filter(p, s)) == Filter(p, s)
  {
    FilterAllKept(p, Filter(p, s));
  }

  /** Filtering distributes over concatenation. */
  lemma {:induction false} FilterAppend<T>(p: T -> bool, a: seq<T>, b: seq<T>)
    ensures Filter(p, a + b) == Filter(p, a) + Filter(p, b)
    decreases |a|
  {
    if |a| > 0 {
      assert (a + b)[1..] == a[1..] + b;
      FilterAppend(p, a[1..], b);
    } else {
      assert a + b == b;
    }
  }

  /** Filtering keeps elements whose keys are pairwise distinct. */
  lemma {:induction false} FilterKeepsDistinct<T, K>(p: T -> bool, key: T -> K, s: seq<T>)
    requires forall i, j :: 0 <= i < j < |s| ==> key(s[i]) != key(s[j])
    ensures forall i, j :: 0 <= i < j < |Filter(p, s)| ==> key(Filter(p, s)[i]) != key(Filter(p, s)[j])
    decreases |s|
  {
    if |s| > 0 {
      var t := Filter(p, s[1..]);
      FilterKeepsDistinct(p, key, s[1..]);
      if p(s[0]) {
        forall j | 0 <= j < |t|
          ensures key(s[0]) != key(t[j])
        {
          var m :| 0 <= m < |s[1..]| && s[1..][m] == t[j];
          assert s[m + 1] == t[j];
        }
      }
    }
  }

  /** Python's `s[:k]`: the first `k` elements, or all of them when there are fewer. */
  function Take<T>(s: seq<T>, k: nat): (r: seq<T>)
    ensures |r| == if |s| <= k then |s| else k
    ensures forall i :: 0 <= i < |r| ==> r[i] == s[i]
  {
    if |s| <= k then s else s[..k]
  }
}
