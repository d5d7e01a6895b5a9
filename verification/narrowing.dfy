/** Batch narrowing before novelty checking: URL de-duplication and the
    quality filter (backend/scrapers/news_scraper.py). */
module Narrowing {
  import opened Wrappers
  import opened Seqs
  import opened Records

  /** `settings.MIN_CONTENT_LENGTH`. */
  const MinContentLength: int := 100

  /** The item carries a usable url (`article.get('url', '')` is truthy). */
  predicate HasUrl(it: Item)
  {
    Truthy(it.url)
  }

  /** `x` is the first element of `s` carrying `x`'s url. */
  ghost predicate IsFirstWithUrl(s: seq<Item>, x: Item)
  {
    exists i :: 0 <= i < |s| && s[i] == x && forall j :: 0 <= j < i ==> s[j].url != x.url
  }

  /** The usable urls of `s` that are not in `seen`. */
  function FreshUrls(s: seq<Item>, seen: set<string>): set<Option<string>>
  {
    set i | 0 <= i < |s| && HasUrl(s[i]) && s[i].url.value !in seen :: s[i].url
  }

  function UrlsOf(s: seq<Item>): set<Option<string>>
  {
    set i | 0 <= i < |s| :: s[i].url
  }

  /** The de-duplication loop with its `seen_urls` set made a parameter. */
  function DedupeFrom(s: seq<Item>, seen: set<string>): (r: seq<Item>)
    ensures forall i :: 0 <= i < |r| ==> HasUrl(r[i]) && r[i].url.value !in seen
    ensures forall i, j :: 0 <= i < j < |r| ==> r[i].url != r[j].url
    decreases |s|
  {
    if |s| == 0 then []
    else if HasUrl(s[0]) && s[0].url.value !in seen then
      [s[0]] + DedupeFrom(s[1..], seen + {s[0].url.value})
    else
      DedupeFrom(s[1..], seen)
  }

  /** Every survivor is the first item of the input carrying its url. */
  lemma {:induction false} DedupeFromKeepsFirst(s: seq<Item>, seen: set<string>)
    ensures forall i :: 0 <= i < |DedupeFrom(s, seen)| ==> IsFirstWithUrl(s, DedupeFrom(s, seen)[i])
    decreases |s|
  {
    if |s| > 0 {
      var rest := s[1..];
      var isNew := HasUrl(s[0]) && s[0].url.value !in seen;
      var seen' := if isNew then seen + {s[0].url.value} else seen;
      var t := DedupeFrom(rest, seen');
      DedupeFromKeepsFirst(rest, seen');
      forall i | 0 <= i < |t|
        ensures IsFirstWithUrl(s, t[i])
      {
        var k :| 0 <= k < |rest| && rest[k] == t[i] && forall j :: 0 <= j < k ==> rest[j].url != t[i].url;
        assert s[k + 1] == t[i];
        assert s[0].url != t[i].url;
      }
      if isNew {
        var r := DedupeFrom(s, seen);
        assert r == [s[0]] + t;
        forall i | 0 <= i < |r|
          ensures IsFirstWithUrl(s, r[i])
        {
          if i > 0 {
            assert r[i] == t[i - 1];
          }
        }
      }
    }
  }

  lemma UrlsOfCons(x: Item, t: seq<Item>)
    ensures UrlsOf([x] + t) == {x.url} + UrlsOf(t)
  {
    var r := [x] + t;
    assert r[0] == x;
    forall u | u in UrlsOf(r)
      ensures u in {x.url} + UrlsOf(t)
    {
      var i :| 0 <= i < |r| && r[i].url == u;
      if i > 0 {
        assert r[i] == t[i - 1];
      }
    }
    forall u | u in UrlsOf(t)
      ensures u in UrlsOf(r)
    {
      var i :| 0 <= i < |t| && t[i].url == u;
      assert r[i + 1] == t[i];
    }
  }

  lemma FreshUrlsCons(s: seq<Item>, seen: set<string>)
    requires |s| > 0
    ensures HasUrl(s[0]) && s[0].url.value !in seen ==>
      FreshUrls(s, seen) == {s[0].url} + FreshUrls(s[1..], seen + {s[0].url.value})
    ensures !(HasUrl(s[0]) && s[0].url.value !in seen) ==>
      FreshUrls(s, seen) == FreshUrls(s[1..], seen)
  {
    var rest := s[1..];
    var isNew := HasUrl(s[0]) && s[0].url.value !in seen;
    var seen' := if isNew then seen + {s[0].url.value} else seen;
    var tail := FreshUrls(rest, seen');
    var head: set<Option<string>> := if isNew then {s[0].url} else {};
    forall u | u in FreshUrls(s, seen)
      ensures u in head + tail
    {
      var i :| 0 <= i < |s| && HasUrl(s[i]) && s[i].url.value !in seen && s[i].url == u;
      if i > 0 {
        assert rest[i - 1] == s[i];
      }
    }
    forall u | u in tail
      ensures u in FreshUrls(s, seen)
    {
      var i :| 0 <= i < |rest| && HasUrl(rest[i]) && rest[i].url.value !in seen' && rest[i].url == u;
      assert s[i + 1] == rest[i];
    }
    assert FreshUrls(s, seen) == head + tail;
  }

  /** The survivors carry exactly the usable, unseen urls of the input. */
  lemma {:induction false} DedupeFromCoversUrls(s: seq<Item>, seen: set<string>)
    ensures UrlsOf(DedupeFrom(s, seen)) == FreshUrls(s, seen)
    decreases |s|
  {
    if |s| > 0 {
      FreshUrlsCons(s, seen);
      if HasUrl(s[0]) && s[0].url.value !in seen {
        DedupeFromCoversUrls(s[1..], seen + {s[0].url.value});
        UrlsOfCons(s[0], DedupeFrom(s[1..], seen + {s[0].url.value}));
      } else {
        DedupeFromCoversUrls(s[1..], seen);
      }
    }
  }

  /** `deduplicate_articles`: one item per usable url, the first one seen,
      in input order; items without a usable url are dropped. */
  function Dedupe(s: seq<Item>): (r: seq<Item>)
    ensures forall i :: 0 <= i < |r| ==> HasUrl(r[i])
    ensures forall i, j :: 0 <= i < j < |r| ==> r[i].url != r[j].url
    ensures forall i :: 0 <= i < |r| ==> IsFirstWithUrl(s, r[i])
    ensures UrlsOf(r) == FreshUrls(s, {})
  {
    DedupeFromKeepsFirst(s, {});
    DedupeFromCoversUrls(s, {});
    DedupeFrom(s, {})
  }

  lemma {:induction false} DedupeFromIsSubseq(s: seq<Item>, seen: set<string>)
    ensures Subseq(DedupeFrom(s, seen), s)
    decreases |s|
  {
    if |s| > 0 {
      if HasUrl(s[0]) && s[0].url.value !in seen {
        DedupeFromIsSubseq(s[1..], seen + {s[0].url.value});
      } else {
        DedupeFromIsSubseq(s[1..], seen);
        var r := DedupeFrom(s[1..], seen);
        if |r| > 0 {
          assert Subseq(r, s[1..]);
        }
      }
    }
  }

  /** De-duplication keeps the surviving items in their input order. */
  lemma DedupeIsSubseq(s: seq<Item>)
    ensures Subseq(Dedupe(s), s)
  {
    DedupeFromIsSubseq(s, {});
  }

  /** A list that already has distinct usable urls, none of them seen, passes unchanged. */
  lemma {:induction false} DedupeFromDistinct(s: seq<Item>, seen: set<string>)
    requires forall i :: 0 <= i < |s| ==> HasUrl(s[i]) && s[i].url.value !in seen
    requires forall i, j :: 0 <= i < j < |s| ==> s[i].url != s[j].url
    ensures DedupeFrom(s, seen) == s
    decreases |s|
  {
    if |s| > 0 {
      var seen' := seen + {s[0].url.value};
      forall i | 0 <= i < |s[1..]|
        ensures HasUrl(s[1..][i]) && s[1..][i].url.value !in seen'
      {
        assert s[1..][i] == s[i + 1];
      }
      DedupeFromDistinct(s[1..], seen');
      assert s == [s[0]] + s[1..];
    }
  }

  /** De-duplicating twice is the same as de-duplicating once. */
  lemma DedupeIdempotent(s: seq<Item>)
    ensures Dedupe(Dedupe(s)) == Dedupe(s)
  {
    DedupeFromDistinct(Dedupe(s), {});
  }

  /** `min_length or settings.MIN_CONTENT_LENGTH`: `None` and 0 fall back to 100. */
  function EffectiveMinLength(minLength: Option<int>): (n: int)
    ensures minLength.None? || minLength == Some(0) ==> n == MinContentLength
    ensures minLength.Some? && minLength.value != 0 ==> n == minLength.value
  {
    if minLength.None? || minLength.value == 0 then MinContentLength else minLength.value
  }

  /** One item passes the quality rules: content (missing counts as empty) is
      at least `minLength` long, and title and url are truthy. */
  predicate PassesQuality(it: Item, minLength: int)
  {
    |it.content.GetOr("")| >= minLength && Truthy(it.title) && Truthy(it.url)
  }

  /** `filter_articles`. */
  function FilterQuality(s: seq<Item>, minLength: Option<int>): (r: seq<Item>)
    ensures forall i :: 0 <= i < |r| ==> r[i] in s && PassesQuality(r[i], EffectiveMinLength(minLength))
    ensures forall i :: 0 <= i < |s| && PassesQuality(s[i], EffectiveMinLength(minLength)) ==> s[i] in r
  {
    var n := EffectiveMinLength(minLength);
    Filter((it: Item) => PassesQuality(it, n), s)
  }

  /** The quality filter keeps survivors in input order and is idempotent. */
  lemma FilterQualityOrderAndIdempotence(s: seq<Item>, minLength: Option<int>)
    ensures Subseq(FilterQuality(s, minLength), s)
    ensures FilterQuality(FilterQuality(s, minLength), minLength) == FilterQuality(s, minLength)
  {
    var n := EffectiveMinLength(minLength);
    FilterIsSubseq((it: Item) => PassesQuality(it, n), s);
    FilterIdempotent((it: Item) => PassesQuality(it, n), s);
  }

  /** The length bound is inclusive: content exactly `min_length` long is kept,
      one character shorter is dropped. */
  lemma QualityBoundaryInclusive(it: Item, minLength: Option<int>)
    requires Truthy(it.title) && Truthy(it.url)
    ensures |it.content.GetOr("")| == EffectiveMinLength(minLength) ==> FilterQuality([it], minLength) == [it]
    ensures |it.content.GetOr("")| == EffectiveMinLength(minLength) - 1 ==> FilterQuality([it], minLength) == []
  {
  }
}
