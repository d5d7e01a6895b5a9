/** Article creation (`_store_articles` in backend/services/content_processor.py):
    the featured flag, theme/sector resolution against the vocabulary, and
    the per-item flush with its failure mode. */
module ArticleStore {
  import opened Wrappers
  import opened Seqs
  import opened Records

  /** The enrichment fields as `art_data.get(...)` sees them; an item that was
      never enriched has none of the keys. */
  function EnrichmentOf(it: Item): Enrichment
  {
    match it.enrichment
    case Some(e) => e
    case None => Enrichment(None, None, None, [], None, None, [], None, None, None, false)
  }

  /** Threshold above which an article is featured. */
  const FeaturedThreshold: real := 0.8

  /** `art_data.get('signal_strength', 0) > 0.8` as written. The merge step
      always sets the key, so an annotation without a signal strength stores
      `None` there, the default 0 never applies, and `None > 0.8` raises
      TypeError (`None` here). */
  function FeaturedAsWritten(it: Item): (r: Option<bool>)
    ensures it.enrichment.None? ==> r == Some(false)
    ensures it.enrichment.Some? && it.enrichment.value.signalStrength.None? ==> r.None?
    ensures it.enrichment.Some? && it.enrichment.value.signalStrength.Some? ==>
              r == Some(it.enrichment.value.signalStrength.value > FeaturedThreshold)
  {
    match it.enrichment
    case None => Some(0.0 > FeaturedThreshold)
    case Some(e) =>
      match e.signalStrength
      case None => None
      case Some(s) => Some(s > FeaturedThreshold)
  }

  /** An enriched item whose annotation lacks a signal strength makes the
      as-written comparison raise, so the article is skipped without being
      stored, although the code supplies 0 as the default for exactly this case. */
  lemma FeaturedAsWrittenRaisesWithoutSignal()
    ensures var it := Item(Some("u"), Some("t"), Some("s"), None, None, Some(0), Some(""),
                           Some(Enrichment(None, None, None, [], None, None, [], None, None, None, false)));
            FeaturedAsWritten(it).None?
  {
  }

  /** The featured flag as intended: a missing signal strength counts as 0,
      and the threshold is strict. */
  function Featured(signal: Option<real>): (r: bool)
    ensures r <==> signal.Some? && signal.value > FeaturedThreshold
  {
    signal.GetOr(0.0) > FeaturedThreshold
  }

  /** Boundary cases: 0.81 is featured, 0.8 is not, a missing signal is not. */
  lemma FeaturedBoundary()
    ensures Featured(Some(0.81))
    ensures !Featured(Some(0.8))
    ensures !Featured(None)
  {
  }

  /** The corrected flag agrees with the as-written one wherever that one
      does not raise. */
  lemma FeaturedAgreesWhereAsWrittenDefined(it: Item)
    requires FeaturedAsWritten(it).Some?
    ensures FeaturedAsWritten(it).value == Featured(EnrichmentOf(it).signalStrength)
  {
  }

  /** Append the secondary theme names that resolve and are not attached yet. */
  function AddThemes(acc: seq<string>, names: seq<string>, vocab: Vocabulary): (r: seq<string>)
    requires forall i, j :: 0 <= i < j < |acc| ==> acc[i] != acc[j]
    ensures |acc| <= |r| && r[..|acc|] == acc
    ensures forall i, j :: 0 <= i < j < |r| ==> r[i] != r[j]
    ensures forall n :: n in r <==> n in acc || (n in names && n in ThemeNames(vocab))
    decreases |names|
  {
    if |names| == 0 then acc
    else if names[0] in ThemeNames(vocab) && names[0] !in acc then
      AddThemes(acc + [names[0]], names[1..], vocab)
    else
      AddThemes(acc, names[1..], vocab)
  }

  /** The themes attached to a new article: the primary theme first when it is
      truthy and resolves, then each resolving secondary theme not already
      attached. Unknown names are dropped, never created. */
  function ResolveThemes(primary: Option<string>, secondary: seq<string>, vocab: Vocabulary): (r: seq<string>)
    ensures forall i, j :: 0 <= i < j < |r| ==> r[i] != r[j]
    ensures forall n :: n in r <==> n in ThemeNames(vocab) && ((Truthy(primary) && n == primary.value) || n in secondary)
    ensures Truthy(primary) && primary.value in ThemeNames(vocab) ==> |r| > 0 && r[0] == primary.value
  {
    var start := if Truthy(primary) && primary.value in ThemeNames(vocab) then [primary.value] else [];
    AddThemes(start, secondary, vocab)
  }

  /** The sectors attached to a new article: every name that resolves, in
      order, including repeats (sectors are appended without a membership check). */
  function ResolveSectors(names: seq<string>, vocab: Vocabulary): (r: seq<string>)
    ensures forall i :: 0 <= i < |r| ==> r[i] in names && r[i] in vocab.sectors
    ensures forall i :: 0 <= i < |names| && names[i] in vocab.sectors ==> names[i] in r
    ensures multiset(r) <= multiset(names)
    ensures forall i :: 0 <= i < |names| ==>
              multiset(r)[names[i]] == if names[i] in vocab.sectors then multiset(names)[names[i]] else 0
  {
    var known := (n: string) => n in vocab.sectors;
    FilterCounts(known, names);
    Filter(known, names)
  }

  /** Sector resolution keeps the model's order. */
  lemma ResolveSectorsIsSubseq(names: seq<string>, vocab: Vocabulary)
    ensures Subseq(ResolveSectors(names, vocab), names)
  {
    FilterIsSubseq((n: string) => n in vocab.sectors, names);
  }

  /** `db.flush()` of the new row succeeds: the NOT NULL columns title, url,
      source and published_date are present and the url is not stored yet. */
  predicate Flushable(it: Item, store: Store)
  {
    it.url.Some? && it.title.Some? && it.source.Some? && it.published.Some? && it.url.value !in Urls(store)
  }

  /** The article row built from an item. */
  function NewArticle(it: Item, id: nat, vocab: Vocabulary, now: int): (a: Article)
    requires it.url.Some? && it.title.Some? && it.source.Some? && it.published.Some?
    ensures a.id == id && a.url == it.url.value && a.title == it.title.value && a.source == it.source.value
    ensures a.published == it.published.value && a.scraped == now
    ensures a.isFeatured <==> EnrichmentOf(it).signalStrength.Some? && EnrichmentOf(it).signalStrength.value > FeaturedThreshold
    ensures forall n :: n in a.themes ==> n in ThemeNames(vocab)
    ensures forall n :: n in a.sectors ==> n in vocab.sectors
  {
    var e := EnrichmentOf(it);
    Article(
      id := id,
      url := it.url.value,
      title := it.title.value,
      source := it.source.value,
      sourceType := it.sourceType,
      author := it.author,
      published := it.published.value,
      scraped := now,
      content := it.content,
      summary := e.summary,
      keyTakeaways := e.keyTakeaways,
      primaryTheme := e.primaryTheme,
      confidence := e.confidence,
      region := e.region,
      sentimentLabel := e.sentimentLabel,
      sentimentScore := e.sentimentScore,
      signalStrength := e.signalStrength,
      isEmerging := e.isEmerging,
      isFeatured := Featured(e.signalStrength),
      themes := ResolveThemes(e.primaryTheme, e.secondaryThemes, vocab),
      sectors := ResolveSectors(e.sectors, vocab))
  }

  /** The row carries the scraped fields and the merged annotation unchanged,
      and its themes and sectors are exactly the resolved names, in
      attachment order. */
  lemma NewArticleFromAnnotation(it: Item, id: nat, vocab: Vocabulary, now: int)
    requires it.url.Some? && it.title.Some? && it.source.Some? && it.published.Some?
    ensures var a := NewArticle(it, id, vocab, now);
            var e := EnrichmentOf(it);
            a.themes == ResolveThemes(e.primaryTheme, e.secondaryThemes, vocab) &&
            a.sectors == ResolveSectors(e.sectors, vocab)
    ensures var a := NewArticle(it, id, vocab, now);
            var e := EnrichmentOf(it);
            a.summary == e.summary && a.keyTakeaways == e.keyTakeaways && a.primaryTheme == e.primaryTheme &&
            a.confidence == e.confidence && a.region == e.region && a.sentimentLabel == e.sentimentLabel &&
            a.sentimentScore == e.sentimentScore && a.signalStrength == e.signalStrength &&
            a.isEmerging == e.isEmerging && a.sourceType == it.sourceType && a.author == it.author &&
            a.content == it.content
  {
  }

  /** The store after some items, the number stored, and whether a failed
      flush has left the session needing a rollback. */
  datatype StoreOutcome = StoreOutcome(store: Store, stored: nat, poisoned: bool)

  /** One iteration of the loop. After a failed flush every later database
      call raises too, so nothing more is stored. */
  function StoreStep(it: Item, acc: StoreOutcome, vocab: Vocabulary, now: int): (r: StoreOutcome)
    ensures |r.store.articles| == |acc.store.articles| + (r.stored - acc.stored)
    ensures r.stored >= acc.stored
    ensures r.store.articles[..|acc.store.articles|] == acc.store.articles
    ensures r.store == acc.store.(articles := r.store.articles)
    ensures acc.poisoned ==> r == acc
  {
    if acc.poisoned then acc
    else if Flushable(it, acc.store) then
      var a := NewArticle(it, |acc.store.articles|, vocab, now);
      StoreOutcome(acc.store.(articles := acc.store.articles + [a]), acc.stored + 1, false)
    else acc.(poisoned := true)
  }

  function StoreFrom(items: seq<Item>, acc: StoreOutcome, vocab: Vocabulary, now: int): (r: StoreOutcome)
    ensures |r.store.articles| == |acc.store.articles| + (r.stored - acc.stored)
    ensures r.stored >= acc.stored
    ensures r.store.articles[..|acc.store.articles|] == acc.store.articles
    ensures r.store == acc.store.(articles := r.store.articles)
    ensures acc.poisoned ==> r == acc
    decreases |items|
  {
    if |items| == 0 then acc
    else StoreFrom(items[1..], StoreStep(items[0], acc, vocab, now), vocab, now)
  }

  /** `_store_articles`: only articles whose flush succeeded are counted, and
      nothing but the article table changes. */
  function StoreArticles(items: seq<Item>, store: Store, vocab: Vocabulary, now: int): (r: StoreOutcome)
    ensures |r.store.articles| == |store.articles| + r.stored
    ensures r.store.articles[..|store.articles|] == store.articles
    ensures r.store == store.(articles := r.store.articles)
  {
    StoreFrom(items, StoreOutcome(store, 0, false), vocab, now)
  }

  /** The batch can be stored without a flush failure: required fields
      present, urls pairwise distinct and none already stored. */
  ghost predicate Insertable(items: seq<Item>, store: Store)
  {
    && (forall k :: 0 <= k < |items| ==>
          items[k].url.Some? && items[k].title.Some? && items[k].source.Some? && items[k].published.Some? &&
          items[k].url.value !in Urls(store))
    && (forall i, j :: 0 <= i < j < |items| ==> items[i].url != items[j].url)
  }

  lemma UrlsAppend(s: Store, a: Article)
    ensures Urls(s.(articles := s.articles + [a])) == Urls(s) + {a.url}
  {
    var t := s.(articles := s.articles + [a]);
    forall u | u in Urls(t)
      ensures u in Urls(s) + {a.url}
    {
      var b :| b in t.articles && b.url == u;
      var i :| 0 <= i < |t.articles| && t.articles[i] == b;
      if i < |s.articles| {
        assert s.articles[i] == b;
      }
    }
    assert t.articles[|s.articles|] == a;
    forall u | u in Urls(s)
      ensures u in Urls(t)
    {
      var b :| b in s.articles && b.url == u;
      var i :| 0 <= i < |s.articles| && s.articles[i] == b;
      assert t.articles[i] == b;
    }
  }

  /** Storing the first item of an insertable batch leaves the rest insertable. */
  lemma InsertableTail(items: seq<Item>, store: Store, a: Article)
    requires |items| > 0 && Insertable(items, store)
    requires a.url == items[0].url.value
    ensures Insertable(items[1..], store.(articles := store.articles + [a]))
  {
    var next := store.(articles := store.articles + [a]);
    UrlsAppend(store, a);
    forall k | 0 <= k < |items[1..]|
      ensures items[1..][k].url.value !in Urls(next)
    {
      assert items[1..][k] == items[k + 1];
      assert items[0].url != items[k + 1].url;
    }
    forall i, j | 0 <= i < j < |items[1..]|
      ensures items[1..][i].url != items[1..][j].url
    {
      assert items[1..][i] == items[i + 1] && items[1..][j] == items[j + 1];
    }
  }

  /** Storing a flushable item appends its row and counts it. */
  lemma StoreStepFlushable(it: Item, acc: StoreOutcome, vocab: Vocabulary, now: int)
    requires !acc.poisoned && Flushable(it, acc.store)
    ensures StoreStep(it, acc, vocab, now) ==
            StoreOutcome(acc.store.(articles := acc.store.articles + [NewArticle(it, |acc.store.articles|, vocab, now)]),
                         acc.stored + 1, false)
  {
  }

  /** A batch that can be stored is stored completely: no flush fails and
      every item is counted. */
  lemma {:induction false} StoreFromInsertableCount(items: seq<Item>, acc: StoreOutcome, vocab: Vocabulary, now: int)
    requires !acc.poisoned
    requires Insertable(items, acc.store)
    ensures !StoreFrom(items, acc, vocab, now).poisoned
    ensures StoreFrom(items, acc, vocab, now).stored == acc.stored + |items|
    decreases |items|
  {
    if |items| > 0 {
      var a := NewArticle(items[0], |acc.store.articles|, vocab, now);
      StoreStepFlushable(items[0], acc, vocab, now);
      InsertableTail(items, acc.store, a);
      StoreFromInsertableCount(items[1..], StoreStep(items[0], acc, vocab, now), vocab, now);
    }
  }

  ghost predicate Complete(items: seq<Item>)
  {
    forall k :: 0 <= k < |items| ==>
      items[k].url.Some? && items[k].title.Some? && items[k].source.Some? && items[k].published.Some?
  }

  /** The rows a batch becomes, ids counting up from `id`. */
  function Rows(items: seq<Item>, id: nat, vocab: Vocabulary, now: int): (r: seq<Article>)
    requires Complete(items)
    ensures |r| == |items|
    decreases |items|
  {
    if |items| == 0 then []
    else [NewArticle(items[0], id, vocab, now)] + Rows(items[1..], id + 1, vocab, now)
  }

  /** Row `k` of a batch is the article built from item `k` with id `id + k`. */
  lemma {:induction false} RowsAt(items: seq<Item>, id: nat, vocab: Vocabulary, now: int, k: nat)
    requires Complete(items) && k < |items|
    ensures Rows(items, id, vocab, now)[k] == NewArticle(items[k], id + k, vocab, now)
    decreases k
  {
    if k > 0 {
      RowsAt(items[1..], id + 1, vocab, now, k - 1);
    }
  }

  lemma InsertableComplete(items: seq<Item>, store: Store)
    requires Insertable(items, store)
    ensures Complete(items)
  {
  }

  lemma StoreFromCons(items: seq<Item>, acc: StoreOutcome, vocab: Vocabulary, now: int)
    requires |items| > 0
    ensures StoreFrom(items, acc, vocab, now) == StoreFrom(items[1..], StoreStep(items[0], acc, vocab, now), vocab, now)
  {
  }

  lemma RowsCons(items: seq<Item>, id: nat, vocab: Vocabulary, now: int)
    requires |items| > 0 && Complete(items)
    ensures Complete(items[1..])
    ensures Rows(items, id, vocab, now) == [NewArticle(items[0], id, vocab, now)] + Rows(items[1..], id + 1, vocab, now)
  {
  }

  /** In a batch that can be stored, the items become the next article rows,
      in order, with consecutive ids. */
  lemma StoreFromInsertableRows(items: seq<Item>, acc: StoreOutcome, vocab: Vocabulary, now: int)
    requires !acc.poisoned
    requires Insertable(items, acc.store)
    ensures Complete(items)
    ensures StoreFrom(items, acc, vocab, now).store.articles ==
            acc.store.articles + Rows(items, |acc.store.articles|, vocab, now)
  {
    InsertableComplete(items, acc.store);
    StoreFromInsertableCount(items, acc, vocab, now);
    StoreFromPrefix(items, acc, vocab, now);
    assert items[..|items|] == items;
  }

  /** If no flush failed, every item's url is now stored (whether it was
      inserted by this batch or not). */
  lemma {:induction false} StoreFromUnpoisonedStoresAll(items: seq<Item>, acc: StoreOutcome, vocab: Vocabulary, now: int)
    requires !StoreFrom(items, acc, vocab, now).poisoned
    ensures Urls(acc.store) <= Urls(StoreFrom(items, acc, vocab, now).store)
    ensures forall k :: 0 <= k < |items| ==>
              items[k].url.Some? && items[k].url.value in Urls(StoreFrom(items, acc, vocab, now).store)
    ensures StoreFrom(items, acc, vocab, now).stored == acc.stored + |items|
    decreases |items|
  {
    if |items| > 0 {
      var it := items[0];
      var next := StoreStep(it, acc, vocab, now);
      var r := StoreFrom(items, acc, vocab, now);
      assert !next.poisoned;
      assert Flushable(it, acc.store);
      var a := NewArticle(it, |acc.store.articles|, vocab, now);
      UrlsAppend(acc.store, a);
      StoreFromUnpoisonedStoresAll(items[1..], next, vocab, now);
      forall k | 0 <= k < |items|
        ensures items[k].url.Some? && items[k].url.value in Urls(r.store)
      {
        if k > 0 {
          assert items[1..][k - 1] == items[k];
        }
      }
    }
  }

  /** Storing a batch either stores all of it or reports a failed flush;
      a failure-free batch is exactly one whose rows are insertable. */
  lemma StoreArticlesAllOrPoisoned(items: seq<Item>, store: Store, vocab: Vocabulary, now: int)
    ensures Insertable(items, store) ==> !StoreArticles(items, store, vocab, now).poisoned
    ensures var r := StoreArticles(items, store, vocab, now);
            !r.poisoned ==> (r.stored == |items| && Urls(store) <= Urls(r.store) &&
              forall k :: 0 <= k < |items| ==> items[k].url.Some? && items[k].url.value in Urls(r.store))
    ensures Insertable(items, store) ==>
              Complete(items) &&
              StoreArticles(items, store, vocab, now).store.articles == store.articles + Rows(items, |store.articles|, vocab, now)
  {
    var acc := StoreOutcome(store, 0, false);
    if Insertable(items, store) {
      StoreFromInsertableCount(items, acc, vocab, now);
      StoreFromInsertableRows(items, acc, vocab, now);
    }
    if !StoreArticles(items, store, vocab, now).poisoned {
      StoreFromUnpoisonedStoresAll(items, acc, vocab, now);
    }
  }

  /** An item whose url is not stored can go in front of a batch that is
      insertable once it is stored. */
  lemma InsertableCons(items: seq<Item>, store: Store, a: Article)
    requires |items| > 0 && Flushable(items[0], store) && a.url == items[0].url.value
    requires Insertable(items[1..], store.(articles := store.articles + [a]))
    ensures Insertable(items, store)
  {
    var next := store.(articles := store.articles + [a]);
    UrlsAppend(store, a);
    forall k | 0 < k < |items|
      ensures items[k].url.Some? && items[k].url.value !in Urls(store) && items[k].url != items[0].url
    {
      assert items[1..][k - 1] == items[k];
    }
    forall i, j | 0 < i < j < |items|
      ensures items[i].url != items[j].url
    {
      assert items[1..][i - 1] == items[i] && items[1..][j - 1] == items[j];
    }
  }

  /** `r` is `acc` after storing an insertable prefix of `items` of length
      `r.stored - acc.stored`: the flush failed, if at all, at the item right
      after it. */
  ghost predicate FlushedPrefix(items: seq<Item>, acc: StoreOutcome, r: StoreOutcome)
  {
    var p := r.stored - acc.stored;
    && 0 <= p <= |items|
    && Insertable(items[..p], acc.store)
    && (r.poisoned <==> p < |items|)
    && (p < |items| ==> !Flushable(items[p], r.store))
  }

  /** The rows of that prefix, and nothing else, were added to `acc`. */
  ghost predicate PrefixRows(items: seq<Item>, acc: StoreOutcome, r: StoreOutcome, vocab: Vocabulary, now: int)
  {
    var p := r.stored - acc.stored;
    && 0 <= p <= |items|
    && Complete(items[..p])
    && r.store.articles == acc.store.articles + Rows(items[..p], |acc.store.articles|, vocab, now)
  }

  /** The rows of a prefix headed by a stored item. */
  lemma RowsOfPrefix(items: seq<Item>, p: nat, n: nat, vocab: Vocabulary, now: int)
    requires 0 < p <= |items| && Complete(items[..p])
    ensures Complete(items[1..][..p - 1])
    ensures items[0].url.Some? && items[0].title.Some? && items[0].source.Some? && items[0].published.Some?
    ensures Rows(items[..p], n, vocab, now) ==
            [NewArticle(items[0], n, vocab, now)] + Rows(items[1..][..p - 1], n + 1, vocab, now)
  {
    var pre := items[..p];
    assert pre[0] == items[0];
    assert pre[1..] == items[1..][..p - 1];
    RowsCons(pre, n, vocab, now);
  }

  /** A flushable head in front of an insertable prefix of the tail gives an
      insertable prefix of the batch. */
  lemma InsertablePrefixCons(items: seq<Item>, q: nat, store: Store, a: Article)
    requires q < |items| && Flushable(items[0], store) && a.url == items[0].url.value
    requires Insertable(items[1..][..q], store.(articles := store.articles + [a]))
    ensures Insertable(items[..q + 1], store)
  {
    var pre := items[..q + 1];
    assert pre[0] == items[0];
    assert pre[1..] == items[1..][..q];
    InsertableCons(pre, store, a);
  }

  lemma CompletePrefixCons(items: seq<Item>, q: nat)
    requires q < |items| && Complete(items[1..][..q])
    requires items[0].url.Some? && items[0].title.Some? && items[0].source.Some? && items[0].published.Some?
    ensures Complete(items[..q + 1])
  {
    forall k | 0 < k <= q
      ensures items[k].url.Some? && items[k].title.Some? && items[k].source.Some? && items[k].published.Some?
    {
      assert items[k] == items[1..][..q][k - 1];
    }
  }

  /** The step cases: a flushable head in front of a stored prefix of the tail. */
  lemma FlushedPrefixCons(items: seq<Item>, acc: StoreOutcome, r: StoreOutcome, vocab: Vocabulary, now: int)
    requires |items| > 0 && !acc.poisoned && Flushable(items[0], acc.store)
    requires FlushedPrefix(items[1..], StoreStep(items[0], acc, vocab, now), r)
    ensures FlushedPrefix(items, acc, r)
  {
    var a := NewArticle(items[0], |acc.store.articles|, vocab, now);
    StoreStepFlushable(items[0], acc, vocab, now);
    var next := StoreStep(items[0], acc, vocab, now);
    var q := r.stored - next.stored;
    InsertablePrefixCons(items, q, acc.store, a);
    if q + 1 < |items| {
      assert items[q + 1] == items[1..][q];
    }
  }

  lemma PrefixRowsCons(items: seq<Item>, acc: StoreOutcome, r: StoreOutcome, vocab: Vocabulary, now: int)
    requires |items| > 0 && !acc.poisoned && Flushable(items[0], acc.store)
    requires PrefixRows(items[1..], StoreStep(items[0], acc, vocab, now), r, vocab, now)
    ensures PrefixRows(items, acc, r, vocab, now)
  {
    var n := |acc.store.articles|;
    var a := NewArticle(items[0], n, vocab, now);
    var next := StoreStep(items[0], acc, vocab, now);
    assert next.store.articles == acc.store.articles + [a] && next.stored == acc.stored + 1 by {
      StoreStepFlushable(items[0], acc, vocab, now);
    }
    var q := r.stored - next.stored;
    assert 0 <= q < |items| && Complete(items[1..][..q]);
    var tail := Rows(items[1..][..q], n + 1, vocab, now);
    assert r.store.articles == acc.store.articles + [a] + tail;
    assert Complete(items[..q + 1]) by {
      CompletePrefixCons(items, q);
    }
    assert Rows(items[..q + 1], n, vocab, now) == [a] + tail by {
      RowsOfPrefix(items, q + 1, n, vocab, now);
    }
    assert r.store.articles == acc.store.articles + Rows(items[..q + 1], n, vocab, now) by {
      ConsAssoc(acc.store.articles, a, tail);
    }
  }

  lemma ConsAssoc<T>(xs: seq<T>, a: T, ys: seq<T>)
    ensures xs + [a] + ys == xs + ([a] + ys)
  {
  }

  /** Storing always adds the rows of the longest insertable prefix of the
      batch. The flush fails exactly when that prefix is not the whole batch,
      and then at the item right after it; nothing after that is stored. */
  lemma {:induction false} StoreFromPrefix(items: seq<Item>, acc: StoreOutcome, vocab: Vocabulary, now: int)
    requires !acc.poisoned
    ensures FlushedPrefix(items, acc, StoreFrom(items, acc, vocab, now))
    ensures PrefixRows(items, acc, StoreFrom(items, acc, vocab, now), vocab, now)
    decreases |items|
  {
    var r := StoreFrom(items, acc, vocab, now);
    if |items| == 0 {
      assert items[..0] == [];
      assert acc.store.articles + [] == acc.store.articles;
    } else {
      StoreFromCons(items, acc, vocab, now);
      if Flushable(items[0], acc.store) {
        StoreFromPrefix(items[1..], StoreStep(items[0], acc, vocab, now), vocab, now);
        FlushedPrefixCons(items, acc, r, vocab, now);
        PrefixRowsCons(items, acc, r, vocab, now);
      } else {
        assert r == acc.(poisoned := true);
        assert items[..0] == [];
        assert acc.store.articles + [] == acc.store.articles;
      }
    }
  }

  /** `_store_articles` stores the longest insertable prefix of the batch: it
      reports a failed flush exactly when the batch is not insertable, and the
      first item it could not flush is the one right after the rows it added. */
  lemma StoreArticlesStoresLongestPrefix(items: seq<Item>, store: Store, vocab: Vocabulary, now: int)
    ensures var r := StoreArticles(items, store, vocab, now);
            r.stored <= |items| && Insertable(items[..r.stored], store) && Complete(items[..r.stored]) &&
            r.store.articles == store.articles + Rows(items[..r.stored], |store.articles|, vocab, now)
    ensures var r := StoreArticles(items, store, vocab, now);
            (r.poisoned <==> !Insertable(items, store)) &&
            (r.poisoned ==> r.stored < |items| && !Flushable(items[r.stored], r.store))
  {
    var r := StoreArticles(items, store, vocab, now);
    StoreFromPrefix(items, StoreOutcome(store, 0, false), vocab, now);
    if !r.poisoned {
      assert items[..r.stored] == items;
    } else if Insertable(items, store) {
      StoreFromInsertableCount(items, StoreOutcome(store, 0, false), vocab, now);
    }
  }

  // ---------------------------------------------------------------------
  // The store loop as written, with the flag of line 176 raising

  /** The as-written flag does not raise on this item. */
  predicate Signalled(it: Item)
  {
    FeaturedAsWritten(it).Some?
  }

  /** One iteration as written. When the flag raises, the TypeError comes
      while the row is being built, before any database call: the item is
      skipped, not counted, and the session stays usable. Otherwise the row
      is the one `StoreStep` builds, since the two flags agree there
      (`FeaturedAgreesWhereAsWrittenDefined`). */
  function StoreStepAsWritten(it: Item, acc: StoreOutcome, vocab: Vocabulary, now: int): StoreOutcome
  {
    if !acc.poisoned && !Signalled(it) then acc else StoreStep(it, acc, vocab, now)
  }

  function StoreFromAsWritten(items: seq<Item>, acc: StoreOutcome, vocab: Vocabulary, now: int): StoreOutcome
    decreases |items|
  {
    if |items| == 0 then acc
    else StoreFromAsWritten(items[1..], StoreStepAsWritten(items[0], acc, vocab, now), vocab, now)
  }

  /** The as-written loop stores what the corrected loop stores once the items
      whose flag raises are taken out of the batch. */
  lemma {:induction false} StoreFromAsWrittenDropsUnsignalled(items: seq<Item>, acc: StoreOutcome, vocab: Vocabulary, now: int)
    ensures StoreFromAsWritten(items, acc, vocab, now) == StoreFrom(Filter(Signalled, items), acc, vocab, now)
    decreases |items|
  {
    if |items| > 0 {
      var f := Filter(Signalled, items[1..]);
      if Signalled(items[0]) {
        assert Filter(Signalled, items) == [items[0]] + f;
        assert ([items[0]] + f)[1..] == f;
        StoreFromAsWrittenDropsUnsignalled(items[1..], StoreStep(items[0], acc, vocab, now), vocab, now);
      } else {
        assert StoreStepAsWritten(items[0], acc, vocab, now) == acc;
        StoreFromAsWrittenDropsUnsignalled(items[1..], acc, vocab, now);
      }
    }
  }

  /** `_store_articles` as written (line 176 unguarded). */
  function StoreArticlesAsWritten(items: seq<Item>, store: Store, vocab: Vocabulary, now: int): (r: StoreOutcome)
    ensures r == StoreArticles(Filter(Signalled, items), store, vocab, now)
  {
    StoreFromAsWrittenDropsUnsignalled(items, StoreOutcome(store, 0, false), vocab, now);
    StoreFromAsWritten(items, StoreOutcome(store, 0, false), vocab, now)
  }

  /** The discrepancy: an enriched item without a signal strength that the
      corrected loop stores and counts is skipped as written, so its url stays
      unknown and the next run treats it as new again. */
  lemma AsWrittenSkipsItemWithoutSignal(it: Item, store: Store, vocab: Vocabulary, now: int)
    requires Flushable(it, store) && it.enrichment.Some? && it.enrichment.value.signalStrength.None?
    ensures StoreArticlesAsWritten([it], store, vocab, now) == StoreOutcome(store, 0, false)
    ensures it.url.value !in Urls(StoreArticlesAsWritten([it], store, vocab, now).store)
    ensures StoreArticles([it], store, vocab, now).stored == 1
    ensures it.url.value in Urls(StoreArticles([it], store, vocab, now).store)
  {
    assert Filter(Signalled, [it]) == [];
    var acc := StoreOutcome(store, 0, false);
    StoreFromCons([it], acc, vocab, now);
    var a := NewArticle(it, |store.articles|, vocab, now);
    StoreStepFlushable(it, acc, vocab, now);
    UrlsAppend(store, a);
  }

  /** "General" is one of the seeded sectors but none of the seeded themes. */
  lemma GeneralIsSectorOnly()
    ensures "General" !in ThemeNames(SeedVocabulary)
    ensures "General" in SeedVocabulary.sectors
  {
    var ts := SeedVocabulary.themes;
    forall t | t in ts
      ensures t.name != "General"
    {
      var i :| 0 <= i < |ts| && ts[i] == t;
      assert |ts| == 10;
      assert ts[i].name != "General" by {
        assert ts[i].name[0] != 'G' || |ts[i].name| != 7;
      }
    }
  }

  /** With the seeded vocabulary, an article carrying the default annotation
      gets no theme ("General" is a sector, not a theme), the single sector
      "General", and is not featured. */
  lemma DefaultAnnotationUnderSeedVocabulary(it: Item, id: nat, now: int)
    requires it.url.Some? && it.title.Some? && it.source.Some? && it.published.Some?
    requires it.enrichment == Some(Enrichment(Some("Summary unavailable"), Some([]), Some("General"), [], Some(0.0),
                                              Some("Global"), ["General"], Some("neutral"), Some(0.0), Some(0.5), false))
    ensures NewArticle(it, id, SeedVocabulary, now).themes == []
    ensures NewArticle(it, id, SeedVocabulary, now).sectors == ["General"]
    ensures !NewArticle(it, id, SeedVocabulary, now).isFeatured
  {
    GeneralIsSectorOnly();
    var a := NewArticle(it, id, SeedVocabulary, now);
    var r := ResolveSectors(["General"], SeedVocabulary);
    assert "General" in r;
    assert |r| <= 1;
    assert r == ["General"];
    var t := ResolveThemes(Some("General"), [], SeedVocabulary);
    assert t == [];
  }
}
