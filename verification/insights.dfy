/** Insight extraction (`_extract_and_store_insights` in
    backend/services/content_processor.py): the strongest recent articles go
    to the oracle, and every insight it returns is anchored to the strongest
    of them. */
module Insights {
  import opened Wrappers
  import opened Seqs
  import opened Ranking
  import opened Records
  import opened Analysis

  /** Articles published within the last seven days count as recent. */
  const RecentDays: int := 7

  /** `.limit(20)`. */
  const WindowSize: nat := 20

  function SignalOf(a: Article): Option<real>
  {
    a.signalStrength
  }

  /** The articles published at or after `since`, in storage order. */
  function PublishedSince(articles: seq<Article>, since: int): (r: seq<Article>)
    ensures forall i :: 0 <= i < |r| ==> r[i] in articles && r[i].published >= since
    ensures forall i :: 0 <= i < |articles| && articles[i].published >= since ==> articles[i] in r
  {
    Filter((a: Article) => a.published >= since, articles)
  }

  /** The articles the insight stage reads: the twenty recent ones with the
      highest signal strength, strongest first. */
  function Window(store: Store, now: int): seq<Article>
  {
    TopK(PublishedSince(store.articles, now - RecentDays * DAY), SignalOf, WindowSize)
  }

  /** The prompt rows: title and summary of each window article. */
  function Sources(window: seq<Article>): (r: seq<InsightSource>)
    ensures |r| == |window|
    ensures forall i :: 0 <= i < |r| ==> r[i] == InsightSource(window[i].title, window[i].summary)
  {
    seq(|window|, i requires 0 <= i < |window| => InsightSource(window[i].title, window[i].summary))
  }

  /** The row for one insight the oracle returned. */
  function InsightRow(d: InsightData, anchor: nat, now: int): (r: Insight)
    ensures r.articleId == anchor && r.created == now
    ensures r.title == d.title && r.description == d.description && r.relevance == d.relevance
    ensures r.impactLevel == d.impactLevel && r.timeHorizon == d.timeHorizon
  {
    Insight(anchor, d.title, d.description, d.impactLevel, d.timeHorizon, d.relevance, now)
  }

  function InsightRows(ds: seq<InsightData>, anchor: nat, now: int): (r: seq<Insight>)
    ensures |r| == |ds|
    ensures forall i :: 0 <= i < |r| ==> r[i] == InsightRow(ds[i], anchor, now)
  {
    seq(|ds|, i requires 0 <= i < |ds| => InsightRow(ds[i], anchor, now))
  }

  /** The stage: nothing happens when no article is recent; otherwise each
      object the oracle returns becomes an insight on the window's first
      article and is counted. */
  function ExtractAndStoreInsights(svc: Service, store: Store, now: int): (r: Staged)
    ensures r.store == store.(insights := r.store.insights)
    ensures |r.store.insights| == |store.insights| + r.count
    ensures r.store.insights[..|store.insights|] == store.insights
    ensures forall k :: |store.insights| <= k < |r.store.insights| ==>
              r.store.insights[k].created == now && |Window(store, now)| > 0 &&
              r.store.insights[k].articleId == Window(store, now)[0].id
  {
    var w := Window(store, now);
    if |w| == 0 then Staged(store, 0)
    else
      var rows := InsightRows(Objects(ExtractInsights(svc, Sources(w))), w[0].id, now);
      assert (store.insights + rows)[..|store.insights|] == store.insights;
      Staged(store.(insights := store.insights + rows), |rows|)
  }

  /** With a recent article, every object the oracle returns becomes exactly
      one insight, in order and repeats included, carrying that object's
      fields and anchored to the window's first article; the count reported
      is the number of those objects. */
  lemma ExtractAndStoreInsightsRows(svc: Service, store: Store, now: int)
    ensures var w := Window(store, now);
            var r := ExtractAndStoreInsights(svc, store, now);
            |w| > 0 ==>
              var ds := Objects(ExtractInsights(svc, Sources(w)));
              r.count == |ds| &&
              forall k :: 0 <= k < |ds| ==>
                r.store.insights[|store.insights| + k].title == ds[k].title &&
                r.store.insights[|store.insights| + k].description == ds[k].description &&
                r.store.insights[|store.insights| + k].impactLevel == ds[k].impactLevel &&
                r.store.insights[|store.insights| + k].timeHorizon == ds[k].timeHorizon &&
                r.store.insights[|store.insights| + k].relevance == ds[k].relevance &&
                r.store.insights[|store.insights| + k].articleId == w[0].id
  {
    var w := Window(store, now);
    if |w| > 0 {
      var ds := Objects(ExtractInsights(svc, Sources(w)));
      var rows := InsightRows(ds, w[0].id, now);
      assert ExtractAndStoreInsights(svc, store, now).store.insights == store.insights + rows;
    }
  }

  /** The window is empty exactly when no article is recent, and then the
      stage changes nothing whatever the oracle would answer. */
  lemma NoRecentArticleNoInsights(svc: Service, store: Store, now: int)
    ensures |Window(store, now)| == 0 <==>
            forall i :: 0 <= i < |store.articles| ==> store.articles[i].published < now - RecentDays * DAY
    ensures |Window(store, now)| == 0 ==> ExtractAndStoreInsights(svc, store, now) == Staged(store, 0)
  {
    var recent := PublishedSince(store.articles, now - RecentDays * DAY);
    TopKIsTop(recent, SignalOf, WindowSize);
    if |Window(store, now)| == 0 {
      assert |recent| == 0;
      forall i | 0 <= i < |store.articles|
        ensures store.articles[i].published < now - RecentDays * DAY
      {
        var a := store.articles[i];
        assert a.published >= now - RecentDays * DAY ==> a in recent;
      }
    } else {
      assert |recent| > 0;
      assert recent[0] in store.articles;
    }
  }

  /** Every new insight is anchored to a recent article whose signal strength
      is at least that of every recent article (with a missing strength
      ranking lowest). */
  lemma InsightsAnchorStrongestRecent(svc: Service, store: Store, now: int)
    ensures var r := ExtractAndStoreInsights(svc, store, now);
            r.count > 0 ==>
              exists a :: a in store.articles && a.published >= now - RecentDays * DAY &&
                (forall k :: |store.insights| <= k < |r.store.insights| ==> r.store.insights[k].articleId == a.id) &&
                forall b :: b in store.articles && b.published >= now - RecentDays * DAY ==> AtLeast(a.signalStrength, b.signalStrength)
  {
    var r := ExtractAndStoreInsights(svc, store, now);
    if r.count > 0 {
      var recent := PublishedSince(store.articles, now - RecentDays * DAY);
      var w := Window(store, now);
      assert |w| > 0;
      TopKIsTop(recent, SignalOf, WindowSize);
      assert |recent| > 0;
      HeadIsMax(recent, SignalOf, WindowSize);
      var a := w[0];
      assert a in multiset(w);
      assert a in recent;
      forall b | b in store.articles && b.published >= now - RecentDays * DAY
        ensures AtLeast(a.signalStrength, b.signalStrength)
      {
        var i :| 0 <= i < |store.articles| && store.articles[i] == b;
        assert b in recent;
        assert AtLeast(SignalOf(a), SignalOf(b));
      }
    }
  }

  /** Articles ranked below the first ten of the window never influence the
      insights. */
  lemma InsightsIgnoreTail(svc: Service, s1: Store, s2: Store, now: int)
    requires s1.insights == s2.insights
    requires |Window(s1, now)| > 0 && |Window(s2, now)| > 0
    requires Take(Window(s1, now), InsightArticleLimit) == Take(Window(s2, now), InsightArticleLimit)
    ensures ExtractAndStoreInsights(svc, s1, now).store.insights == ExtractAndStoreInsights(svc, s2, now).store.insights
  {
    var w1 := Window(s1, now);
    var w2 := Window(s2, now);
    assert w1[0] == Take(w1, InsightArticleLimit)[0] == Take(w2, InsightArticleLimit)[0] == w2[0];
    assert Take(Sources(w1), InsightArticleLimit) == Take(Sources(w2), InsightArticleLimit) by {
      assert |Take(w1, InsightArticleLimit)| == |Take(w2, InsightArticleLimit)|;
      forall i | 0 <= i < |Take(Sources(w1), InsightArticleLimit)|
        ensures Take(Sources(w1), InsightArticleLimit)[i] == Take(Sources(w2), InsightArticleLimit)[i]
      {
        assert Take(w1, InsightArticleLimit)[i] == Take(w2, InsightArticleLimit)[i];
      }
    }
    ExtractionSeesOnlyThePrefix(svc, Sources(w1), Sources(w2), [TrendSource("", None)], [TrendSource("", None)], []);
  }
}
