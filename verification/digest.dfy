/** The daily digest (`generate_daily_digest` in
    backend/services/content_processor.py). */
module DailyDigest {
  import opened Wrappers
  import opened Seqs
  import opened Ranking
  import opened Records
  import opened Analysis
  import opened Insights

  const DailyType: string := "daily"

  /** No digest without articles from the last day; an answer that is not a
      JSON object makes `.get` raise, which the entry point does not catch. */
  datatype DigestRun = NoArticles | Generated(digest: Digest, store: Store) | Failed(message: string)

  const NotAnObject: string := "digest answer is not an object"

  function RelevanceOf(i: Insight): Option<real>
  {
    i.relevance
  }

  function MomentumOf(t: Trend): Option<real>
  {
    t.momentum
  }

  /** `status == "emerging"`: a trend with no status never matches. */
  predicate IsEmergingTrend(t: Trend)
  {
    t.status == Some(DefaultEmerging)
  }

  const DefaultEmerging: string := "emerging"

  /** Insights created at or after `since`. */
  function CreatedSince(insights: seq<Insight>, since: int): (r: seq<Insight>)
    ensures forall i :: 0 <= i < |r| ==> r[i] in insights && r[i].created >= since
    ensures forall i :: 0 <= i < |insights| && insights[i].created >= since ==> insights[i] in r
  {
    Filter((x: Insight) => x.created >= since, insights)
  }

  function EmergingTrends(trends: seq<Trend>): (r: seq<Trend>)
    ensures forall i :: 0 <= i < |r| ==> r[i] in trends && IsEmergingTrend(r[i])
    ensures forall i :: 0 <= i < |trends| && IsEmergingTrend(trends[i]) ==> trends[i] in r
  {
    Filter(IsEmergingTrend, trends)
  }

  function DigestArticles(articles: seq<Article>): (r: seq<DigestArticle>)
    ensures |r| == |articles|
    ensures forall k :: 0 <= k < |r| ==>
              r[k] == DigestArticle(articles[k].title, articles[k].summary, articles[k].primaryTheme, articles[k].signalStrength)
  {
    seq(|articles|, k requires 0 <= k < |articles| =>
      DigestArticle(articles[k].title, articles[k].summary, articles[k].primaryTheme, articles[k].signalStrength))
  }

  function DigestInsights(insights: seq<Insight>): (r: seq<DigestInsight>)
    ensures |r| == |insights|
    ensures forall k :: 0 <= k < |r| ==>
              r[k] == DigestInsight(insights[k].title, insights[k].description, insights[k].impactLevel)
  {
    seq(|insights|, k requires 0 <= k < |insights| => DigestInsight(insights[k].title, insights[k].description, insights[k].impactLevel))
  }

  function DigestTrends(trends: seq<Trend>): (r: seq<DigestTrend>)
    ensures |r| == |trends|
    ensures forall k :: 0 <= k < |r| ==> r[k] == DigestTrend(trends[k].name, trends[k].description, trends[k].momentum)
  {
    seq(|trends|, k requires 0 <= k < |trends| => DigestTrend(trends[k].name, trends[k].description, trends[k].momentum))
  }

  /** The truthy values of a nullable column, as a set. */
  function Covered(values: seq<Option<string>>): (r: set<string>)
    ensures forall v :: v in r <==> exists k :: 0 <= k < |values| && Truthy(values[k]) && values[k].value == v
    decreases |values|
  {
    if |values| == 0 then {}
    else
      var rest := Covered(values[1..]);
      assert forall k :: 0 < k < |values| ==> values[k] == values[1..][k - 1];
      if Truthy(values[0]) then {values[0].value} + rest else rest
  }

  function PrimaryThemes(articles: seq<Article>): seq<Option<string>>
  {
    seq(|articles|, k requires 0 <= k < |articles| => articles[k].primaryTheme)
  }

  function Regions(articles: seq<Article>): seq<Option<string>>
  {
    seq(|articles|, k requires 0 <= k < |articles| => articles[k].region)
  }

  /** The last day's articles, strongest signal first. */
  function DayArticles(store: Store, now: int): (r: seq<Article>)
    ensures multiset(r) == multiset(PublishedSince(store.articles, now - DAY))
    ensures |r| == |PublishedSince(store.articles, now - DAY)|
    ensures SortedDesc(r, SignalOf)
  {
    SortDesc(PublishedSince(store.articles, now - DAY), SignalOf)
  }

  /** The five most relevant insights created in the last day. */
  function DayInsights(store: Store, now: int): seq<Insight>
  {
    TopK(CreatedSince(store.insights, now - DAY), RelevanceOf, DigestInsightLimit)
  }

  /** The five emerging trends with the highest momentum. */
  function TopEmerging(store: Store): seq<Trend>
  {
    TopK(EmergingTrends(store.trends), MomentumOf, DigestTrendLimit)
  }

  function TrendNames(trends: seq<Trend>): (r: seq<Option<string>>)
    ensures |r| == |trends|
    ensures forall k :: 0 <= k < |r| ==> r[k] == trends[k].name
  {
    seq(|trends|, k requires 0 <= k < |trends| => trends[k].name)
  }

  /** The oracle's digest answer for the day: the first fifteen of the day's
      articles by signal, the day's five most relevant insights and the five
      emerging trends with the highest momentum. */
  function DigestAnswer(svc: Service, store: Store, now: int): Json<DigestContent>
  {
    GenerateDigest(svc, DigestArticles(Take(DayArticles(store, now), DigestArticleLimit)),
                   DigestInsights(DayInsights(store, now)), DigestTrends(TopEmerging(store)), DailyType)
  }

  /** The digest of the day before `now`. The last day's articles are ranked
      by signal strength and the first fifteen reach the oracle; the five
      most relevant insights of the day and the five emerging trends with the
      highest momentum go with them; the count and the coverage are over all
      of the day's articles. */
  function GenerateDailyDigest(svc: Service, store: Store, now: int): (r: DigestRun)
    ensures |PublishedSince(store.articles, now - DAY)| == 0 <==> r.NoArticles?
    ensures r.Failed? <==> |PublishedSince(store.articles, now - DAY)| > 0 && DigestAnswer(svc, store, now).NonObject?
    ensures r.Failed? ==> r.message == NotAnObject
    ensures r.Generated? ==>
              var c := DigestAnswer(svc, store, now).fields;
              r.digest.title == c.title && r.digest.summary == c.summary &&
              r.digest.topStories == c.topStories && r.digest.keyInsights == c.strategicImplications
    ensures r.Generated? ==>
              r.store == store.(digests := store.digests + [r.digest]) &&
              r.digest.digestType == DailyType && r.digest.periodStart == now - DAY && r.digest.periodEnd == now &&
              r.digest.totalArticles == |PublishedSince(store.articles, now - DAY)| &&
              r.digest.emergingTrends == TrendNames(TopEmerging(store)) &&
              r.digest.themesCovered == Covered(PrimaryThemes(DayArticles(store, now))) &&
              r.digest.regionsCovered == Covered(Regions(DayArticles(store, now)))
  {
    var articles := DayArticles(store, now);
    if |articles| == 0 then NoArticles
    else
      var trends := TopEmerging(store);
      match DigestAnswer(svc, store, now)
      case NonObject => Failed(NotAnObject)
      case Object(c) =>
        var d := Digest(DailyType, now - DAY, now, c.title, c.summary, c.topStories, TrendNames(trends),
                        c.strategicImplications, |articles|,
                        Covered(PrimaryThemes(articles)), Covered(Regions(articles)));
        Generated(d, store.(digests := store.digests + [d]))
  }

  /** An article is among the day's articles exactly when it is stored and
      was published in the last day. */
  lemma DayArticlesAre(store: Store, now: int, a: Article)
    ensures a in DayArticles(store, now) <==> a in store.articles && a.published >= now - DAY
  {
    var recent := PublishedSince(store.articles, now - DAY);
    assert a in DayArticles(store, now) <==> a in multiset(recent);
    if a in store.articles && a.published >= now - DAY {
      var i :| 0 <= i < |store.articles| && store.articles[i] == a;
      assert a in recent;
    }
  }

  lemma {:induction false} DayThemesExactly(store: Store, now: int, t: string)
    ensures t in Covered(PrimaryThemes(DayArticles(store, now))) <==>
            t != "" && exists a :: a in store.articles && a.published >= now - DAY && a.primaryTheme == Some(t)
  {
    var articles := DayArticles(store, now);
    var vs := PrimaryThemes(articles);
    if t in Covered(vs) {
      var k :| 0 <= k < |vs| && Truthy(vs[k]) && vs[k].value == t;
      DayArticlesAre(store, now, articles[k]);
    }
    if t != "" && exists a :: a in store.articles && a.published >= now - DAY && a.primaryTheme == Some(t) {
      var a :| a in store.articles && a.published >= now - DAY && a.primaryTheme == Some(t);
      DayArticlesAre(store, now, a);
      var k :| 0 <= k < |articles| && articles[k] == a;
      assert vs[k] == a.primaryTheme;
    }
  }

  lemma {:induction false} DayRegionsExactly(store: Store, now: int, t: string)
    ensures t in Covered(Regions(DayArticles(store, now))) <==>
            t != "" && exists a :: a in store.articles && a.published >= now - DAY && a.region == Some(t)
  {
    var articles := DayArticles(store, now);
    var vs := Regions(articles);
    if t in Covered(vs) {
      var k :| 0 <= k < |vs| && Truthy(vs[k]) && vs[k].value == t;
      DayArticlesAre(store, now, articles[k]);
    }
    if t != "" && exists a :: a in store.articles && a.published >= now - DAY && a.region == Some(t) {
      var a :| a in store.articles && a.published >= now - DAY && a.region == Some(t);
      DayArticlesAre(store, now, a);
      var k :| 0 <= k < |articles| && articles[k] == a;
      assert vs[k] == a.region;
    }
  }

  /** A theme is covered exactly when some article of the last day has it as
      its (non-empty) primary theme. */
  lemma ThemesCoveredExactly(svc: Service, store: Store, now: int, t: string)
    requires GenerateDailyDigest(svc, store, now).Generated?
    ensures t in GenerateDailyDigest(svc, store, now).digest.themesCovered <==>
            t != "" && exists a :: a in store.articles && a.published >= now - DAY && a.primaryTheme == Some(t)
  {
    DayThemesExactly(store, now, t);
  }

  /** A region is covered exactly when some article of the last day has it
      (non-empty) as its region. */
  lemma RegionsCoveredExactly(svc: Service, store: Store, now: int, t: string)
    requires GenerateDailyDigest(svc, store, now).Generated?
    ensures t in GenerateDailyDigest(svc, store, now).digest.regionsCovered <==>
            t != "" && exists a :: a in store.articles && a.published >= now - DAY && a.region == Some(t)
  {
    DayRegionsExactly(store, now, t);
  }

  /** The articles the oracle sees are at most fifteen of the last day's,
      strongest signal first, and no article of the day left out has a
      stronger signal than one sent. */
  lemma DigestArticlesAreTop(store: Store, now: int)
    ensures var sent := Take(DayArticles(store, now), DigestArticleLimit);
            |sent| <= DigestArticleLimit && SortedDesc(sent, SignalOf) &&
            (forall a :: a in sent ==> a in store.articles && a.published >= now - DAY)
    ensures var day := PublishedSince(store.articles, now - DAY);
            var sent := Take(DayArticles(store, now), DigestArticleLimit);
            forall x, y :: x in sent && y in multiset(day) - multiset(sent) ==> AtLeast(SignalOf(x), SignalOf(y))
  {
    var day := PublishedSince(store.articles, now - DAY);
    var sent := Take(DayArticles(store, now), DigestArticleLimit);
    assert sent == TopK(day, SignalOf, DigestArticleLimit);
    TopKIsTop(day, SignalOf, DigestArticleLimit);
    forall a | a in sent
      ensures a in store.articles && a.published >= now - DAY
    {
      assert a in multiset(day);
      var k :| 0 <= k < |day| && day[k] == a;
    }
  }

  /** The insights the oracle sees are at most five of those created in the
      last day, most relevant first, and none left out is more relevant. */
  lemma DayInsightsAreTop(store: Store, now: int)
    ensures var sent := DayInsights(store, now);
            |sent| <= DigestInsightLimit && SortedDesc(sent, RelevanceOf) &&
            (forall i :: i in sent ==> i in store.insights && i.created >= now - DAY)
    ensures var day := CreatedSince(store.insights, now - DAY);
            var sent := DayInsights(store, now);
            forall x, y :: x in sent && y in multiset(day) - multiset(sent) ==> AtLeast(RelevanceOf(x), RelevanceOf(y))
  {
    var day := CreatedSince(store.insights, now - DAY);
    var sent := DayInsights(store, now);
    TopKIsTop(day, RelevanceOf, DigestInsightLimit);
    forall i | i in sent
      ensures i in store.insights && i.created >= now - DAY
    {
      assert i in multiset(day);
      var k :| 0 <= k < |day| && day[k] == i;
    }
  }

  /** When the oracle call fails, a day with articles still gets a digest:
      the fallback title and summary, no stories and no implications. */
  lemma FailedCallGivesFallbackDigest(svc: Service, store: Store, now: int)
    requires |PublishedSince(store.articles, now - DAY)| > 0
    requires svc.oracle.complete(DigestRequest(
               Take(DigestArticles(Take(DayArticles(store, now), DigestArticleLimit)), DigestArticleLimit),
               Take(DigestInsights(DayInsights(store, now)), DigestInsightLimit),
               Take(DigestTrends(TopEmerging(store)), DigestTrendLimit), DailyType)).Err?
    ensures var r := GenerateDailyDigest(svc, store, now);
            r.Generated? && r.digest.title == Some("Daily HR Signals Digest") &&
            r.digest.summary == Some("Error generating digest") &&
            r.digest.topStories == Some([]) && r.digest.keyInsights == Some([])
  {
    DailyFallbackTitle();
  }

  /** The digest names at most five trends, all emerging, and no emerging
      trend left out has higher momentum than one named. */
  lemma TopEmergingAreTop(store: Store)
    ensures |TopEmerging(store)| <= DigestTrendLimit
    ensures forall t :: t in TopEmerging(store) ==> t in store.trends && IsEmergingTrend(t)
    ensures forall x, y :: x in TopEmerging(store) && y in multiset(EmergingTrends(store.trends)) - multiset(TopEmerging(store)) ==>
              AtLeast(x.momentum, y.momentum)
  {
    var em := EmergingTrends(store.trends);
    TopKIsTop(em, MomentumOf, DigestTrendLimit);
    forall t | t in TopEmerging(store)
      ensures t in store.trends && IsEmergingTrend(t)
    {
      assert t in multiset(em);
      var k :| 0 <= k < |em| && em[k] == t;
    }
  }
}
