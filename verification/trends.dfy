/** Trend detection and the daily time series (`_update_trends` and
    `_update_trend_data_points` in backend/services/content_processor.py). */
module Trends {
  import opened Wrappers
  import opened Seqs
  import opened Text
  import opened Records
  import opened Analysis
  import opened Insights

  /** Articles published within the last thirty days feed trend detection. */
  const MonthDays: int := 30
  const DefaultStatus: string := "emerging"
  const DefaultRegion: string := "Global"

  // ---------------------------------------------------------------------
  // Theme lookup for a new trend

  /** Index of the first theme whose keyword list holds `kw` (the query's
      `.first()`, themes in storage order). */
  function FirstThemeWith(themes: seq<Theme>, kw: string): (r: Option<nat>)
    ensures r.None? <==> forall i :: 0 <= i < |themes| ==> kw !in themes[i].keywords
    ensures r.Some? ==> r.value < |themes| && kw in themes[r.value].keywords &&
                        forall j :: 0 <= j < r.value ==> kw !in themes[j].keywords
    decreases |themes|
  {
    if |themes| == 0 then None
    else if kw in themes[0].keywords then Some(0)
    else
      match FirstThemeWith(themes[1..], kw)
      case None => None
      case Some(i) => Some(i + 1)
  }

  /** Index of the first keyword some theme lists. */
  function FirstKeywordHit(themes: seq<Theme>, kws: seq<string>): (r: Option<nat>)
    ensures r.None? <==> forall k :: 0 <= k < |kws| ==> FirstThemeWith(themes, kws[k]).None?
    ensures r.Some? ==> r.value < |kws| && FirstThemeWith(themes, kws[r.value]).Some? &&
                        forall j :: 0 <= j < r.value ==> FirstThemeWith(themes, kws[j]).None?
    decreases |kws|
  {
    if |kws| == 0 then None
    else if FirstThemeWith(themes, kws[0]).Some? then Some(0)
    else
      var tail := kws[1..];
      assert forall j :: 0 <= j < |tail| ==> tail[j] == kws[j + 1];
      match FirstKeywordHit(themes, tail)
      case None => None
      case Some(k) => Some(k + 1)
  }

  /** The theme a new trend is attached to: for the trend's keywords in
      order, the first theme listing that keyword; none if no keyword is
      listed anywhere. */
  function ThemeForKeywords(vocab: Vocabulary, kws: seq<string>): (r: Option<string>)
    ensures r.None? <==> forall k, i :: 0 <= k < |kws| && 0 <= i < |vocab.themes| ==> kws[k] !in vocab.themes[i].keywords
    ensures r.Some? ==> exists k, i :: 0 <= k < |kws| && 0 <= i < |vocab.themes| &&
                          kws[k] in vocab.themes[i].keywords && r.value == vocab.themes[i].name
    ensures r.Some? ==> exists k, i :: 0 <= k < |kws| && 0 <= i < |vocab.themes| &&
                          kws[k] in vocab.themes[i].keywords && r.value == vocab.themes[i].name &&
                          (forall j, t :: 0 <= j < k && 0 <= t < |vocab.themes| ==> kws[j] !in vocab.themes[t].keywords) &&
                          (forall t :: 0 <= t < i ==> kws[k] !in vocab.themes[t].keywords)
  {
    match FirstKeywordHit(vocab.themes, kws)
    case None => None
    case Some(k) =>
      var i := FirstThemeWith(vocab.themes, kws[k]).value;
      assert forall j :: 0 <= j < k ==> FirstThemeWith(vocab.themes, kws[j]).None?;
      Some(vocab.themes[i].name)
  }

  /** A trend as the detection stage creates it. */
  function NewTrend(d: TrendData, id: nat, vocab: Vocabulary, now: int): (t: Trend)
    ensures t.id == id && t.name == d.name && t.description == d.description && t.keywords == d.keywords
    ensures t.status == Some(if d.status.Some? then d.status.value else DefaultStatus)
    ensures t.region == Some(DefaultRegion) && t.articleCount == 0 && t.momentum == d.momentum
    ensures t.startDate == now && t.lastUpdated == now
    ensures t.theme.Some? ==> t.theme.value in ThemeNames(vocab)
  {
    var theme := ThemeForKeywords(vocab, d.keywords.GetOr([]));
    assert theme.Some? ==> theme.value in ThemeNames(vocab);
    Trend(id, d.name, d.description, d.keywords, theme, now, now, 0, d.momentum,
          Some(d.status.GetOr(DefaultStatus)), Some(DefaultRegion))
  }

  function NewTrends(ds: seq<TrendData>, id: nat, vocab: Vocabulary, now: int): (r: seq<Trend>)
    ensures |r| == |ds|
    ensures forall k :: 0 <= k < |r| ==> r[k] == NewTrend(ds[k], id + k, vocab, now)
  {
    seq(|ds|, k requires 0 <= k < |ds| => NewTrend(ds[k], id + k, vocab, now))
  }

  // ---------------------------------------------------------------------
  // Daily tally of keyword mentions

  /** `title LIKE %kw% OR summary LIKE %kw%`; a missing summary never matches. */
  predicate Mentions(a: Article, kw: string)
  {
    ContainsIgnoreCase(a.title, kw) || (a.summary.Some? && ContainsIgnoreCase(a.summary.value, kw))
  }

  /** The articles published since `day` that mention `kw`. */
  function KeywordMatches(articles: seq<Article>, kw: string, day: int): (r: seq<Article>)
    ensures forall i :: 0 <= i < |r| ==> r[i] in articles && r[i].published >= day && Mentions(r[i], kw)
    ensures forall i :: 0 <= i < |articles| && articles[i].published >= day && Mentions(articles[i], kw) ==> articles[i] in r
  {
    Filter((a: Article) => a.published >= day && Mentions(a, kw), articles)
  }

  /** Sums over articles, a missing score counting as 0. */
  function SentimentSum(s: seq<Article>): real
    decreases |s|
  {
    if |s| == 0 then 0.0 else s[0].sentimentScore.GetOr(0.0) + SentimentSum(s[1..])
  }

  function SignalSum(s: seq<Article>): real
    decreases |s|
  {
    if |s| == 0 then 0.0 else s[0].signalStrength.GetOr(0.0) + SignalSum(s[1..])
  }

  datatype DailyTally = DailyTally(count: nat, sentimentTotal: real, signalTotal: real)

  /** The day's totals for a trend: summed over its keywords, so an article
      mentioning two keywords counts twice. */
  function Tally(articles: seq<Article>, kws: seq<string>, day: int): (t: DailyTally)
    ensures t.count == 0 <==>
            forall k, i :: 0 <= k < |kws| && 0 <= i < |articles| ==> !(articles[i].published >= day && Mentions(articles[i], kws[k]))
    decreases |kws|
  {
    if |kws| == 0 then DailyTally(0, 0.0, 0.0)
    else
      var m := KeywordMatches(articles, kws[0], day);
      var rest := Tally(articles, kws[1..], day);
      assert |m| == 0 <==> forall i :: 0 <= i < |articles| ==> !(articles[i].published >= day && Mentions(articles[i], kws[0])) by {
        if |m| > 0 {
          assert m[0] in articles;
        }
      }
      assert forall k :: 0 < k < |kws| ==> kws[k] == kws[1..][k - 1];
      DailyTally(|m| + rest.count, SentimentSum(m) + rest.sentimentTotal, SignalSum(m) + rest.signalTotal)
  }

  /** A single article published today is counted once for every keyword it
      mentions, repeats included. */
  lemma {:induction false} SingleArticleCountedPerKeyword(a: Article, kws: seq<string>, day: int)
    requires a.published >= day
    ensures Tally([a], kws, day).count == |Filter((kw: string) => Mentions(a, kw), kws)|
    decreases |kws|
  {
    if |kws| > 0 {
      SingleArticleCountedPerKeyword(a, kws[1..], day);
      var m := KeywordMatches([a], kws[0], day);
      if Mentions(a, kws[0]) {
        assert a in m;
        assert |m| == 1;
      } else {
        assert |m| == 0;
      }
    }
  }

  lemma KeywordMatchesAppend(a: seq<Article>, b: seq<Article>, kw: string, day: int)
    ensures KeywordMatches(a + b, kw, day) == KeywordMatches(a, kw, day) + KeywordMatches(b, kw, day)
  {
    FilterAppend((x: Article) => x.published >= day && Mentions(x, kw), a, b);
  }

  /** The count adds up over any split of the articles: tallying a day's
      articles in two parts gives the same count as tallying them at once. */
  lemma {:induction false} TallyCountAppend(a: seq<Article>, b: seq<Article>, kws: seq<string>, day: int)
    ensures Tally(a + b, kws, day).count == Tally(a, kws, day).count + Tally(b, kws, day).count
    decreases |kws|
  {
    if |kws| > 0 {
      KeywordMatchesAppend(a, b, kws[0], day);
      TallyCountAppend(a, b, kws[1..], day);
    }
  }

  // ---------------------------------------------------------------------
  // Data points

  /** A point of trend `id` dated on or after `day`. */
  predicate Today(p: TrendDataPoint, id: nat, day: int)
  {
    p.trendId == id && p.date >= day
  }

  /** The first point of trend `id` for the day, if any. */
  function FindTodayPoint(points: seq<TrendDataPoint>, id: nat, day: int): (r: Option<nat>)
    ensures r.None? <==> forall i :: 0 <= i < |points| ==> !Today(points[i], id, day)
    ensures r.Some? ==> r.value < |points| && Today(points[r.value], id, day) &&
                        forall j :: 0 <= j < r.value ==> !Today(points[j], id, day)
    decreases |points|
  {
    if |points| == 0 then None
    else if Today(points[0], id, day) then Some(0)
    else
      match FindTodayPoint(points[1..], id, day)
      case None => None
      case Some(i) => Some(i + 1)
  }

  /** The point recording a non-empty tally. */
  function PointFor(id: nat, date: int, t: DailyTally): TrendDataPoint
    requires t.count > 0
  {
    TrendDataPoint(id, date, t.count, t.sentimentTotal / (t.count as real), t.signalTotal / (t.count as real))
  }

  /** Overwrite the day's point of the trend (keeping its date), or append
      one dated at the start of the day. */
  function Upsert(points: seq<TrendDataPoint>, id: nat, day: int, t: DailyTally): (r: seq<TrendDataPoint>)
    requires t.count > 0
    ensures |points| <= |r| <= |points| + 1
    ensures forall i :: 0 <= i < |points| && !Today(points[i], id, day) ==> r[i] == points[i]
    ensures forall i :: 0 <= i < |points| ==> r[i].trendId == points[i].trendId && r[i].date == points[i].date
    ensures match FindTodayPoint(r, id, day)
            case None => false
            case Some(j) => r[j].articleCount == t.count && r[j] == PointFor(id, r[j].date, t)
  {
    match FindTodayPoint(points, id, day)
    case Some(i) => points[i := PointFor(id, points[i].date, t)]
    case None =>
      var r := points + [PointFor(id, day, t)];
      assert Today(r[|points|], id, day);
      r
  }

  /** Upserting the same tally again changes nothing. */
  lemma UpsertIdempotent(points: seq<TrendDataPoint>, id: nat, day: int, t: DailyTally)
    requires t.count > 0
    ensures Upsert(Upsert(points, id, day, t), id, day, t) == Upsert(points, id, day, t)
  {
    var r := Upsert(points, id, day, t);
    match FindTodayPoint(points, id, day)
    case Some(i) =>
      assert FindTodayPoint(r, id, day) == Some(i);
    case None =>
      assert FindTodayPoint(r, id, day) == Some(|points|);
  }

  /** No trend has two points for the same day. Only a point's trend and
      date matter, which `Upsert` never changes on an existing point. */
  ghost predicate OnePointPerDay(points: seq<TrendDataPoint>, day: int)
  {
    forall i, j :: 0 <= i < j < |points| && points[i].trendId == points[j].trendId && points[i].date >= day ==> points[j].date < day
  }

  lemma UpsertKeepsOnePointPerDay(points: seq<TrendDataPoint>, id: nat, day: int, t: DailyTally)
    requires t.count > 0
    requires OnePointPerDay(points, day)
    ensures OnePointPerDay(Upsert(points, id, day, t), day)
  {
  }

  /** The update for the trend at position `i`: with no mention today nothing
      changes; otherwise the day's point is written and the trend's count and
      update time are set. */
  function UpdateTrendPoint(store: Store, i: nat, now: int): (r: Store)
    requires i < |store.trends|
    ensures r.articles == store.articles && r.insights == store.insights && r.digests == store.digests
    ensures |r.trends| == |store.trends|
    ensures forall k :: 0 <= k < |store.trends| && k != i ==> r.trends[k] == store.trends[k]
    ensures |store.points| <= |r.points| <= |store.points| + 1
    ensures forall k :: 0 <= k < |store.points| ==> r.points[k].trendId == store.points[k].trendId
    ensures forall k :: 0 <= k < |store.points| && !Today(store.points[k], store.trends[i].id, DayStart(now)) ==>
              r.points[k] == store.points[k]
    ensures forall k :: |store.points| <= k < |r.points| ==> r.points[k].trendId == store.trends[i].id
    ensures var t := Tally(store.articles, store.trends[i].keywords.GetOr([]), DayStart(now));
            if t.count == 0 then r == store
            else r.trends[i] == store.trends[i].(articleCount := t.count, lastUpdated := now) &&
                 exists j :: 0 <= j < |r.points| && Today(r.points[j], store.trends[i].id, DayStart(now)) &&
                   r.points[j].articleCount == t.count
    ensures var t := Tally(store.articles, store.trends[i].keywords.GetOr([]), DayStart(now));
            t.count > 0 ==>
              match FindTodayPoint(r.points, store.trends[i].id, DayStart(now))
              case None => false
              case Some(j) => r.points[j] == PointFor(store.trends[i].id, r.points[j].date, t)
  {
    var tr := store.trends[i];
    var day := DayStart(now);
    var t := Tally(store.articles, tr.keywords.GetOr([]), day);
    if t.count == 0 then store
    else
      var ps := Upsert(store.points, tr.id, day, t);
      var j := FindTodayPoint(ps, tr.id, day).value;
      assert Today(ps[j], tr.id, day) && ps[j].articleCount == t.count;
      store.(points := ps, trends := store.trends[i := tr.(articleCount := t.count, lastUpdated := now)])
  }

  /** The update over the trends at positions `i` up to `n`. */
  function UpdatePointsFrom(store: Store, i: nat, n: nat, now: int): (r: Store)
    requires i <= n <= |store.trends|
    ensures r.articles == store.articles && r.insights == store.insights && r.digests == store.digests
    ensures |r.trends| == |store.trends|
    ensures forall k :: (0 <= k < i || n <= k < |store.trends|) ==> r.trends[k] == store.trends[k]
    decreases n - i
  {
    if i == n then store
    else UpdatePointsFrom(UpdateTrendPoint(store, i, now), i + 1, n, now)
  }

  /** One step of the update over `i..n`, with `j` the next position. */
  lemma UpdatePointsFromStep(store: Store, i: nat, j: nat, n: nat, now: int)
    requires i < n <= |store.trends| && j == i + 1
    ensures UpdatePointsFrom(store, i, n, now) == UpdatePointsFrom(UpdateTrendPoint(store, i, now), j, n, now)
  {
    var next := UpdateTrendPoint(store, i, now);
    assert UpdatePointsFrom(store, i, n, now) == UpdatePointsFrom(next, i + 1, n, now);
  }

  /** Trend `id`'s point for the day is found at the same position in `q` as
      in `p`, and is the same point. */
  predicate TodayPointKept(p: seq<TrendDataPoint>, q: seq<TrendDataPoint>, id: nat, day: int)
  {
    FindTodayPoint(q, id, day) == FindTodayPoint(p, id, day) &&
    (FindTodayPoint(p, id, day).Some? ==> q[FindTodayPoint(p, id, day).value] == p[FindTodayPoint(p, id, day).value])
  }

  /** The effect of the update on the trend at position `k`, with `t` its
      tally for the day: with no mention nothing changes, neither the trend
      nor its point for the day; otherwise the trend's count and update time
      are set and the point the day's query finds records the tally. */
  predicate TrendUpdated(before: Store, after: Store, k: nat, now: int)
    requires k < |before.trends| && k < |after.trends|
  {
    var id := before.trends[k].id;
    var day := DayStart(now);
    var t := Tally(before.articles, before.trends[k].keywords.GetOr([]), day);
    if t.count == 0 then
      after.trends[k] == before.trends[k] && TodayPointKept(before.points, after.points, id, day)
    else
      after.trends[k] == before.trends[k].(articleCount := t.count, lastUpdated := now) &&
      match FindTodayPoint(after.points, id, day)
      case None => false
      case Some(j) => after.points[j] == PointFor(id, after.points[j].date, t)
  }

  /** `q` changes `p` only away from trend `id`'s points for the day: those
      points stay where they are and no other point of `q` is one. */
  ghost predicate TodayPointsKept(p: seq<TrendDataPoint>, q: seq<TrendDataPoint>, id: nat, day: int)
  {
    && |p| <= |q|
    && (forall k :: 0 <= k < |p| && Today(p[k], id, day) ==> q[k] == p[k])
    && (forall k :: 0 <= k < |q| && Today(q[k], id, day) ==> k < |p| && Today(p[k], id, day))
  }

  /** A trend's point for the day stays where it is when the points change
      only away from that trend. */
  lemma FindTodayPointKept(p: seq<TrendDataPoint>, q: seq<TrendDataPoint>, id: nat, day: int)
    requires TodayPointsKept(p, q, id, day)
    ensures TodayPointKept(p, q, id, day)
  {
    var fp := FindTodayPoint(p, id, day);
    if fp.Some? {
      assert q[fp.value] == p[fp.value];
    }
  }

  lemma TodayPointsKeptTrans(a: seq<TrendDataPoint>, b: seq<TrendDataPoint>, c: seq<TrendDataPoint>, id: nat, day: int)
    requires TodayPointsKept(a, b, id, day) && TodayPointsKept(b, c, id, day)
    ensures TodayPointsKept(a, c, id, day)
  {
  }

  lemma TodayPointKeptTrans(a: seq<TrendDataPoint>, b: seq<TrendDataPoint>, c: seq<TrendDataPoint>, id: nat, day: int)
    requires TodayPointKept(a, b, id, day) && TodayPointKept(b, c, id, day)
    ensures TodayPointKept(a, c, id, day)
  {
  }

  /** Updating one trend leaves every other trend's points for the day alone. */
  lemma UpdateTrendPointKeepsOthers(store: Store, i: nat, m: nat, now: int)
    requires i < |store.trends| && store.trends[i].id != m
    ensures TodayPointsKept(store.points, UpdateTrendPoint(store, i, now).points, m, DayStart(now))
  {
    var r := UpdateTrendPoint(store, i, now);
    var day := DayStart(now);
    var id := store.trends[i].id;
    assert forall k :: 0 <= k < |store.points| && Today(store.points[k], m, day) ==> !Today(store.points[k], id, day);
  }

  /** Updating one trend keeps every trend's id. */
  lemma UpdateTrendPointKeepsIds(store: Store, i: nat, now: int)
    requires i < |store.trends| && IdsArePositions(store)
    ensures IdsArePositions(UpdateTrendPoint(store, i, now))
  {
    var next := UpdateTrendPoint(store, i, now);
    forall k | 0 <= k < |next.trends|
      ensures next.trends[k].id == k
    {
      if k != i {
        assert next.trends[k] == store.trends[k];
      }
    }
  }

  /** Updating trends `i..n` leaves the points for the day of any trend
      outside that range alone. */
  lemma {:induction false} UpdatePointsFromKeeps(store: Store, i: nat, n: nat, m: nat, now: int)
    requires i <= n <= |store.trends| && IdsArePositions(store)
    requires m < i || n <= m
    ensures TodayPointsKept(store.points, UpdatePointsFrom(store, i, n, now).points, m, DayStart(now))
    decreases n - i
  {
    var day := DayStart(now);
    if i < n {
      var j: nat := i + 1;
      var next := UpdateTrendPoint(store, i, now);
      var r := UpdatePointsFrom(next, j, n, now);
      UpdatePointsFromStep(store, i, j, n, now);
      UpdateTrendPointKeepsOthers(store, i, m, now);
      UpdateTrendPointKeepsIds(store, i, now);
      UpdatePointsFromKeeps(next, j, n, m, now);
      TodayPointsKeptTrans(store.points, next.points, r.points, m, day);
    } else {
      assert TodayPointsKept(store.points, store.points, m, day);
    }
  }

  /** An update stays in effect when a later step leaves the trend and its
      point for the day alone. */
  lemma TrendUpdatedThenKept(before: Store, mid: Store, after: Store, k: nat, now: int)
    requires k < |before.trends| && k < |mid.trends| && k < |after.trends|
    requires TrendUpdated(before, mid, k, now)
    requires after.trends[k] == mid.trends[k]
    requires TodayPointsKept(mid.points, after.points, before.trends[k].id, DayStart(now))
    ensures TrendUpdated(before, after, k, now)
  {
    var id := before.trends[k].id;
    FindTodayPointKept(mid.points, after.points, id, DayStart(now));
    var t := Tally(before.articles, before.trends[k].keywords.GetOr([]), DayStart(now));
    if t.count == 0 {
      TodayPointKeptTrans(before.points, mid.points, after.points, id, DayStart(now));
    }
  }

  /** An update is the same seen from an earlier store in which the trend, the
      articles and the trend's point for the day were already as they are. */
  lemma TrendUpdatedAfterKept(before: Store, mid: Store, after: Store, k: nat, now: int)
    requires k < |before.trends| && k < |mid.trends| && k < |after.trends|
    requires TrendUpdated(mid, after, k, now)
    requires mid.trends[k] == before.trends[k] && mid.articles == before.articles
    requires TodayPointsKept(before.points, mid.points, before.trends[k].id, DayStart(now))
    ensures TrendUpdated(before, after, k, now)
  {
    var id := before.trends[k].id;
    FindTodayPointKept(before.points, mid.points, id, DayStart(now));
    var t := Tally(before.articles, before.trends[k].keywords.GetOr([]), DayStart(now));
    if t.count == 0 {
      TodayPointKeptTrans(before.points, mid.points, after.points, id, DayStart(now));
    }
  }

  /** With distinct trend ids, every trend at positions `i..n` gets its own
      update (`TrendUpdated`): its count and update time are set from the
      day's tally, and the day's point records that tally. */
  lemma {:induction false} UpdatePointsFromEffect(store: Store, i: nat, n: nat, now: int)
    requires i <= n <= |store.trends| && IdsArePositions(store)
    ensures forall k :: i <= k < n ==> TrendUpdated(store, UpdatePointsFrom(store, i, n, now), k, now)
    decreases n - i
  {
    if i < n {
      var j: nat := i + 1;
      var next := UpdateTrendPoint(store, i, now);
      var r := UpdatePointsFrom(next, j, n, now);
      UpdatePointsFromStep(store, i, j, n, now);
      UpdateTrendPointKeepsIds(store, i, now);
      UpdatePointsFromEffect(next, j, n, now);
      assert TrendUpdated(store, r, i, now) by {
        UpdatePointsFromKeeps(next, j, n, i, now);
        assert store.trends[i].id == i;
        TrendUpdatedThenKept(store, next, r, i, now);
      }
      forall k | j <= k < n
        ensures TrendUpdated(store, r, k, now)
      {
        assert next.trends[k] == store.trends[k];
        assert store.trends[k].id == k;
        UpdateTrendPointKeepsOthers(store, i, k, now);
        TrendUpdatedAfterKept(store, next, r, k, now);
      }
    }
  }

  /** Every point of the store belongs to one of the first `n` trends. */
  ghost predicate PointsWithin(store: Store, n: nat)
  {
    forall k :: 0 <= k < |store.points| ==> store.points[k].trendId < n
  }

  /** Trend ids are their positions. */
  ghost predicate IdsArePositions(store: Store)
  {
    forall k :: 0 <= k < |store.trends| ==> store.trends[k].id == k
  }

  /** Updating trends `i..n` only writes points of those trends and keeps
      one point per trend for the day. */
  lemma {:induction false} UpdatePointsFromInvariants(store: Store, i: nat, n: nat, now: int)
    requires i <= n <= |store.trends|
    requires IdsArePositions(store) && PointsWithin(store, n)
    requires OnePointPerDay(store.points, DayStart(now))
    ensures IdsArePositions(UpdatePointsFrom(store, i, n, now))
    ensures PointsWithin(UpdatePointsFrom(store, i, n, now), n)
    ensures OnePointPerDay(UpdatePointsFrom(store, i, n, now).points, DayStart(now))
    decreases n - i
  {
    if i < n {
      var j: nat := i + 1;
      var next := UpdateTrendPoint(store, i, now);
      UpdatePointsFromStep(store, i, j, n, now);
      assert OnePointPerDay(next.points, DayStart(now)) by {
        var tr := store.trends[i];
        var t := Tally(store.articles, tr.keywords.GetOr([]), DayStart(now));
        if t.count > 0 {
          UpsertKeepsOnePointPerDay(store.points, tr.id, DayStart(now), t);
        }
      }
      assert PointsWithin(next, n) by {
        assert store.trends[i].id == i;
      }
      UpdateTrendPointKeepsIds(store, i, now);
      UpdatePointsFromInvariants(next, j, n, now);
    }
  }

  // ---------------------------------------------------------------------
  // The stage

  function ExistingNames(store: Store): (r: seq<Option<string>>)
    ensures |r| == |store.trends|
    ensures forall k :: 0 <= k < |r| ==> r[k] == store.trends[k].name
  {
    seq(|store.trends|, k requires 0 <= k < |store.trends| => store.trends[k].name)
  }

  function TrendSources(articles: seq<Article>): (r: seq<TrendSource>)
    ensures |r| == |articles|
    ensures forall k :: 0 <= k < |r| ==> r[k] == TrendSource(articles[k].title, articles[k].primaryTheme)
  {
    seq(|articles|, k requires 0 <= k < |articles| => TrendSource(articles[k].title, articles[k].primaryTheme))
  }

  /** `_update_trends`: with no article from the last thirty days nothing
      happens (not even the data-point update). Otherwise every object the
      oracle returns becomes a new trend, and the data points are then
      updated for the trends that existed before the stage: the new rows are
      still pending in a session that does not autoflush, so the query does
      not return them. */
  function UpdateTrends(svc: Service, store: Store, vocab: Vocabulary, now: int): (r: Staged)
    ensures r.store.articles == store.articles && r.store.insights == store.insights && r.store.digests == store.digests
    ensures |r.store.trends| == |store.trends| + r.count
    ensures forall k :: |store.trends| <= k < |r.store.trends| ==>
              r.store.trends[k].id == k && r.store.trends[k].articleCount == 0 &&
              r.store.trends[k].startDate == now && r.store.trends[k].lastUpdated == now
    ensures |PublishedSince(store.articles, now - MonthDays * DAY)| == 0 ==> r == Staged(store, 0)
  {
    var month := PublishedSince(store.articles, now - MonthDays * DAY);
    if |month| == 0 then Staged(store, 0)
    else
      var ds := Objects(DetectEmergingTrends(svc, TrendSources(month), ExistingNames(store)));
      var n := |store.trends|;
      var rows := NewTrends(ds, n, vocab, now);
      var added := store.(trends := store.trends + rows);
      var updated := UpdatePointsFrom(added, 0, n, now);
      assert forall k :: n <= k < |added.trends| ==> added.trends[k] == rows[k - n];
      Staged(updated, |rows|)
  }

  /** Appending the proposed trends after the existing ones keeps ids equal
      to positions. */
  lemma AddedIdsArePositions(store: Store, ds: seq<TrendData>, vocab: Vocabulary, now: int)
    requires IdsArePositions(store)
    ensures IdsArePositions(store.(trends := store.trends + NewTrends(ds, |store.trends|, vocab, now)))
  {
    var n := |store.trends|;
    var rows := NewTrends(ds, n, vocab, now);
    var added := store.(trends := store.trends + rows);
    forall k | 0 <= k < |added.trends|
      ensures added.trends[k].id == k
    {
      if k >= n {
        assert added.trends[k] == rows[k - n];
      } else {
        assert added.trends[k] == store.trends[k];
      }
    }
  }

  /** `TrendUpdated` reads only the articles, the points and trend `k` of the
      store before. */
  lemma TrendUpdatedRebase(a: Store, b: Store, after: Store, k: nat, now: int)
    requires k < |a.trends| && k < |b.trends| && k < |after.trends|
    requires a.articles == b.articles && a.points == b.points && a.trends[k] == b.trends[k]
    ensures TrendUpdated(a, after, k, now) == TrendUpdated(b, after, k, now)
  {
  }

  /** The stage keeps trend ids equal to positions, writes data points only
      for trends that existed before it (a trend first gets a point in the
      run after the one that created it), and never gives a trend two
      points for the same day. */
  lemma UpdateTrendsInvariants(svc: Service, store: Store, vocab: Vocabulary, now: int)
    requires IdsArePositions(store) && PointsWithin(store, |store.trends|)
    requires OnePointPerDay(store.points, DayStart(now))
    ensures var r := UpdateTrends(svc, store, vocab, now);
            IdsArePositions(r.store) && PointsWithin(r.store, |store.trends|) &&
            OnePointPerDay(r.store.points, DayStart(now))
  {
    var month := PublishedSince(store.articles, now - MonthDays * DAY);
    if |month| > 0 {
      var ds := Objects(DetectEmergingTrends(svc, TrendSources(month), ExistingNames(store)));
      var n := |store.trends|;
      var rows := NewTrends(ds, n, vocab, now);
      var added := store.(trends := store.trends + rows);
      AddedIdsArePositions(store, ds, vocab, now);
      UpdatePointsFromInvariants(added, 0, n, now);
    }
  }

  /** The stage with an article from the last thirty days: the proposed
      trends are appended, then the trends that existed before are updated. */
  lemma UpdateTrendsUnfold(svc: Service, store: Store, vocab: Vocabulary, now: int)
    requires |PublishedSince(store.articles, now - MonthDays * DAY)| > 0
    ensures var month := PublishedSince(store.articles, now - MonthDays * DAY);
            var ds := Objects(DetectEmergingTrends(svc, TrendSources(month), ExistingNames(store)));
            var n := |store.trends|;
            UpdateTrends(svc, store, vocab, now) ==
              Staged(UpdatePointsFrom(store.(trends := store.trends + NewTrends(ds, n, vocab, now)), 0, n, now), |ds|)
  {
  }

  /** With an article from the last thirty days, every object the oracle
      returns becomes exactly one new trend, in order and repeats included,
      built by `NewTrend` (status "emerging" unless the object gives one,
      region "Global", no articles yet) with consecutive ids after the
      existing ones (`NewTrends`); the count reported is their number. */
  lemma UpdateTrendsAddsProposedTrends(svc: Service, store: Store, vocab: Vocabulary, now: int)
    ensures var month := PublishedSince(store.articles, now - MonthDays * DAY);
            var r := UpdateTrends(svc, store, vocab, now);
            var ds := Objects(DetectEmergingTrends(svc, TrendSources(month), ExistingNames(store)));
            |month| > 0 ==>
              r.count == |ds| &&
              r.store.trends[|store.trends|..] == NewTrends(ds, |store.trends|, vocab, now)
  {
    var month := PublishedSince(store.articles, now - MonthDays * DAY);
    if |month| > 0 {
      var ds := Objects(DetectEmergingTrends(svc, TrendSources(month), ExistingNames(store)));
      var n := |store.trends|;
      var rows := NewTrends(ds, n, vocab, now);
      var added := store.(trends := store.trends + rows);
      var r := UpdateTrends(svc, store, vocab, now);
      assert r.count == |ds| && r.store.trends[n..] == rows by {
        var updated := UpdatePointsFrom(added, 0, n, now);
        UpdateTrendsUnfold(svc, store, vocab, now);
        assert added.trends[n..] == rows;
        assert updated.trends[n..] == added.trends[n..];
      }
    }
  }

  /** With an article from the last thirty days and distinct trend ids, every
      trend that existed before the stage gets the day's update
      (`TrendUpdated`): its count and update time are set from the day's
      tally, and the day's point records it. */
  lemma UpdateTrendsUpdatesExistingTrends(svc: Service, store: Store, vocab: Vocabulary, now: int)
    ensures var month := PublishedSince(store.articles, now - MonthDays * DAY);
            var r := UpdateTrends(svc, store, vocab, now);
            |month| > 0 && IdsArePositions(store) ==>
              forall k :: 0 <= k < |store.trends| ==> TrendUpdated(store, r.store, k, now)
  {
    var month := PublishedSince(store.articles, now - MonthDays * DAY);
    if |month| > 0 && IdsArePositions(store) {
      var ds := Objects(DetectEmergingTrends(svc, TrendSources(month), ExistingNames(store)));
      var n := |store.trends|;
      var rows := NewTrends(ds, n, vocab, now);
      var added := store.(trends := store.trends + rows);
      var r := UpdateTrends(svc, store, vocab, now);
      var updated := UpdatePointsFrom(added, 0, n, now);
      assert r.store == updated by {
        UpdateTrendsUnfold(svc, store, vocab, now);
      }
      AddedIdsArePositions(store, ds, vocab, now);
      assert forall k :: 0 <= k < n ==> TrendUpdated(added, updated, k, now) by {
        UpdatePointsFromEffect(added, 0, n, now);
      }
      forall k | 0 <= k < n
        ensures TrendUpdated(store, r.store, k, now)
      {
        TrendUpdatedRebase(added, store, updated, k, now);
      }
    }
  }
}
