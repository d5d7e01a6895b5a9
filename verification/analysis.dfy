/** The deterministic shell around the text-analysis oracle
    (backend/services/ai_service.py): credential check, input truncation,
    extraction of a fenced JSON block from the response, and the fallbacks
    that replace a failed call. The model call itself and `json.loads` are
    the `Oracle`'s total functions. */
module Analysis {
  import opened Wrappers
  import opened Seqs
  import opened Text
  import opened Records

  /** A parsed JSON document that either is an object (a Python dict, viewed
      through the fields the code reads) or is some other JSON value. */
  datatype Json<T> = Object(fields: T) | NonObject

  /** The entries of an answer list that are objects, in order. The callers
      skip the others: `.get` on a non-dict raises inside their per-entry
      `try`. */
  function Objects<T>(xs: seq<Json<T>>): (r: seq<T>)
    ensures |r| <= |xs|
    ensures forall i :: 0 <= i < |r| ==> Object(r[i]) in xs
    ensures forall i :: 0 <= i < |xs| && xs[i].Object? ==> xs[i].fields in r
    decreases |xs|
  {
    if |xs| == 0 then []
    else if xs[0].Object? then [xs[0].fields] + Objects(xs[1..])
    else Objects(xs[1..])
  }

  /** A one-entry list keeps its entry exactly when it is an object. */
  lemma ObjectsSingleton<T>(x: Json<T>)
    ensures Objects([x]) == if x.Object? then [x.fields] else []
  {
  }

  /** `Objects` works entry by entry: the objects of a concatenation are those
      of each part, in order, so each object entry is kept once per occurrence
      (repeats included). */
  lemma {:induction false} ObjectsAppend<T>(xs: seq<Json<T>>, ys: seq<Json<T>>)
    ensures Objects(xs + ys) == Objects(xs) + Objects(ys)
    decreases |xs|
  {
    if |xs| == 0 {
      assert xs + ys == ys;
    } else {
      assert (xs + ys)[0] == xs[0];
      assert (xs + ys)[1..] == xs[1..] + ys;
      ObjectsAppend(xs[1..], ys);
    }
  }

  /** Every entry of an all-object list is kept, in order. */
  lemma {:induction false} ObjectsOfObjects<T>(xs: seq<T>)
    ensures Objects(seq(|xs|, i requires 0 <= i < |xs| => Object(xs[i]))) == xs
    decreases |xs|
  {
    if |xs| > 0 {
      var js := seq(|xs|, i requires 0 <= i < |xs| => Object(xs[i]));
      ObjectsOfObjects(xs[1..]);
      assert js[1..] == seq(|xs[1..]|, i requires 0 <= i < |xs[1..]| => Object(xs[1..][i]));
      assert xs == [xs[0]] + xs[1..];
    }
  }

  /** The annotation object the oracle returns for one article; every key may
      be absent. */
  datatype Annotation = Annotation(
    summary: Option<string>,
    keyTakeaways: Option<seq<string>>,
    primaryTheme: Option<string>,
    secondaryThemes: Option<seq<string>>,
    confidence: Option<real>,
    region: Option<string>,
    sectors: Option<seq<string>>,
    sentiment: Option<string>,
    sentimentExplanation: Option<string>,
    sentimentScore: Option<real>,
    signalStrength: Option<real>,
    timeHorizon: Option<string>,
    isEmerging: Option<bool>,
    impactLevel: Option<string>)

  datatype InsightData = InsightData(
    title: Option<string>,
    description: Option<string>,
    impactLevel: Option<string>,
    timeHorizon: Option<string>,
    relevance: Option<real>)

  datatype TrendData = TrendData(
    name: Option<string>,
    description: Option<string>,
    keywords: Option<seq<string>>,
    status: Option<string>,
    momentum: Option<real>)

  datatype DigestContent = DigestContent(
    title: Option<string>,
    summary: Option<string>,
    topStories: Option<seq<string>>,
    strategicImplications: Option<seq<string>>)

  /** What each prompt is built from. */
  datatype InsightSource = InsightSource(title: string, summary: Option<string>)
  datatype TrendSource = TrendSource(title: string, primaryTheme: Option<string>)
  datatype DigestArticle = DigestArticle(title: string, summary: Option<string>, primaryTheme: Option<string>, signal: Option<real>)
  datatype DigestInsight = DigestInsight(title: Option<string>, description: Option<string>, impactLevel: Option<string>)
  datatype DigestTrend = DigestTrend(name: Option<string>, description: Option<string>, momentum: Option<real>)

  /** The data a prompt carries to the model, after truncation. */
  datatype Request =
    | AnalyzeRequest(title: string, content: string, url: string)
    | InsightsRequest(insightArticles: seq<InsightSource>)
    | TrendsRequest(trendArticles: seq<TrendSource>, existing: seq<Option<string>>)
    | DigestRequest(digestArticles: seq<DigestArticle>, insights: seq<DigestInsight>, trends: seq<DigestTrend>, period: string)

  /** The external collaborators: `complete` answers a request with the
      response text or the message of the exception it raised; each decoder
      is `json.loads` followed by the `.get` calls of its caller, failing with
      the parse error. The insight and trend decoders yield the value of the
      "insights"/"trends" key (`None` when absent) and the list's entries. */
  datatype Oracle = Oracle(
    complete: Request -> Result<string, string>,
    decodeAnalysis: string -> Result<Json<Annotation>, string>,
    decodeInsights: string -> Result<Json<Option<seq<Json<InsightData>>>>, string>,
    decodeTrends: string -> Result<Json<Option<seq<Json<TrendData>>>>, string>,
    decodeDigest: string -> Result<Json<DigestContent>, string>)

  /** A constructed `AIAnalysisService`. */
  datatype Service = Service(apiKey: string, oracle: Oracle)

  const KeyRequired: string := "Anthropic API key is required"

  /** The constructor: the explicit key if truthy, else the configured one;
      construction raises when neither is truthy. */
  function NewService(apiKey: Option<string>, configured: Option<string>, oracle: Oracle): (r: Result<Service, string>)
    ensures r.Err? <==> !Truthy(apiKey) && !Truthy(configured)
    ensures r.Err? ==> r.error == KeyRequired
    ensures r.Ok? ==> r.value.apiKey != ""
    ensures r.Ok? && Truthy(apiKey) ==> r.value.apiKey == apiKey.value
    ensures r.Ok? && !Truthy(apiKey) ==> r.value.apiKey == configured.value
  {
    var key := if Truthy(apiKey) then apiKey else configured;
    if !Truthy(key) then Err(KeyRequired) else Ok(Service(key.value, oracle))
  }

  // ---------------------------------------------------------------------
  // Fenced JSON extraction: re.search(r'```json\n(.*?)\n```', text, re.DOTALL)

  const JsonOpen: string := "```json\n"
  const JsonClose: string := "\n```"

  /** `k` is the leftmost occurrence of `pat` in `s` at or after `from`. */
  ghost predicate FirstAt(s: string, pat: string, from: nat, k: nat)
  {
    from <= k && MatchAt(s, pat, k) && forall m: nat :: from <= m < k ==> !MatchAt(s, pat, m)
  }

  /** `pat` does not occur in `s` at or after `from`. */
  ghost predicate AbsentFrom(s: string, pat: string, from: nat)
  {
    forall m: nat :: from <= m ==> !MatchAt(s, pat, m)
  }

  /** The leftmost opening fence is at `i` and the first closing fence after it at `j`. */
  ghost predicate FenceAt(text: string, i: nat, j: nat)
  {
    FirstAt(text, JsonOpen, 0, i) && FirstAt(text, JsonClose, i + |JsonOpen|, j)
  }

  /** The body of the first complete ```json fence in the response, or the
      whole response when there is none. The leftmost opening fence decides:
      if it has no closing fence after it, no later opening fence has one either. */
  function ExtractJsonBlock(text: string): (body: string)
    ensures AbsentFrom(text, JsonOpen, 0) ==> body == text
    ensures forall i: nat, j: nat :: FenceAt(text, i, j) ==> body == text[i + |JsonOpen|..j]
    ensures forall i: nat :: FirstAt(text, JsonOpen, 0, i) && AbsentFrom(text, JsonClose, i + |JsonOpen|)
              ==> body == text
  {
    match FindFrom(text, JsonOpen, 0)
    case None => text
    case Some(i) =>
      match FindFrom(text, JsonClose, i + |JsonOpen|)
      case None => text
      case Some(j) => text[i + |JsonOpen|..j]
  }

  /** A closing fence at `e` rules out one starting one to three characters earlier. */
  lemma NoStraddlingClose(w: string, e: nat, k: nat)
    requires k < e < k + |JsonClose| && e + |JsonClose| <= |w|
    requires w[e..e + |JsonClose|] == JsonClose
    ensures !MatchAt(w, JsonClose, k)
  {
    assert JsonClose[0] == '\n';
    assert w[e] == w[e..e + |JsonClose|][0] == '\n';
    assert JsonClose[e - k] == '`';
    assert w[k..k + |JsonClose|][e - k] == w[e];
  }

  /** Wrapping a body that contains no closing fence and extracting gives the body back. */
  lemma ExtractJsonBlockRoundTrip(b: string)
    requires !Occurs(b, JsonClose)
    ensures ExtractJsonBlock(JsonOpen + b + JsonClose) == b
  {
    var w := JsonOpen + b + JsonClose;
    var n := |JsonOpen|;
    var e := n + |b|;
    assert w[..n] == JsonOpen;
    assert MatchAt(w, JsonOpen, 0);
    assert FindFrom(w, JsonOpen, 0) == Some(0);
    assert w[e..e + |JsonClose|] == JsonClose;
    assert MatchAt(w, JsonClose, e);
    forall k: nat | n <= k < e
      ensures !MatchAt(w, JsonClose, k)
    {
      if k + |JsonClose| <= e {
        assert w[k..k + |JsonClose|] == b[k - n..k - n + |JsonClose|];
        assert !MatchAt(b, JsonClose, k - n);
      } else {
        NoStraddlingClose(w, e, k);
      }
    }
    assert FindFrom(w, JsonClose, n) == Some(e);
    assert w[n..e] == b;
  }

  // ---------------------------------------------------------------------
  // The analysis calls and their fallbacks

  /** `_default_analysis`: the annotation used whenever the call or the parse fails. */
  function DefaultAnalysis(): Annotation
  {
    Annotation(
      summary := Some("Summary unavailable"),
      keyTakeaways := Some([]),
      primaryTheme := Some("General"),
      secondaryThemes := Some([]),
      confidence := Some(0.0),
      region := Some("Global"),
      sectors := Some(["General"]),
      sentiment := Some("neutral"),
      sentimentExplanation := Some("N/A"),
      sentimentScore := Some(0.0),
      signalStrength := Some(0.5),
      timeHorizon := Some("short-term"),
      isEmerging := Some(false),
      impactLevel := Some("medium"))
  }

  /** Send a request and decode the fenced (or bare) JSON of the answer. */
  function Ask<T>(response: Result<string, string>, decode: string -> Result<Json<T>, string>): (r: Result<Json<T>, string>)
    ensures response.Err? ==> r.Err?
  {
    match response
    case Err(e) => Err(e)
    case Ok(text) => decode(ExtractJsonBlock(text))
  }

  /** `content[:5000]`. */
  const AnalysisContentLimit: nat := 5000

  /** `analyze_article`: returns whatever JSON the oracle produced, or the
      default annotation when the call or the parse fails; it never raises. */
  function AnalyzeArticle(svc: Service, title: string, content: string, url: string): (r: Json<Annotation>)
    ensures var req := AnalyzeRequest(title, Take(content, AnalysisContentLimit), url);
            Ask(svc.oracle.complete(req), svc.oracle.decodeAnalysis).Err? ==> r == Object(DefaultAnalysis())
  {
    var req := AnalyzeRequest(title, Take(content, AnalysisContentLimit), url);
    match Ask(svc.oracle.complete(req), svc.oracle.decodeAnalysis)
    case Err(_) => Object(DefaultAnalysis())
    case Ok(j) => j
  }

  /** When the call and the parse succeed, `analyze_article` returns the
      parsed answer as it is. */
  lemma AnalyzeArticleReturnsAnswer(svc: Service, title: string, content: string, url: string)
    ensures var a := Ask(svc.oracle.complete(AnalyzeRequest(title, Take(content, AnalysisContentLimit), url)), svc.oracle.decodeAnalysis);
            a.Ok? ==> AnalyzeArticle(svc, title, content, url) == a.value
  {
  }

  /** The dict accessors `art.get('title', '')` etc. of the batch helpers. */
  function AnalyzeItem(svc: Service, it: Item): Json<Annotation>
  {
    AnalyzeArticle(svc, it.title.GetOr(""), it.content.GetOr(""), it.url.GetOr(""))
  }

  /** Only the first 5000 characters of the content reach the oracle. */
  lemma AnalyzeArticleSeesTruncatedContent(svc: Service, title: string, c1: string, c2: string, url: string)
    requires Take(c1, AnalysisContentLimit) == Take(c2, AnalysisContentLimit)
    ensures AnalyzeArticle(svc, title, c1, url) == AnalyzeArticle(svc, title, c2, url)
  {
  }

  /** `articles[:10]`. */
  const InsightArticleLimit: nat := 10

  /** `extract_insights`: [] for no articles (no call is made); otherwise the
      "insights" list of the answer for the first ten, or [] on any failure,
      a non-object answer or a missing key. */
  function ExtractInsights(svc: Service, articles: seq<InsightSource>): (r: seq<Json<InsightData>>)
    ensures |articles| == 0 ==> r == []
    ensures svc.oracle.complete(InsightsRequest(Take(articles, InsightArticleLimit))).Err? ==> r == []
    ensures |articles| > 0 ==>
              var a := Ask(svc.oracle.complete(InsightsRequest(Take(articles, InsightArticleLimit))), svc.oracle.decodeInsights);
              (a.Err? || a == Ok(NonObject) || a == Ok(Object(None)) ==> r == []) &&
              (a.Ok? && a.value.Object? && a.value.fields.Some? ==> r == a.value.fields.value)
  {
    if |articles| == 0 then []
    else
      var answer: Result<Json<Option<seq<Json<InsightData>>>>, string> :=
        Ask(svc.oracle.complete(InsightsRequest(Take(articles, InsightArticleLimit))), svc.oracle.decodeInsights);
      match answer
      case Ok(Object(Some(xs))) => xs
      case _ => []
  }

  /** `articles[:20]`. */
  const TrendArticleLimit: nat := 20

  /** `detect_emerging_trends`: [] for no articles (no call is made);
      otherwise the "trends" list of the answer for the first twenty, or []
      on any failure, a non-object answer or a missing key. */
  function DetectEmergingTrends(svc: Service, articles: seq<TrendSource>, existing: seq<Option<string>>): (r: seq<Json<TrendData>>)
    ensures |articles| == 0 ==> r == []
    ensures svc.oracle.complete(TrendsRequest(Take(articles, TrendArticleLimit), existing)).Err? ==> r == []
    ensures |articles| > 0 ==>
              var a := Ask(svc.oracle.complete(TrendsRequest(Take(articles, TrendArticleLimit), existing)), svc.oracle.decodeTrends);
              (a.Err? || a == Ok(NonObject) || a == Ok(Object(None)) ==> r == []) &&
              (a.Ok? && a.value.Object? && a.value.fields.Some? ==> r == a.value.fields.value)
  {
    if |articles| == 0 then []
    else
      var answer: Result<Json<Option<seq<Json<TrendData>>>>, string> :=
        Ask(svc.oracle.complete(TrendsRequest(Take(articles, TrendArticleLimit), existing)), svc.oracle.decodeTrends);
      match answer
      case Ok(Object(Some(xs))) => xs
      case _ => []
  }

  /** With no articles, neither insight nor trend extraction consults the
      oracle: any two services give the same (empty) answer. */
  lemma EmptyInputNeedsNoOracle(s1: Service, s2: Service, existing: seq<Option<string>>)
    ensures ExtractInsights(s1, []) == ExtractInsights(s2, []) == []
    ensures DetectEmergingTrends(s1, [], existing) == DetectEmergingTrends(s2, [], existing) == []
  {
  }

  /** Articles beyond the first ten (insights) or twenty (trends) never
      influence the result. */
  lemma ExtractionSeesOnlyThePrefix(svc: Service, a: seq<InsightSource>, b: seq<InsightSource>,
                                    c: seq<TrendSource>, d: seq<TrendSource>, existing: seq<Option<string>>)
    requires |a| > 0 && |b| > 0 && Take(a, InsightArticleLimit) == Take(b, InsightArticleLimit)
    requires |c| > 0 && |d| > 0 && Take(c, TrendArticleLimit) == Take(d, TrendArticleLimit)
    ensures ExtractInsights(svc, a) == ExtractInsights(svc, b)
    ensures DetectEmergingTrends(svc, c, existing) == DetectEmergingTrends(svc, d, existing)
  {
  }

  const DigestArticleLimit: nat := 15
  const DigestInsightLimit: nat := 5
  const DigestTrendLimit: nat := 5

  /** The digest returned when the call or the parse fails. */
  function FallbackDigest(period: string): (d: DigestContent)
    ensures d.title == Some(Capitalize(period) + " HR Signals Digest")
    ensures d.summary == Some("Error generating digest")
    ensures d.topStories == Some([]) && d.strategicImplications == Some([])
  {
    DigestContent(Some(Capitalize(period) + " HR Signals Digest"), Some("Error generating digest"), Some([]), Some([]))
  }

  /** `generate_digest`: at most 15 articles, 5 insights and 5 trends reach the
      oracle; a failed call or parse gives the fallback digest. */
  function GenerateDigest(svc: Service, articles: seq<DigestArticle>, insights: seq<DigestInsight>,
                          trends: seq<DigestTrend>, period: string): (r: Json<DigestContent>)
    ensures var req := DigestRequest(Take(articles, DigestArticleLimit), Take(insights, DigestInsightLimit),
                                     Take(trends, DigestTrendLimit), period);
            svc.oracle.complete(req).Err? ==> r == Object(FallbackDigest(period))
    ensures var req := DigestRequest(Take(articles, DigestArticleLimit), Take(insights, DigestInsightLimit),
                                     Take(trends, DigestTrendLimit), period);
            var a := Ask(svc.oracle.complete(req), svc.oracle.decodeDigest);
            (a.Err? ==> r == Object(FallbackDigest(period))) && (a.Ok? ==> r == a.value)
  {
    var req := DigestRequest(Take(articles, DigestArticleLimit), Take(insights, DigestInsightLimit),
                             Take(trends, DigestTrendLimit), period);
    match Ask(svc.oracle.complete(req), svc.oracle.decodeDigest)
    case Err(_) => Object(FallbackDigest(period))
    case Ok(j) => j
  }

  lemma LowerAily()
    ensures Lower("aily") == "aily"
  {
    var l := Lower("aily");
    assert l[0] == LowerChar('a') == 'a' && l[1] == LowerChar('i') == 'i';
    assert l[2] == LowerChar('l') == 'l' && l[3] == LowerChar('y') == 'y';
  }

  lemma CapitalizeDaily()
    ensures Capitalize("daily") == "Daily"
  {
    LowerAily();
    assert "daily"[1..] == "aily";
    assert UpperChar('d') == 'D';
  }

  /** The fallback title of a daily digest. */
  lemma DailyFallbackTitle()
    ensures FallbackDigest("daily").title == Some("Daily HR Signals Digest")
  {
    CapitalizeDaily();
    assert "Daily" + " HR Signals Digest" == "Daily HR Signals Digest";
  }

  /** Inputs beyond the digest limits never influence the digest. */
  lemma DigestSeesOnlyThePrefix(svc: Service, a1: seq<DigestArticle>, a2: seq<DigestArticle>,
                                i1: seq<DigestInsight>, i2: seq<DigestInsight>,
                                t1: seq<DigestTrend>, t2: seq<DigestTrend>, period: string)
    requires Take(a1, DigestArticleLimit) == Take(a2, DigestArticleLimit)
    requires Take(i1, DigestInsightLimit) == Take(i2, DigestInsightLimit)
    requires Take(t1, DigestTrendLimit) == Take(t2, DigestTrendLimit)
    ensures GenerateDigest(svc, a1, i1, t1, period) == GenerateDigest(svc, a2, i2, t2, period)
  {
  }

  // ---------------------------------------------------------------------
  // batch_analyze_articles

  /** `batch_analyze_articles`: constructs the service (failing without a key),
      then analyses the articles in slices of five, pausing between slices but
      not after the last. `pauses` counts the pauses taken. */
  method BatchAnalyze(articles: seq<Item>, apiKey: Option<string>, configured: Option<string>, oracle: Oracle)
    returns (results: Result<seq<Json<Annotation>>, string>, pauses: nat)
    ensures results.Err? <==> !Truthy(apiKey) && !Truthy(configured)
    ensures results.Err? ==> pauses == 0
    ensures results.Ok? ==> |results.value| == |articles|
    ensures results.Ok? ==> forall k :: 0 <= k < |articles| ==>
              results.value[k] == AnalyzeItem(NewService(apiKey, configured, oracle).value, articles[k])
    ensures results.Ok? ==> pauses == if |articles| == 0 then 0 else (|articles| - 1) / 5
  {
    var made := NewService(apiKey, configured, oracle);
    if made.Err? {
      return Err(made.error), 0;
    }
    var svc := made.value;
    var out: seq<Json<Annotation>> := [];
    var m: nat := 0;  // slices analysed so far; each slice holds 5 articles
    pauses := 0;
    while 5 * m < |articles|
      invariant m == 0 || 5 * (m - 1) < |articles|
      invariant |out| == if 5 * m <= |articles| then 5 * m else |articles|
      invariant forall k :: 0 <= k < |out| ==> out[k] == AnalyzeItem(svc, articles[k])
      invariant pauses == if m == 0 then 0 else if 5 * m < |articles| then m else m - 1
    {
      var i := 5 * m;
      var end := if i + 5 <= |articles| then i + 5 else |articles|;
      var batch := articles[i..end];
      var analysed := seq(|batch|, k requires 0 <= k < |batch| => AnalyzeItem(svc, batch[k]));
      assert |out| == i;
      var grown := out + analysed;
      forall k | 0 <= k < |grown|
        ensures grown[k] == AnalyzeItem(svc, articles[k])
      {
        if k < i {
          assert grown[k] == out[k];
        } else {
          assert grown[k] == analysed[k - i] && batch[k - i] == articles[k];
        }
      }
      out := grown;
      if i + 5 < |articles| {
        pauses := pauses + 1;
      }
      m := m + 1;
    }
    results := Ok(out);
  }
}
