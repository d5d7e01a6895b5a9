/** The entities of the content pipeline: content items before storage, the
    persisted rows (article, insight, trend, trend data point, digest), the
    fixed theme/sector vocabulary, and the store as one immutable value.
    Timestamps are whole seconds; reals stand for the source's floats. */
module Records {
  import opened Wrappers

  const DAY: int := 86400

  /** Midnight at the start of the day containing `now`
      (`datetime.combine(now.date(), datetime.min.time())`). */
  function DayStart(now: int): (d: int)
    ensures d <= now < d + DAY
    ensures d % DAY == 0
  {
    now - now % DAY
  }

  /** Python truthiness of an optional string: present and non-empty. */
  predicate Truthy(s: Option<string>)
  {
    s.Some? && s.value != ""
  }

  /** The fields the enrichment step merges onto an item from the analysis
      oracle's annotation; list fields default to empty, `is_emerging` to false. */
  datatype Enrichment = Enrichment(
    summary: Option<string>,
    keyTakeaways: Option<seq<string>>,
    primaryTheme: Option<string>,
    secondaryThemes: seq<string>,
    confidence: Option<real>,
    region: Option<string>,
    sectors: seq<string>,
    sentimentLabel: Option<string>,
    sentimentScore: Option<real>,
    signalStrength: Option<real>,
    isEmerging: bool)

  /** A content item as the source adapter yields it (a dict whose keys may be
      absent); `enrichment` is `Some` once the analysis has been merged onto it. */
  datatype Item = Item(
    url: Option<string>,
    title: Option<string>,
    source: Option<string>,
    sourceType: Option<string>,
    author: Option<string>,
    published: Option<int>,
    content: Option<string>,
    enrichment: Option<Enrichment>)

  datatype Theme = Theme(name: string, keywords: seq<string>)

  /** The controlled vocabularies articles and trends are classified against. */
  datatype Vocabulary = Vocabulary(themes: seq<Theme>, sectors: seq<string>)

  function ThemeNames(v: Vocabulary): set<string>
  {
    set t | t in v.themes :: t.name
  }

  /** A persisted article. `id` is its autoincrement key; `themes` and
      `sectors` are the names of the vocabulary entries attached to it, in
      the order they were attached. */
  datatype Article = Article(
    id: nat,
    url: string,
    title: string,
    source: string,
    sourceType: Option<string>,
    author: Option<string>,
    published: int,
    scraped: int,
    content: Option<string>,
    summary: Option<string>,
    keyTakeaways: Option<seq<string>>,
    primaryTheme: Option<string>,
    confidence: Option<real>,
    region: Option<string>,
    sentimentLabel: Option<string>,
    sentimentScore: Option<real>,
    signalStrength: Option<real>,
    isEmerging: bool,
    isFeatured: bool,
    themes: seq<string>,
    sectors: seq<string>)

  /** A cross-article insight anchored to one article. Title and description
      are NOT NULL columns: a row lacking them cannot be committed. */
  datatype Insight = Insight(
    articleId: nat,
    title: Option<string>,
    description: Option<string>,
    impactLevel: Option<string>,
    timeHorizon: Option<string>,
    relevance: Option<real>,
    created: int)

  /** A tracked trend. `name` is a NOT NULL column; `theme` names the
      vocabulary theme it is associated with, if any. */
  datatype Trend = Trend(
    id: nat,
    name: Option<string>,
    description: Option<string>,
    keywords: Option<seq<string>>,
    theme: Option<string>,
    startDate: int,
    lastUpdated: int,
    articleCount: int,
    momentum: Option<real>,
    status: Option<string>,
    region: Option<string>)

  /** One day of a trend's time series. */
  datatype TrendDataPoint = TrendDataPoint(
    trendId: nat,
    date: int,
    articleCount: nat,
    sentimentAvg: real,
    signalAvg: real)

  datatype Digest = Digest(
    digestType: string,
    periodStart: int,
    periodEnd: int,
    title: Option<string>,
    summary: Option<string>,
    topStories: Option<seq<string>>,
    emergingTrends: seq<Option<string>>,
    keyInsights: Option<seq<string>>,
    totalArticles: nat,
    themesCovered: set<string>,
    regionsCovered: set<string>)

  /** The content store: each table in insertion (row id) order. */
  datatype Store = Store(
    articles: seq<Article>,
    insights: seq<Insight>,
    trends: seq<Trend>,
    points: seq<TrendDataPoint>,
    digests: seq<Digest>)

  /** A pipeline stage's result: the store it leaves and the number of rows
      it created. */
  datatype Staged = Staged(store: Store, count: nat)

  /** The url index the novelty filter reads. */
  function Urls(s: Store): set<string>
  {
    set a | a in s.articles :: a.url
  }

  /** The themes and sectors seeded into an empty database
      (`seed_initial_data`); "General" is a sector but not a theme. */
  const SeedVocabulary: Vocabulary := Vocabulary(
    [ Theme("Workforce Transformation", ["workforce", "transformation", "hybrid", "remote", "flexible work"]),
      Theme("AI Governance", ["AI governance", "ethics", "responsible AI", "regulation", "compliance"]),
      Theme("Skills and Capability", ["skills", "upskilling", "reskilling", "learning", "capability"]),
      Theme("HR Technology", ["HR tech", "HRIS", "people analytics", "talent tech", "automation"]),
      Theme("Policy and Regulation", ["policy", "regulation", "compliance", "labor law", "employment law"]),
      Theme("Future of Work", ["future of work", "trends", "innovation", "digital transformation"]),
      Theme("Employee Experience", ["employee experience", "engagement", "wellbeing", "satisfaction", "culture"]),
      Theme("Talent Acquisition", ["recruitment", "hiring", "talent acquisition", "sourcing", "employer brand"]),
      Theme("Diversity and Inclusion", ["diversity", "inclusion", "equity", "DEI", "belonging"]),
      Theme("Organizational Culture", ["culture", "values", "leadership", "change management", "transformation"]) ],
    [ "Technology", "Financial Services", "Healthcare", "Manufacturing", "Retail",
      "Professional Services", "Public Sector", "Education", "Energy", "General" ])
}
