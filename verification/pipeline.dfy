/** The run (`scrape_and_process_all` in backend/services/content_processor.py):
    narrow the scraped batch, enrich it, store it, then extract insights and
    update trends, committing everything at the end or nothing at all. */
module Pipeline {
  import opened Wrappers
  import opened Seqs
  import opened Records
  import opened Narrowing
  import opened Analysis
  import opened Enrich
  import opened ArticleStore
  import opened Insights
  import opened Trends

  /** The returned dict: `{"status": "success", "new_articles": 0}` when there
      is nothing new, the three counts after a committed run, or the error. */
  datatype Report =
    | Success(newArticles: nat, insights: Option<nat>, trends: Option<nat>)
    | Failure(message: string)

  datatype Run = Run(report: Report, store: Store)

  /** Stand-ins for the database errors' messages. */
  const SessionRolledBack: string := "session is in a failed state after a flush error"
  const NotNullViolation: string := "NOT NULL constraint failed"

  /** The scraped items that reach analysis: deduplicated, filtered with the
      default minimum length, and not yet stored. */
  function Candidates(raw: seq<Item>, store: Store): (r: seq<Item>)
    ensures forall i :: 0 <= i < |r| ==>
              HasUrl(r[i]) && PassesQuality(r[i], MinContentLength) && r[i].url.value !in Urls(store)
  {
    FilterNew(FilterQuality(Dedupe(raw), None), store)
  }

  /** The commit succeeds: every insight and trend added in the run has its
      NOT NULL columns (insight title and description, trend name). */
  predicate Committable(before: Store, after: Store)
  {
    && (forall k :: |before.insights| <= k < |after.insights| ==>
          after.insights[k].title.Some? && after.insights[k].description.Some?)
    && (forall k :: |before.trends| <= k < |after.trends| ==> after.trends[k].name.Some?)
  }

  /** Every insight object the oracle returns for the store's window has a
      title and a description. */
  predicate InsightAnswersComplete(svc: Service, s: Store, now: int)
  {
    var w := Window(s, now);
    |w| > 0 ==>
      var ds := Objects(ExtractInsights(svc, Sources(w)));
      forall k :: 0 <= k < |ds| ==> ds[k].title.Some? && ds[k].description.Some?
  }

  /** Every trend object the oracle returns for the store's last thirty days
      has a name. */
  predicate TrendAnswersNamed(svc: Service, s: Store, now: int)
  {
    var month := PublishedSince(s.articles, now - MonthDays * DAY);
    |month| > 0 ==>
      var ds := Objects(DetectEmergingTrends(svc, TrendSources(month), ExistingNames(s)));
      forall k :: 0 <= k < |ds| ==> ds[k].name.Some?
  }

  /** The insight rows appended for the oracle's objects all have a title
      and a description exactly when every object does. */
  lemma InsightColumnsIff(before: seq<Insight>, ds: seq<InsightData>, anchor: nat, now: int)
    ensures var after := before + InsightRows(ds, anchor, now);
            (forall k :: |before| <= k < |after| ==> after[k].title.Some? && after[k].description.Some?) <==>
            (forall j :: 0 <= j < |ds| ==> ds[j].title.Some? && ds[j].description.Some?)
  {
    var n := |before|;
    var after := before + InsightRows(ds, anchor, now);
    forall k | n <= k < |after|
      ensures after[k].title == ds[k - n].title && after[k].description == ds[k - n].description
    {
      assert after[k] == InsightRows(ds, anchor, now)[k - n];
    }
    forall j | 0 <= j < |ds|
      ensures after[n + j].title == ds[j].title && after[n + j].description == ds[j].description
    {
      assert after[n + j] == InsightRows(ds, anchor, now)[j];
    }
  }

  /** Rows `n..` of `after` are the trends built from the oracle's objects:
      they all have a name exactly when every object does. */
  lemma TrendNamesIff(after: seq<Trend>, n: nat, ds: seq<TrendData>, vocab: Vocabulary, now: int)
    requires n <= |after| && after[n..] == NewTrends(ds, n, vocab, now)
    ensures (forall k :: n <= k < |after| ==> after[k].name.Some?) <==>
            (forall j :: 0 <= j < |ds| ==> ds[j].name.Some?)
  {
    var rows := NewTrends(ds, n, vocab, now);
    forall k | n <= k < |after|
      ensures after[k].name == ds[k - n].name
    {
      assert after[k] == rows[k - n];
    }
    forall j | 0 <= j < |ds|
      ensures after[n + j].name == ds[j].name
    {
      assert after[n + j] == rows[j];
    }
  }

  /** The insight rows the stage adds have their NOT NULL columns exactly when
      the oracle's insight objects carry a title and a description. */
  lemma InsightRowsCommittable(svc: Service, s: Store, now: int)
    ensures var r := ExtractAndStoreInsights(svc, s, now);
            (forall k :: |s.insights| <= k < |r.store.insights| ==>
               r.store.insights[k].title.Some? && r.store.insights[k].description.Some?)
            <==> InsightAnswersComplete(svc, s, now)
  {
    var r := ExtractAndStoreInsights(svc, s, now);
    var n := |s.insights|;
    var w := Window(s, now);
    if |w| == 0 {
      assert |r.store.insights| == n by {
        NoRecentArticleNoInsights(svc, s, now);
      }
    } else {
      var ds := Objects(ExtractInsights(svc, Sources(w)));
      assert r.store.insights == s.insights + InsightRows(ds, w[0].id, now);
      InsightColumnsIff(s.insights, ds, w[0].id, now);
    }
  }

  /** The trend rows the stage adds have their NOT NULL column exactly when
      the oracle's trend objects carry a name. */
  lemma TrendRowsCommittable(svc: Service, s: Store, vocab: Vocabulary, now: int)
    ensures var r := UpdateTrends(svc, s, vocab, now);
            (forall k :: |s.trends| <= k < |r.store.trends| ==> r.store.trends[k].name.Some?)
            <==> TrendAnswersNamed(svc, s, now)
  {
    var r := UpdateTrends(svc, s, vocab, now);
    var n := |s.trends|;
    var month := PublishedSince(s.articles, now - MonthDays * DAY);
    if |month| > 0 {
      var ds := Objects(DetectEmergingTrends(svc, TrendSources(month), ExistingNames(s)));
      assert n <= |r.store.trends| && r.store.trends[n..] == NewTrends(ds, n, vocab, now) by {
        UpdateTrendsAddsProposedTrends(svc, s, vocab, now);
      }
      TrendNamesIff(r.store.trends, n, ds, vocab, now);
    } else {
      assert |r.store.trends| == n;
    }
  }

  /** The commit after the stages succeeds exactly when the oracle's insight
      and trend answers for the stored articles carry their required fields. */
  lemma StagesCommittable(svc: Service, s: Store, vocab: Vocabulary, now: int)
    ensures var ins := ExtractAndStoreInsights(svc, s, now);
            var tr := UpdateTrends(svc, ins.store, vocab, now);
            Committable(s, tr.store) <==> InsightAnswersComplete(svc, s, now) && TrendAnswersNamed(svc, s, now)
  {
    var ins := ExtractAndStoreInsights(svc, s, now);
    var tr := UpdateTrends(svc, ins.store, vocab, now);
    InsightRowsCommittable(svc, s, now);
    TrendRowsCommittable(svc, ins.store, vocab, now);
    assert ins.store.articles == s.articles && ins.store.trends == s.trends;
    assert TrendAnswersNamed(svc, ins.store, now) == TrendAnswersNamed(svc, s, now) by {
      assert ExistingNames(ins.store) == ExistingNames(s);
    }
  }

  /** Storing the enriched batch, extracting insights, updating trends and
      committing; any failure rolls the store back. */
  function Persist(svc: Service, enriched: seq<Item>, store: Store, vocab: Vocabulary, now: int): (r: Run)
    ensures r.report.Failure? ==> r.store == store
    ensures r.report.Success? ==>
              r.report.insights.Some? && r.report.trends.Some? &&
              |store.articles| <= |r.store.articles| && r.store.articles[..|store.articles|] == store.articles &&
              r.store.digests == store.digests && Committable(store, r.store)
  {
    var st := StoreArticles(enriched, store, vocab, now);
    if st.poisoned then Run(Failure(SessionRolledBack), store)
    else
      var ins := ExtractAndStoreInsights(svc, st.store, now);
      var tr := UpdateTrends(svc, ins.store, vocab, now);
      if Committable(store, tr.store) then Run(Success(st.stored, Some(ins.count), Some(tr.count)), tr.store)
      else Run(Failure(NotNullViolation), store)
  }

  function ScrapeAndProcessAll(svc: Service, raw: seq<Item>, store: Store, vocab: Vocabulary, now: int): (r: Run)
    ensures r.report.Failure? ==> r.store == store
    ensures (r.report.Success? && r.report.insights.None?) <==> |Candidates(raw, store)| == 0
    ensures |Candidates(raw, store)| == 0 ==> r == Run(Success(0, None, None), store)
    ensures r.report.Success? ==> |store.articles| <= |r.store.articles| && r.store.articles[..|store.articles|] == store.articles
    ensures r.report.Success? ==> r.store.digests == store.digests
  {
    var items := Candidates(raw, store);
    if |items| == 0 then Run(Success(0, None, None), store)
    else
      match AnalyzeArticles(items, WrappedAnalyzer(svc))
      case Err(m) => Run(Failure(m), store)
      case Ok(enriched) => Persist(svc, enriched, store, vocab, now)
  }

  /** Once every flush of the batch succeeds, the run commits exactly when
      the oracle's insight and trend answers for the store holding the new
      rows carry their required fields, and fails on the NOT NULL column
      otherwise. */
  lemma PersistUnpoisoned(svc: Service, enriched: seq<Item>, store: Store, vocab: Vocabulary, now: int)
    requires !StoreArticles(enriched, store, vocab, now).poisoned
    ensures var st := StoreArticles(enriched, store, vocab, now);
            var r := Persist(svc, enriched, store, vocab, now);
            if InsightAnswersComplete(svc, st.store, now) && TrendAnswersNamed(svc, st.store, now)
            then r.report.Success? && r.report.newArticles == st.stored
            else r == Run(Failure(NotNullViolation), store)
  {
    var st := StoreArticles(enriched, store, vocab, now);
    var ins := ExtractAndStoreInsights(svc, st.store, now);
    var tr := UpdateTrends(svc, ins.store, vocab, now);
    assert Committable(store, tr.store) <==>
             InsightAnswersComplete(svc, st.store, now) && TrendAnswersNamed(svc, st.store, now) by {
      StagesCommittable(svc, st.store, vocab, now);
      assert Committable(store, tr.store) == Committable(st.store, tr.store);
    }
  }

  /** A batch that is not insertable fails its flush, so the run rolls back. */
  lemma PersistRollsBackUninsertable(svc: Service, enriched: seq<Item>, store: Store, vocab: Vocabulary, now: int)
    ensures !Insertable(enriched, store) ==>
              Persist(svc, enriched, store, vocab, now) == Run(Failure(SessionRolledBack), store)
  {
    StoreArticlesStoresLongestPrefix(enriched, store, vocab, now);
  }

  /** An insertable batch is stored whole; the run then commits exactly when
      the oracle's answers for the store holding its rows carry the required
      fields, and fails on the NOT NULL column otherwise. */
  lemma PersistCommitsInsertable(svc: Service, enriched: seq<Item>, store: Store, vocab: Vocabulary, now: int)
    ensures var r := Persist(svc, enriched, store, vocab, now);
            var after := StoreArticles(enriched, store, vocab, now).store;
            Insertable(enriched, store) ==>
              if InsightAnswersComplete(svc, after, now) && TrendAnswersNamed(svc, after, now)
              then r.report.Success? && r.report.newArticles == |enriched| &&
                   after.articles == store.articles + Rows(enriched, |store.articles|, vocab, now)
              else r == Run(Failure(NotNullViolation), store)
  {
    if Insertable(enriched, store) {
      var st := StoreArticles(enriched, store, vocab, now);
      assert !st.poisoned && st.stored == |enriched| &&
             st.store.articles == store.articles + Rows(enriched, |store.articles|, vocab, now) by {
        StoreArticlesAllOrPoisoned(enriched, store, vocab, now);
      }
      PersistUnpoisoned(svc, enriched, store, vocab, now);
    }
  }

  /** Persisting fails with the flush error exactly when the batch is not
      insertable; an insertable batch commits exactly when the oracle's
      answers for the store holding its rows carry the required fields, and
      fails on the NOT NULL column otherwise. */
  lemma PersistCommitsIff(svc: Service, enriched: seq<Item>, store: Store, vocab: Vocabulary, now: int)
    ensures var r := Persist(svc, enriched, store, vocab, now);
            !Insertable(enriched, store) ==> r == Run(Failure(SessionRolledBack), store)
    ensures var r := Persist(svc, enriched, store, vocab, now);
            var after := StoreArticles(enriched, store, vocab, now).store;
            Insertable(enriched, store) ==>
              if InsightAnswersComplete(svc, after, now) && TrendAnswersNamed(svc, after, now)
              then r.report.Success? && r.report.newArticles == |enriched| &&
                   after.articles == store.articles + Rows(enriched, |store.articles|, vocab, now)
              else r == Run(Failure(NotNullViolation), store)
  {
    PersistRollsBackUninsertable(svc, enriched, store, vocab, now);
    PersistCommitsInsertable(svc, enriched, store, vocab, now);
  }

  /** Insertability reads only the url, title, source and publication date. */
  lemma InsertableSameColumns(a: seq<Item>, b: seq<Item>, store: Store)
    requires |a| == |b|
    requires forall k :: 0 <= k < |a| ==>
               a[k].url == b[k].url && a[k].title == b[k].title &&
               a[k].source == b[k].source && a[k].published == b[k].published
    ensures Insertable(a, store) <==> Insertable(b, store)
  {
  }

  /** The candidates can all be flushed exactly when each has a source and a
      publication date: narrowing already leaves every candidate a title and
      a url that is fresh and not shared with another candidate. */
  lemma CandidatesInsertable(raw: seq<Item>, store: Store)
    ensures var c := Candidates(raw, store);
            Insertable(c, store) <==> forall k :: 0 <= k < |c| ==> c[k].source.Some? && c[k].published.Some?
  {
    var d := Dedupe(raw);
    var q := FilterQuality(d, None);
    var c := Candidates(raw, store);
    var url := (it: Item) => it.url;
    FilterKeepsDistinct((it: Item) => PassesQuality(it, EffectiveMinLength(None)), url, d);
    FilterKeepsDistinct((it: Item) => IsNew(it, store), url, q);
  }

  /** A run with candidates is their analysis followed by the persist. */
  lemma RunUnfold(svc: Service, raw: seq<Item>, store: Store, vocab: Vocabulary, now: int)
    requires |Candidates(raw, store)| > 0
    ensures var res := AnalyzeArticles(Candidates(raw, store), WrappedAnalyzer(svc));
            ScrapeAndProcessAll(svc, raw, store, vocab, now) ==
              if res.Err? then Run(Failure(res.error), store) else Persist(svc, res.value, store, vocab, now)
  {
  }

  /** A failed analysis of the candidates means some answer is JSON that is
      not an object, and the run fails with the `.get` error. */
  lemma RunFailsOnNonObject(svc: Service, raw: seq<Item>, store: Store, vocab: Vocabulary, now: int)
    ensures var c := Candidates(raw, store);
            var r := ScrapeAndProcessAll(svc, raw, store, vocab, now);
            var res := AnalyzeArticles(c, WrappedAnalyzer(svc));
            |c| > 0 && res.Err? ==>
              (exists k :: 0 <= k < |c| && AnalyzeItem(svc, c[k]) == NonObject) &&
              r == Run(Failure(NotADict), store)
  {
    var c := Candidates(raw, store);
    var res := AnalyzeArticles(c, WrappedAnalyzer(svc));
    if |c| > 0 && res.Err? {
      RunUnfold(svc, raw, store, vocab, now);
      assert res.error == NotADict by {
        AnalyzeArticlesIsPerItem(c, WrappedAnalyzer(svc));
      }
      WrappedAnalyzerKeepsEveryItem(svc, c);
    }
  }

  /** A successful analysis keeps every candidate, so the enriched batch is
      insertable exactly when every candidate has a source and a publication
      date. */
  lemma AnalyzedCandidatesInsertable(svc: Service, raw: seq<Item>, store: Store)
    ensures var c := Candidates(raw, store);
            var res := AnalyzeArticles(c, WrappedAnalyzer(svc));
            res.Ok? ==>
              |res.value| == |c| && (forall k :: 0 <= k < |c| ==> AnalyzeItem(svc, c[k]).Object?) &&
              (Insertable(res.value, store) <==> forall k :: 0 <= k < |c| ==> c[k].source.Some? && c[k].published.Some?)
  {
    var c := Candidates(raw, store);
    var res := AnalyzeArticles(c, WrappedAnalyzer(svc));
    WrappedAnalyzerKeepsEveryItem(svc, c);
    if res.Ok? {
      InsertableSameColumns(res.value, c, store);
      CandidatesInsertable(raw, store);
    }
  }

  /** With every answer an object, the run is the persist of the enriched
      candidates: the flush error when one lacks a source or a publication
      date, otherwise a commit exactly when the oracle's insight and trend
      answers carry their required fields. */
  lemma RunCommitsOnObjects(svc: Service, raw: seq<Item>, store: Store, vocab: Vocabulary, now: int)
    ensures var c := Candidates(raw, store);
            var r := ScrapeAndProcessAll(svc, raw, store, vocab, now);
            var res := AnalyzeArticles(c, WrappedAnalyzer(svc));
            |c| > 0 && res.Ok? ==>
              (forall k :: 0 <= k < |c| ==> AnalyzeItem(svc, c[k]).Object?) &&
              ((exists k :: 0 <= k < |c| && (c[k].source.None? || c[k].published.None?)) ==>
                 r == Run(Failure(SessionRolledBack), store))
    ensures var c := Candidates(raw, store);
            var r := ScrapeAndProcessAll(svc, raw, store, vocab, now);
            var res := AnalyzeArticles(c, WrappedAnalyzer(svc));
            |c| > 0 && res.Ok? && (forall k :: 0 <= k < |c| ==> c[k].source.Some? && c[k].published.Some?) ==>
              var after := StoreArticles(res.value, store, vocab, now).store;
              if InsightAnswersComplete(svc, after, now) && TrendAnswersNamed(svc, after, now)
              then r.report.Success? && r.report.newArticles == |c|
              else r == Run(Failure(NotNullViolation), store)
  {
    var c := Candidates(raw, store);
    var res := AnalyzeArticles(c, WrappedAnalyzer(svc));
    if |c| > 0 && res.Ok? {
      RunUnfold(svc, raw, store, vocab, now);
      AnalyzedCandidatesInsertable(svc, raw, store);
      PersistCommitsIff(svc, res.value, store, vocab, now);
    }
  }

  /** When the run commits: with new candidates, a non-object analysis fails
      it with the `.get` error; otherwise a candidate without a source or a
      publication date fails it with the flush error; otherwise it commits
      exactly when the oracle's insight and trend answers for the store
      holding the new rows carry their required fields, and fails on the
      NOT NULL column when they do not. Every failure leaves the store as it
      was. */
  lemma RunCommitsIff(svc: Service, raw: seq<Item>, store: Store, vocab: Vocabulary, now: int)
    ensures var c := Candidates(raw, store);
            var r := ScrapeAndProcessAll(svc, raw, store, vocab, now);
            var res := AnalyzeArticles(c, WrappedAnalyzer(svc));
            |c| > 0 && res.Err? ==>
              (exists k :: 0 <= k < |c| && AnalyzeItem(svc, c[k]) == NonObject) &&
              r == Run(Failure(NotADict), store)
    ensures var c := Candidates(raw, store);
            var r := ScrapeAndProcessAll(svc, raw, store, vocab, now);
            var res := AnalyzeArticles(c, WrappedAnalyzer(svc));
            |c| > 0 && res.Ok? ==>
              (forall k :: 0 <= k < |c| ==> AnalyzeItem(svc, c[k]).Object?) &&
              ((exists k :: 0 <= k < |c| && (c[k].source.None? || c[k].published.None?)) ==>
                 r == Run(Failure(SessionRolledBack), store))
    ensures var c := Candidates(raw, store);
            var r := ScrapeAndProcessAll(svc, raw, store, vocab, now);
            var res := AnalyzeArticles(c, WrappedAnalyzer(svc));
            |c| > 0 && res.Ok? && (forall k :: 0 <= k < |c| ==> c[k].source.Some? && c[k].published.Some?) ==>
              var after := StoreArticles(res.value, store, vocab, now).store;
              if InsightAnswersComplete(svc, after, now) && TrendAnswersNamed(svc, after, now)
              then r.report.Success? && r.report.newArticles == |c|
              else r == Run(Failure(NotNullViolation), store)
  {
    RunFailsOnNonObject(svc, raw, store, vocab, now);
    RunCommitsOnObjects(svc, raw, store, vocab, now);
  }

  /** A committed persist stores every item of the batch and reports their
      number; the insight and trend counts are the rows added. */
  lemma PersistStoresEveryItem(svc: Service, enriched: seq<Item>, store: Store, vocab: Vocabulary, now: int)
    requires Persist(svc, enriched, store, vocab, now).report.Success?
    ensures var r := Persist(svc, enriched, store, vocab, now);
            r.report.newArticles == |enriched| && Urls(store) <= Urls(r.store) &&
            (forall k :: 0 <= k < |enriched| ==> enriched[k].url.Some? && enriched[k].url.value in Urls(r.store))
    ensures var r := Persist(svc, enriched, store, vocab, now);
            r.report.insights.value == |r.store.insights| - |store.insights| &&
            r.report.trends.value == |r.store.trends| - |store.trends|
  {
    var st := StoreArticles(enriched, store, vocab, now);
    StoreArticlesAllOrPoisoned(enriched, store, vocab, now);
    var ins := ExtractAndStoreInsights(svc, st.store, now);
    var tr := UpdateTrends(svc, ins.store, vocab, now);
    assert Persist(svc, enriched, store, vocab, now).store == tr.store;
    assert tr.store.articles == st.store.articles;
  }

  /** A committed run with new items stores every candidate: each one's url
      is stored afterwards, the count reported is the number of candidates,
      the counts of new insights and trends match the rows added, and every
      added insight and trend has its required columns. */
  lemma CommittedRunStoresEveryCandidate(svc: Service, raw: seq<Item>, store: Store, vocab: Vocabulary, now: int)
    ensures var r := ScrapeAndProcessAll(svc, raw, store, vocab, now);
            var c := Candidates(raw, store);
            r.report.Success? ==>
              r.report.newArticles == |c| && Urls(store) <= Urls(r.store) &&
              (forall k :: 0 <= k < |c| ==> c[k].url.value in Urls(r.store)) &&
              Committable(store, r.store)
    ensures var r := ScrapeAndProcessAll(svc, raw, store, vocab, now);
            r.report.Success? && r.report.insights.Some? ==>
              r.report.insights.value == |r.store.insights| - |store.insights| &&
              r.report.trends.Some? && r.report.trends.value == |r.store.trends| - |store.trends|
  {
    var items := Candidates(raw, store);
    if |items| > 0 && ScrapeAndProcessAll(svc, raw, store, vocab, now).report.Success? {
      WrappedAnalyzerKeepsEveryItem(svc, items);
      var enriched := AnalyzeArticles(items, WrappedAnalyzer(svc)).value;
      PersistStoresEveryItem(svc, enriched, store, vocab, now);
      var r := Persist(svc, enriched, store, vocab, now);
      assert ScrapeAndProcessAll(svc, raw, store, vocab, now) == r;
      forall k | 0 <= k < |items|
        ensures items[k].url.value in Urls(r.store)
      {
        assert enriched[k].url == items[k].url;
      }
    }
  }

  /** Running again on the same scraped batch after a successful run finds
      nothing new: it reports zero new articles and changes nothing,
      whatever the oracle and the clock. */
  lemma RerunFindsNothingNew(svc: Service, svc2: Service, raw: seq<Item>, store: Store, vocab: Vocabulary, now: int, now2: int)
    requires ScrapeAndProcessAll(svc, raw, store, vocab, now).report.Success?
    ensures var s1 := ScrapeAndProcessAll(svc, raw, store, vocab, now).store;
            ScrapeAndProcessAll(svc2, raw, s1, vocab, now2) == Run(Success(0, None, None), s1)
  {
    var s1 := ScrapeAndProcessAll(svc, raw, store, vocab, now).store;
    var narrowed := FilterQuality(Dedupe(raw), None);
    CommittedRunStoresEveryCandidate(svc, raw, store, vocab, now);
    var c1 := Candidates(raw, store);
    var c2 := Candidates(raw, s1);
    forall i | 0 <= i < |narrowed|
      ensures !IsNew(narrowed[i], s1)
    {
      var x := narrowed[i];
      if IsNew(x, store) {
        assert x in c1;
      }
    }
  }

  /** An example of the second clause of `RunCommitsIff`: an item missing a
      NOT NULL column (here its source) fails the flush, which fails the
      whole run and leaves the store as it was. */
  lemma MissingSourceFailsRun(svc: Service, raw: seq<Item>, store: Store, vocab: Vocabulary, now: int)
    requires |Candidates(raw, store)| > 0
    requires forall k :: 0 <= k < |Candidates(raw, store)| ==> AnalyzeItem(svc, Candidates(raw, store)[k]).Object?
    requires Candidates(raw, store)[0].source.None?
    ensures ScrapeAndProcessAll(svc, raw, store, vocab, now) == Run(Failure(SessionRolledBack), store)
  {
    var items := Candidates(raw, store);
    WrappedAnalyzerKeepsEveryItem(svc, items);
    var enriched := AnalyzeArticles(items, WrappedAnalyzer(svc)).value;
    assert enriched[0].source.None?;
    var st := StoreArticles(enriched, store, vocab, now);
    if !st.poisoned {
      StoreArticlesAllOrPoisoned(enriched, store, vocab, now);
    }
  }
}
