/** Novelty filtering and enrichment of the narrowed batch
    (`_filter_new_articles`, `_analyze_articles` in
    backend/services/content_processor.py). */
module Enrich {
  import opened Wrappers
  import opened Seqs
  import opened Records
  import opened Analysis

  /** The url is not already stored (`art.get('url') not in existing_urls`;
      an item without a url is never in the index). */
  predicate IsNew(it: Item, store: Store)
  {
    it.url.None? || it.url.value !in Urls(store)
  }

  /** `_filter_new_articles`: exactly the items whose url is not stored, in order. */
  function FilterNew(items: seq<Item>, store: Store): (r: seq<Item>)
    ensures forall i :: 0 <= i < |r| ==> r[i] in items && IsNew(r[i], store)
    ensures forall i :: 0 <= i < |items| && IsNew(items[i], store) ==> items[i] in r
  {
    Filter((it: Item) => IsNew(it, store), items)
  }

  lemma FilterNewIsSubseq(items: seq<Item>, store: Store)
    ensures Subseq(FilterNew(items, store), items)
  {
    FilterIsSubseq((it: Item) => IsNew(it, store), items);
  }

  /** What `asyncio.gather(..., return_exceptions=True)` yields for one
      article: the exception the analysis coroutine raised, or its value. */
  datatype AnalysisOutcome = Raised(message: string) | Returned(json: Json<Annotation>)

  /** The message Python gives when `.get` is called on a parsed JSON value
      that is not a dict. */
  const NotADict: string := "object has no attribute 'get'"

  /** `art.update({...})`: the annotation's fields merged onto the item;
      absent list fields become [], an absent `is_emerging` becomes false. */
  function Merge(it: Item, a: Annotation): (r: Item)
    ensures r.url == it.url && r.title == it.title && r.source == it.source
    ensures r.sourceType == it.sourceType && r.author == it.author
    ensures r.published == it.published && r.content == it.content
    ensures r.enrichment.Some?
    ensures var e := r.enrichment.value;
            e.summary == a.summary && e.keyTakeaways == a.keyTakeaways && e.primaryTheme == a.primaryTheme &&
            e.confidence == a.confidence && e.region == a.region && e.sentimentLabel == a.sentiment &&
            e.sentimentScore == a.sentimentScore && e.signalStrength == a.signalStrength
    ensures var e := r.enrichment.value;
            (a.secondaryThemes.Some? ==> e.secondaryThemes == a.secondaryThemes.value) &&
            (a.secondaryThemes.None? ==> e.secondaryThemes == [])
    ensures var e := r.enrichment.value;
            (a.sectors.Some? ==> e.sectors == a.sectors.value) && (a.sectors.None? ==> e.sectors == [])
    ensures var e := r.enrichment.value;
            e.isEmerging <==> a.isEmerging == Some(true)
  {
    it.(enrichment := Some(Enrichment(
      summary := a.summary,
      keyTakeaways := a.keyTakeaways,
      primaryTheme := a.primaryTheme,
      secondaryThemes := a.secondaryThemes.GetOr([]),
      confidence := a.confidence,
      region := a.region,
      sectors := a.sectors.GetOr([]),
      sentimentLabel := a.sentiment,
      sentimentScore := a.sentimentScore,
      signalStrength := a.signalStrength,
      isEmerging := a.isEmerging.GetOr(false))))
  }

  /** The items whose analysis did not raise, in input order. */
  function Survivors(items: seq<Item>, analyze: Item -> AnalysisOutcome): seq<Item>
  {
    Filter((it: Item) => analyze(it).Returned?, items)
  }

  /** Some item's analysis returned JSON that is not an object. */
  predicate AnyNonObject(items: seq<Item>, analyze: Item -> AnalysisOutcome)
  {
    exists k :: 0 <= k < |items| && analyze(items[k]) == Returned(NonObject)
  }

  /** The merge loop over one list of gathered results: an exception drops
      its item; a non-object result makes `.get` raise, which escapes the loop. */
  function EnrichAll(items: seq<Item>, analyze: Item -> AnalysisOutcome): (r: Result<seq<Item>, string>)
    ensures r.Ok? ==> |r.value| <= |items|
    ensures r.Err? ==> r.error == NotADict
    decreases |items|
  {
    if |items| == 0 then Ok([])
    else
      match analyze(items[0])
      case Raised(_) => EnrichAll(items[1..], analyze)
      case Returned(NonObject) => Err(NotADict)
      case Returned(Object(a)) =>
        match EnrichAll(items[1..], analyze)
        case Err(e) => Err(e)
        case Ok(tail) => Ok([Merge(items[0], a)] + tail)
  }

  lemma AnyNonObjectCons(items: seq<Item>, analyze: Item -> AnalysisOutcome)
    requires |items| > 0
    ensures AnyNonObject(items, analyze) <==>
              analyze(items[0]) == Returned(NonObject) || AnyNonObject(items[1..], analyze)
  {
    if AnyNonObject(items[1..], analyze) {
      var k :| 0 <= k < |items[1..]| && analyze(items[1..][k]) == Returned(NonObject);
      assert items[k + 1] == items[1..][k];
    }
    if AnyNonObject(items, analyze) && analyze(items[0]) != Returned(NonObject) {
      var k :| 0 <= k < |items| && analyze(items[k]) == Returned(NonObject);
      assert k > 0 && items[1..][k - 1] == items[k];
    }
  }

  /** Enrichment fails exactly when some answer is JSON that is not an object. */
  lemma {:induction false} EnrichAllFailsOnNonObject(items: seq<Item>, analyze: Item -> AnalysisOutcome)
    ensures EnrichAll(items, analyze).Err? <==> AnyNonObject(items, analyze)
    decreases |items|
  {
    if |items| > 0 {
      AnyNonObjectCons(items, analyze);
      EnrichAllFailsOnNonObject(items[1..], analyze);
    }
  }

  /** Otherwise the result is every item whose analysis did not raise, in
      input order, with its annotation merged on. */
  lemma {:induction false} EnrichAllKeepsSurvivors(items: seq<Item>, analyze: Item -> AnalysisOutcome)
    ensures var r := EnrichAll(items, analyze);
            var s := Survivors(items, analyze);
            r.Ok? ==> (|r.value| == |s| &&
              forall k :: 0 <= k < |s| ==>
                analyze(s[k]).Returned? && analyze(s[k]).json.Object? &&
                r.value[k] == Merge(s[k], analyze(s[k]).json.fields))
    decreases |items|
  {
    if |items| > 0 {
      var rest := items[1..];
      EnrichAllKeepsSurvivors(rest, analyze);
      var r := EnrichAll(items, analyze);
      var s := Survivors(items, analyze);
      var s' := Survivors(rest, analyze);
      match analyze(items[0])
      case Raised(_) =>
        assert s == s' && r == EnrichAll(rest, analyze);
      case Returned(NonObject) =>
      case Returned(Object(a)) =>
        assert s == [items[0]] + s';
        match EnrichAll(rest, analyze)
        case Err(e) =>
        case Ok(tail) =>
          assert r.value == [Merge(items[0], a)] + tail;
          forall k | 0 <= k < |s|
            ensures analyze(s[k]).Returned? && analyze(s[k]).json.Object? &&
                    r.value[k] == Merge(s[k], analyze(s[k]).json.fields)
          {
            if k > 0 {
              assert r.value[k] == tail[k - 1] && s[k] == s'[k - 1];
            }
          }
    }
  }

  /** Slice size of the enrichment loop. */
  const SliceSize: nat := 5

  /** `_analyze_articles`: the batch is processed in consecutive slices of five. */
  function AnalyzeArticles(items: seq<Item>, analyze: Item -> AnalysisOutcome): (r: Result<seq<Item>, string>)
    decreases |items|
  {
    if |items| == 0 then Ok([])
    else
      var n := if |items| < SliceSize then |items| else SliceSize;
      match EnrichAll(items[..n], analyze)
      case Err(e) => Err(e)
      case Ok(head) =>
        match AnalyzeArticles(items[n..], analyze)
        case Err(e) => Err(e)
        case Ok(tail) => Ok(head + tail)
  }

  lemma {:induction false} EnrichAllAppend(a: seq<Item>, b: seq<Item>, analyze: Item -> AnalysisOutcome)
    ensures EnrichAll(a + b, analyze) ==
      match EnrichAll(a, analyze)
      case Err(e) => Err(e)
      case Ok(x) => match EnrichAll(b, analyze) case Err(e) => Err(e) case Ok(y) => Ok(x + y)
    decreases |a|
  {
    if |a| == 0 {
      assert a + b == b;
      match EnrichAll(b, analyze)
      case Err(e) =>
      case Ok(y) => assert [] + y == y;
    } else {
      assert (a + b)[0] == a[0];
      assert (a + b)[1..] == a[1..] + b;
      EnrichAllAppend(a[1..], b, analyze);
      match analyze(a[0])
      case Raised(_) =>
      case Returned(NonObject) =>
      case Returned(Object(ann)) =>
        match EnrichAll(a[1..], analyze)
        case Err(e) =>
        case Ok(x) =>
          match EnrichAll(b, analyze)
          case Err(e) =>
          case Ok(y) => assert [Merge(a[0], ann)] + (x + y) == ([Merge(a[0], ann)] + x) + y;
    }
  }

  /** Slicing does not change the outcome: processing five at a time is the
      same as processing the whole batch item by item. */
  lemma {:induction false} AnalyzeArticlesIsPerItem(items: seq<Item>, analyze: Item -> AnalysisOutcome)
    ensures AnalyzeArticles(items, analyze) == EnrichAll(items, analyze)
    decreases |items|
  {
    if |items| > 0 {
      var n := if |items| < SliceSize then |items| else SliceSize;
      assert items == items[..n] + items[n..];
      AnalyzeArticlesIsPerItem(items[n..], analyze);
      EnrichAllAppend(items[..n], items[n..], analyze);
    }
  }

  /** The analyzer the pipeline uses: the service's `analyze_article`, which
      catches every failure itself. */
  function WrappedAnalyzer(svc: Service): Item -> AnalysisOutcome
  {
    (it: Item) => Returned(AnalyzeItem(svc, it))
  }

  /** Because `analyze_article` never raises, the "exception => drop the item"
      branch never fires in the pipeline: every item survives, in order, with
      its url, title and source, unless some answer is valid JSON that is not
      an object, which fails the whole enrichment. */
  lemma WrappedAnalyzerKeepsEveryItem(svc: Service, items: seq<Item>)
    ensures var r := AnalyzeArticles(items, WrappedAnalyzer(svc));
            r.Ok? ==> |r.value| == |items|
    ensures var r := AnalyzeArticles(items, WrappedAnalyzer(svc));
            forall k :: r.Ok? && 0 <= k < |items| ==>
              r.value[k].url == items[k].url && r.value[k].title == items[k].title &&
              r.value[k].source == items[k].source && r.value[k].published == items[k].published &&
              r.value[k].enrichment.Some?
    ensures AnalyzeArticles(items, WrappedAnalyzer(svc)).Err? <==>
              exists k :: 0 <= k < |items| && AnalyzeItem(svc, items[k]) == NonObject
  {
    var analyze := WrappedAnalyzer(svc);
    AnalyzeArticlesIsPerItem(items, analyze);
    FilterAllKept((it: Item) => analyze(it).Returned?, items);
    assert Survivors(items, analyze) == items;
    EnrichAllFailsOnNonObject(items, analyze);
    EnrichAllKeepsSurvivors(items, analyze);
    if AnyNonObject(items, analyze) {
      var k :| 0 <= k < |items| && analyze(items[k]) == Returned(NonObject);
      assert AnalyzeItem(svc, items[k]) == NonObject;
    }
  }
}
