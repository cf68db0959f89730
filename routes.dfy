/**
 * The two HTTP handlers, as functions and methods from already-parsed
 * request inputs to a result: the article listing (date window, `sortBy`
 * default, store query) and the refresh (credential gate, clear, five
 * category requests with skip-on-failure, normalisation, one bulk insert).
 */
module Routes {
  import opened Wrappers
  import opened Arrays
  import opened Schema
  import opened Storage

  const DAY_MS: int := 24 * 60 * 60 * 1000
  const WEEK_MS: int := 7 * DAY_MS

  // ---------------------------------------------------------------------
  // GET /api/articles
  // ---------------------------------------------------------------------

  /**
   * The instants the handler obtains from `new Date()`: the current time and
   * the local-calendar starts of today, of tomorrow and of this month.
   */
  datatype Clock = Clock(now: int, startOfDay: int, startOfNextDay: int, startOfMonth: int)

  /** The calendar facts that hold of any real clock reading. */
  predicate Sane(clock: Clock) {
    clock.startOfMonth <= clock.startOfDay <= clock.now < clock.startOfNextDay
  }

  datatype Window = Window(dateFrom: Option<int>, dateTo: Option<int>)

  /** The `switch (dateRange)` that sets `dateFrom` and `dateTo`. */
  function DateWindow(dateRange: Option<string>, customDate: Option<int>, clock: Clock): (w: Window)
    ensures w.dateFrom.Some? <==> w.dateTo.Some?
    ensures w.dateFrom.None? <==>
              || dateRange.None?
              || ParseDateFilter(dateRange.value).None?
              || (dateRange == Some(Custom.Name()) && customDate.None?)
    ensures dateRange == Some(Today.Name()) ==>
              w.dateFrom == Some(clock.startOfDay) && w.dateTo == Some(clock.startOfNextDay)
    ensures dateRange == Some(Week.Name()) ==>
              w.dateTo == Some(clock.now) && w.dateFrom == Some(clock.now - 604800000)
    ensures dateRange == Some(Month.Name()) ==>
              w.dateFrom == Some(clock.startOfMonth) && w.dateTo == Some(clock.now)
    ensures dateRange == Some(Custom.Name()) && customDate.Some? ==>
              w.dateFrom == customDate && w.dateTo == Some(customDate.value + 86400000)
  {
    match if dateRange.Some? then ParseDateFilter(dateRange.value) else None
    case Some(Today) => Window(Some(clock.startOfDay), Some(clock.startOfNextDay))
    case Some(Week) => Window(Some(clock.now - WEEK_MS), Some(clock.now))
    case Some(Month) => Window(Some(clock.startOfMonth), Some(clock.now))
    case Some(Custom) =>
      if customDate.Some? then Window(customDate, Some(customDate.value + DAY_MS)) else Window(None, None)
    case None => Window(None, None)
  }

  /** For 'today', 'week' and 'month' an article published right now lies inside the window. */
  lemma NowInWindow(dateRange: string, customDate: Option<int>, clock: Clock)
    requires Sane(clock)
    requires dateRange in {Today.Name(), Week.Name(), Month.Name()}
    ensures var w := DateWindow(Some(dateRange), customDate, clock);
      w.dateFrom.Some? && w.dateFrom.value <= clock.now <= w.dateTo.value
  {
  }

  /** `sortBy as string || 'newest'` */
  function SortParam(sortBy: Option<string>): (s: string)
    ensures SortActive(Some(s))
    ensures sortBy.Some? && sortBy.value != "" ==> s == sortBy.value
    ensures sortBy.None? || sortBy.value == "" ==> s == Newest.Name()
  {
    if sortBy.Some? && sortBy.value != "" then sortBy.value else "newest"
  }

  /** The query string of the listing request. */
  datatype ArticlesQuery = ArticlesQuery(
    category: Option<string>,
    dateRange: Option<string>,
    customDate: Option<int>,
    sortBy: Option<string>)

  /** The JSON body `{ articles, total }`. */
  datatype ArticleList = ArticleList(articles: seq<Article>, total: int)

  /** The filters the handler passes to `getArticles`. */
  function QueryFilters(q: ArticlesQuery, clock: Clock): Filters {
    var w := DateWindow(q.dateRange, q.customDate, clock);
    Filters(q.category, w.dateFrom, w.dateTo, Some(SortParam(q.sortBy)))
  }

  /**
   * The listing handler: the matching stored articles, always sorted (the
   * `sortBy` default makes sure of that), with their number as `total`.
   */
  function ListArticles(store: MemStorage, q: ArticlesQuery, clock: Clock): (res: ArticleList)
    reads store
    requires store.Valid()
    ensures res.total == |res.articles|
    ensures forall k :: 0 <= k < |res.articles| ==>
              res.articles[k] in store.articles && Matches(QueryFilters(q, clock), res.articles[k])
    ensures forall k :: 0 <= k < |store.articles| && Matches(QueryFilters(q, clock), store.articles[k]) ==>
              store.articles[k] in res.articles
    ensures SortedByDate(res.articles, DirectionOf(SortParam(q.sortBy)))
    ensures TiesByInsertion(res.articles)
  {
    var articles := store.GetArticles(Some(QueryFilters(q, clock)));
    ArticleList(articles, |articles|)
  }

  // ---------------------------------------------------------------------
  // POST /api/articles/fetch
  // ---------------------------------------------------------------------

  /** The categories every refresh requests, in this order. */
  const Categories: seq<string> := ["technology", "business", "sports", "entertainment", "health"]

  /** The provider's title for redacted entries. */
  const Removed: string := "[Removed]"

  /** The five refresh categories are exactly the category filters other than 'all'. */
  lemma CategoriesAreFilters(c: CategoryFilter)
    ensures c.Name() in Categories <==> c != All
    ensures forall k :: 0 <= k < |Categories| ==> ParseCategoryFilter(Categories[k]).Some?
  {
  }

  /** What one category's request produced: the parsed body, or nothing after a non-ok status or a thrown error. */
  datatype FetchResult = Failed | Fetched(data: NewsAPIResponse)

  /** The top-headlines endpoint, by category and country. */
  type Provider = (string, string) -> FetchResult

  /** `article.title && article.url && article.title !== '[Removed]'` */
  predicate Kept(e: NewsAPIArticle) {
    e.title != "" && e.url != "" && e.title != Removed
  }

  function KeptPredicate(): NewsAPIArticle -> bool {
    (e: NewsAPIArticle) => Kept(e)
  }

  /** `value || ''` on a nullable string. */
  function OrEmpty(o: Option<string>): (r: string)
    ensures r == o.GetOr("")
  {
    if o.Some? && o.value != "" then o.value else ""
  }

  /** The record a kept provider entry becomes, tagged with the category it was fetched under. */
  function Normalize(e: NewsAPIArticle, category: string): (r: InsertArticle)
    ensures r.title == e.title && r.url == e.url && r.publishedAt == e.publishedAt
    ensures r.urlToImage == e.urlToImage && r.author == e.author
    ensures r.description == Some(e.description.GetOr("")) && r.content == Some(e.content.GetOr(""))
    ensures r.source == e.source.name && r.category == category
  {
    InsertArticle(
      title := e.title,
      description := Some(OrEmpty(e.description)),
      content := Some(OrEmpty(e.content)),
      url := e.url,
      urlToImage := e.urlToImage,
      publishedAt := e.publishedAt,
      source := e.source.name,
      category := category,
      author := e.author)
  }

  function NormalizeUnder(category: string): NewsAPIArticle -> InsertArticle {
    (e: NewsAPIArticle) => Normalize(e, category)
  }

  /** `data.articles.filter(...).map(...)` for one category. */
  function CategoryArticles(data: NewsAPIResponse, category: string): seq<InsertArticle> {
    Map(Filter(data.articles, KeptPredicate()), NormalizeUnder(category))
  }

  /** What one category adds to the batch: nothing when its request failed. */
  function Contribution(response: FetchResult, category: string): seq<InsertArticle> {
    match response
    case Failed => []
    case Fetched(data) => CategoryArticles(data, category)
  }

  /** The contributions of `cats`, concatenated in order. */
  function BatchOf(cats: seq<string>, provider: Provider, country: string): seq<InsertArticle> {
    if cats == [] then []
    else Contribution(provider(cats[0], country), cats[0]) + BatchOf(cats[1..], provider, country)
  }

  /** The batch the refresh inserts. */
  function Batch(provider: Provider, country: string): seq<InsertArticle> {
    BatchOf(Categories, provider, country)
  }

  /** `const { country = 'us' } = req.body` */
  function CountryParam(country: Option<string>): string {
    country.GetOr("us")
  }

  lemma {:induction false} BatchOfSnoc(cats: seq<string>, c: string, provider: Provider, country: string)
    ensures BatchOf(cats + [c], provider, country) ==
            BatchOf(cats, provider, country) + Contribution(provider(c, country), c)
  {
    var last := Contribution(provider(c, country), c);
    if cats != [] {
      var t := cats[1..];
      assert cats == [cats[0]] + t && cats + [c] == [cats[0]] + (t + [c]);
      BatchOfCons(cats[0], t + [c], provider, country);
      BatchOfCons(cats[0], t, provider, country);
      BatchOfSnoc(t, c, provider, country);
      ConcatThree(Contribution(provider(cats[0], country), cats[0]), BatchOf(t, provider, country), last);
    } else {
      assert cats + [c] == [c] + [];
      BatchOfCons(c, [], provider, country);
      assert last + [] == last;
    }
  }

  lemma ConcatThree<T>(a: seq<T>, b: seq<T>, c: seq<T>)
    ensures a + (b + c) == a + b + c
  {
  }

  datatype RefreshOutcome = NotConfigured | Refreshed(count: nat)
  {
    function Status(): int {
      if NotConfigured? then 400 else 200
    }

    function Message(): string {
      if NotConfigured? then "News API key not configured" else "Articles fetched successfully"
    }
  }

  /**
   * The `for (const cat of categories)` loop: requests each category in turn,
   * skips one that failed, and collects the normalised kept entries of the others.
   */
  method CollectArticles(provider: Provider, country: string) returns (all: seq<InsertArticle>)
    ensures all == Batch(provider, country)
  {
    all := [];
    for i := 0 to |Categories|
      invariant all == BatchOf(Categories[..i], provider, country)
    {
      var cat := Categories[i];
      CollectStep(i, provider, country);
      var response := provider(cat, country);
      if response.Failed? {
        continue;
      }
      all := all + CategoryArticles(response.data, cat);
    }
    assert Categories[..|Categories|] == Categories;
  }

  /** One more category extends the batch of the categories before it by its contribution. */
  lemma CollectStep(i: nat, provider: Provider, country: string)
    requires i < |Categories|
    ensures var cat := Categories[i];
      BatchOf(Categories[..i + 1], provider, country) ==
      BatchOf(Categories[..i], provider, country) +
      (if provider(cat, country).Failed? then [] else CategoryArticles(provider(cat, country).data, cat))
  {
    var cat := Categories[i];
    assert Categories[..i + 1] == Categories[..i] + [cat];
    BatchOfSnoc(Categories[..i], cat, provider, country);
    if provider(cat, country).Failed? {
      assert BatchOf(Categories[..i], provider, country) + [] == BatchOf(Categories[..i], provider, country);
    }
  }

  /**
   * The refresh handler.  Without a key it answers 400 before touching the
   * store; otherwise the store ends up holding exactly the batch, with ids
   * 1..n, and `n` is the reported count.
   */
  method RefreshArticles(store: MemStorage, apiKeyConfigured: bool, country: Option<string>, provider: Provider)
    returns (outcome: RefreshOutcome)
    requires store.Valid()
    modifies store
    ensures store.Valid()
    ensures !apiKeyConfigured ==>
              outcome == NotConfigured && store.articles == old(store.articles) && store.currentId == old(store.currentId)
    ensures apiKeyConfigured ==> outcome == Refreshed(|Batch(provider, CountryParam(country))|)
    ensures apiKeyConfigured ==> |store.articles| == |Batch(provider, CountryParam(country))|
    ensures apiKeyConfigured ==> forall k :: 0 <= k < |store.articles| ==>
              store.articles[k] == WithId(Batch(provider, CountryParam(country))[k], k + 1)
  {
    if !apiKeyConfigured {
      return NotConfigured;
    }
    store.ClearArticles();
    var all := CollectArticles(provider, CountryParam(country));
    var stored := store.CreateArticles(all);
    assert store.articles == stored;
    outcome := Refreshed(|stored|);
  }

  /** Every kept entry of every category that answered ends up in the batch, whatever the other categories did. */
  lemma BatchComplete(provider: Provider, country: string, c: string, e: NewsAPIArticle)
    requires c in Categories && provider(c, country).Fetched?
    requires e in provider(c, country).data.articles && Kept(e)
    ensures Normalize(e, c) in Batch(provider, country)
  {
    var kept := Filter(provider(c, country).data.articles, KeptPredicate());
    FilterMembers(provider(c, country).data.articles, KeptPredicate());
    assert KeptPredicate()(e);
    var i :| 0 <= i < |kept| && kept[i] == e;
    assert CategoryArticles(provider(c, country).data, c)[i] == Normalize(e, c);
    BatchOfMember(Categories, provider, country, c, Normalize(e, c));
  }

  lemma {:induction false} BatchOfMember(cats: seq<string>, provider: Provider, country: string, c: string, b: InsertArticle)
    requires c in cats && b in Contribution(provider(c, country), c)
    ensures b in BatchOf(cats, provider, country)
  {
    if cats[0] != c {
      BatchOfMember(cats[1..], provider, country, c, b);
    }
  }

  /** A record of a category's contribution comes from one of that category's kept entries. */
  lemma ContributionSound(response: FetchResult, category: string, b: InsertArticle)
    requires b in Contribution(response, category)
    ensures response.Fetched? && b.category == category
    ensures exists e :: e in response.data.articles && Kept(e) && Normalize(e, category) == b
  {
    var kept := Filter(response.data.articles, KeptPredicate());
    var i :| 0 <= i < |kept| && CategoryArticles(response.data, category)[i] == b;
    FilterMembers(response.data.articles, KeptPredicate());
    assert kept[i] in kept;
    assert Normalize(kept[i], category) == b;
  }

  lemma {:induction false} BatchOfSound(cats: seq<string>, provider: Provider, country: string, b: InsertArticle)
    requires b in BatchOf(cats, provider, country)
    ensures b.category in cats
    ensures provider(b.category, country).Fetched?
    ensures exists e :: e in provider(b.category, country).data.articles && Kept(e) && Normalize(e, b.category) == b
  {
    var head := Contribution(provider(cats[0], country), cats[0]);
    if b in head {
      ContributionSound(provider(cats[0], country), cats[0], b);
    } else {
      BatchOfSound(cats[1..], provider, country, b);
    }
  }

  /**
   * Every inserted record comes from a kept entry of a category that answered,
   * and so has a title and a url, is not a redacted entry, and carries one of
   * the five categories.
   */
  lemma BatchSound(provider: Provider, country: string, b: InsertArticle)
    requires b in Batch(provider, country)
    ensures b.category in Categories && provider(b.category, country).Fetched?
    ensures exists e :: e in provider(b.category, country).data.articles && Kept(e) && Normalize(e, b.category) == b
    ensures b.title != "" && b.url != "" && b.title != Removed
    ensures b.description.Some? && b.content.Some?
  {
    BatchOfSound(Categories, provider, country, b);
  }

  /** Categories that contribute the same records give the same batch. */
  lemma {:induction false} BatchOfAgree(cats: seq<string>, provider: Provider, other: Provider, country: string)
    requires forall c :: c in cats ==> Contribution(provider(c, country), c) == Contribution(other(c, country), c)
    ensures BatchOf(cats, provider, country) == BatchOf(cats, other, country)
  {
    if cats != [] {
      assert cats[0] in cats;
      BatchOfAgree(cats[1..], provider, other, country);
    }
  }

  /** A category whose request fails adds exactly what a successful empty response would. */
  lemma FailureContributesNothing(provider: Provider, other: Provider, country: string)
    requires forall c :: c in Categories ==>
               provider(c, country) == other(c, country) ||
               (provider(c, country).Failed? && other(c, country).Fetched? && other(c, country).data.articles == [])
    ensures Batch(provider, country) == Batch(other, country)
  {
    forall c | c in Categories ensures Contribution(provider(c, country), c) == Contribution(other(c, country), c) {
      if provider(c, country) != other(c, country) {
        assert Filter(other(c, country).data.articles, KeptPredicate()) == [];
      }
    }
    BatchOfAgree(Categories, provider, other, country);
  }

  /** The batch spelled out: the five contributions in the fixed category order. */
  lemma BatchInCategoryOrder(provider: Provider, country: string)
    ensures Batch(provider, country) ==
              Contribution(provider("technology", country), "technology") +
              Contribution(provider("business", country), "business") +
              Contribution(provider("sports", country), "sports") +
              Contribution(provider("entertainment", country), "entertainment") +
              Contribution(provider("health", country), "health")
  {
    BatchOfFive("technology", "business", "sports", "entertainment", "health", provider, country);
  }

  lemma BatchOfCons(cat: string, cats: seq<string>, provider: Provider, country: string)
    ensures BatchOf([cat] + cats, provider, country) ==
              Contribution(provider(cat, country), cat) + BatchOf(cats, provider, country)
  {
    assert ([cat] + cats)[1..] == cats;
  }

  lemma BatchOfFive(a: string, b: string, c: string, d: string, e: string, provider: Provider, country: string)
    ensures BatchOf([a, b, c, d, e], provider, country) ==
              Contribution(provider(a, country), a) + Contribution(provider(b, country), b) +
              Contribution(provider(c, country), c) + Contribution(provider(d, country), d) +
              Contribution(provider(e, country), e)
  {
    var s4: seq<string> := [e];
    var s3 := [d] + s4;
    var s2 := [c] + s3;
    var s1 := [b] + s2;
    var s0 := [a] + s1;
    assert s0 == [a, b, c, d, e];
    var ca, cb, cc, cd, ce := Contribution(provider(a, country), a), Contribution(provider(b, country), b),
      Contribution(provider(c, country), c), Contribution(provider(d, country), d), Contribution(provider(e, country), e);
    BatchOfCons(e, [], provider, country);
    assert BatchOf(s4, provider, country) == ce;
    BatchOfCons(d, s4, provider, country);
    BatchOfCons(c, s3, provider, country);
    BatchOfCons(b, s2, provider, country);
    BatchOfCons(a, s1, provider, country);
    assert BatchOf(s0, provider, country) == ca + (cb + (cc + (cd + ce)));
    ConcatFive(ca, cb, cc, cd, ce);
  }

  lemma ConcatFive<T>(a: seq<T>, b: seq<T>, c: seq<T>, d: seq<T>, e: seq<T>)
    ensures a + (b + (c + (d + e))) == a + b + c + d + e
  {
  }

  /**
   * The refresh scenario with technology and business answering and the other
   * three failing: the batch is the technology records followed by the business
   * records.
   */
  lemma TwoCategoriesAnswer(provider: Provider, country: string)
    requires provider("technology", country).Fetched? && provider("business", country).Fetched?
    requires provider("sports", country).Failed? && provider("entertainment", country).Failed?
    requires provider("health", country).Failed?
    ensures Batch(provider, country) ==
              CategoryArticles(provider("technology", country).data, "technology") +
              CategoryArticles(provider("business", country).data, "business")
  {
    BatchInCategoryOrder(provider, country);
  }

  /** A provider entry titled "[Removed]" or lacking a title or url never reaches the store. */
  lemma DroppedEntriesExcluded(provider: Provider, country: string, e: NewsAPIArticle, c: string)
    requires !Kept(e)
    ensures Normalize(e, c) !in Batch(provider, country)
  {
    if Normalize(e, c) in Batch(provider, country) {
      BatchSound(provider, country, Normalize(e, c));
      assert false;
    }
  }
}
