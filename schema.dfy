/**
 * The record shapes and closed enumerations shared by server and client.
 * Timestamps are integer milliseconds since the epoch.
 */
module Schema {
  import opened Wrappers

  /** An article as the refresh routine hands it to the store: no id yet. */
  datatype InsertArticle = InsertArticle(
    title: string,
    description: Option<string>,
    content: Option<string>,
    url: string,
    urlToImage: Option<string>,
    publishedAt: int,
    source: string,
    category: string,
    author: Option<string>)

  /** A stored article: an `InsertArticle` together with the id the store assigned. */
  datatype Article = Article(
    id: int,
    title: string,
    description: Option<string>,
    content: Option<string>,
    url: string,
    urlToImage: Option<string>,
    publishedAt: int,
    source: string,
    category: string,
    author: Option<string>)
  {
    /** The article without its id. */
    function Insert(): InsertArticle {
      InsertArticle(title, description, content, url, urlToImage, publishedAt, source, category, author)
    }
  }

  /** `{ ...insertArticle, id }` */
  function WithId(x: InsertArticle, id: int): (a: Article)
    ensures a.id == id && a.Insert() == x
  {
    Article(id, x.title, x.description, x.content, x.url, x.urlToImage, x.publishedAt,
            x.source, x.category, x.author)
  }

  /** An article is exactly its insert record plus its id. */
  lemma ArticleIsInsertPlusId(a: Article)
    ensures WithId(a.Insert(), a.id) == a
  {
  }

  /** The provider's source reference; `id` may be null, `name` is always present. */
  datatype NewsSource = NewsSource(id: Option<string>, name: string)

  /** One entry of the provider's top-headlines response. */
  datatype NewsAPIArticle = NewsAPIArticle(
    source: NewsSource,
    author: Option<string>,
    title: string,
    description: Option<string>,
    url: string,
    urlToImage: Option<string>,
    publishedAt: int,
    content: Option<string>)

  datatype NewsAPIResponse = NewsAPIResponse(
    status: string,
    totalResults: int,
    articles: seq<NewsAPIArticle>)

  datatype CategoryFilter = All | Technology | Business | Sports | Entertainment | Health
  {
    function Name(): string {
      match this
      case All => "all"
      case Technology => "technology"
      case Business => "business"
      case Sports => "sports"
      case Entertainment => "entertainment"
      case Health => "health"
    }
  }

  function ParseCategoryFilter(s: string): (r: Option<CategoryFilter>)
    ensures r.Some? ==> r.value.Name() == s
  {
    if s == "all" then Some(All)
    else if s == "technology" then Some(Technology)
    else if s == "business" then Some(Business)
    else if s == "sports" then Some(Sports)
    else if s == "entertainment" then Some(Entertainment)
    else if s == "health" then Some(Health)
    else None
  }

  datatype DateFilter = Today | Week | Month | Custom
  {
    function Name(): string {
      match this
      case Today => "today"
      case Week => "week"
      case Month => "month"
      case Custom => "custom"
    }
  }

  function ParseDateFilter(s: string): (r: Option<DateFilter>)
    ensures r.Some? ==> r.value.Name() == s
  {
    if s == "today" then Some(Today)
    else if s == "week" then Some(Week)
    else if s == "month" then Some(Month)
    else if s == "custom" then Some(Custom)
    else None
  }

  datatype SortBy = Newest | Oldest | Relevance
  {
    function Name(): string {
      match this
      case Newest => "newest"
      case Oldest => "oldest"
      case Relevance => "relevance"
    }
  }

  function ParseSortBy(s: string): (r: Option<SortBy>)
    ensures r.Some? ==> r.value.Name() == s
  {
    if s == "newest" then Some(Newest)
    else if s == "oldest" then Some(Oldest)
    else if s == "relevance" then Some(Relevance)
    else None
  }

  /** Each enumeration is closed: parsing a member's name gives that member back. */
  lemma EnumerationsRoundTrip(c: CategoryFilter, d: DateFilter, s: SortBy)
    ensures ParseCategoryFilter(c.Name()) == Some(c)
    ensures ParseDateFilter(d.Name()) == Some(d)
    ensures ParseSortBy(s.Name()) == Some(s)
  {
  }

  /** The category names, all distinct. */
  lemma CategoryNamesDistinct(c: CategoryFilter, c': CategoryFilter)
    requires c.Name() == c'.Name()
    ensures c == c'
  {
    EnumerationsRoundTrip(c, Today, Newest);
    EnumerationsRoundTrip(c', Today, Newest);
  }
}
