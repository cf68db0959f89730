/**
 * The in-memory article store: a map from id to article, iterated in
 * insertion order, and a counter that hands out the next id.  The query
 * (`getArticles`) filters by category and by an inclusive date window and
 * then sorts stably by publication time.
 */
module Storage {
  import opened Wrappers
  import opened Text
  import opened Arrays
  import opened Schema

  /** The optional fields of the `filters` argument of `getArticles`. */
  datatype Filters = Filters(
    category: Option<string>,
    dateFrom: Option<int>,
    dateTo: Option<int>,
    sortBy: Option<string>)

  /** `filters.category && filters.category !== 'all'`: a non-empty category other than 'all'. */
  predicate CategoryActive(category: Option<string>) {
    category.Some? && category.value != "" && category.value != "all"
  }

  /** `filters.sortBy` is truthy: present and non-empty. */
  predicate SortActive(sortBy: Option<string>) {
    sortBy.Some? && sortBy.value != ""
  }

  /** An article passes every filter that is active in `f`. */
  predicate Matches(f: Filters, a: Article) {
    && (CategoryActive(f.category) ==> Lower(a.category) == Lower(f.category.value))
    && (f.dateFrom.Some? ==> f.dateFrom.value <= a.publishedAt)
    && (f.dateTo.Some? ==> a.publishedAt <= f.dateTo.value)
  }

  function Matcher(f: Filters): Article -> bool {
    (a: Article) => Matches(f, a)
  }

  function SameCategory(category: string): Article -> bool {
    (a: Article) => Lower(a.category) == Lower(category)
  }

  function NotBefore(from: int): Article -> bool {
    (a: Article) => from <= a.publishedAt
  }

  function NotAfter(to: int): Article -> bool {
    (a: Article) => a.publishedAt <= to
  }

  /** The three successive `filter` calls of `getArticles`, each run only when its filter is set. */
  function Filtered(stored: seq<Article>, f: Filters): seq<Article> {
    var byCategory := if CategoryActive(f.category) then Filter(stored, SameCategory(f.category.value)) else stored;
    var byFrom := if f.dateFrom.Some? then Filter(byCategory, NotBefore(f.dateFrom.value)) else byCategory;
    if f.dateTo.Some? then Filter(byFrom, NotAfter(f.dateTo.value)) else byFrom
  }

  /** The filter chain keeps exactly the stored articles that match, in stored order. */
  lemma FilteredIsMatching(stored: seq<Article>, f: Filters)
    ensures Filtered(stored, f) == Filter(stored, Matcher(f))
  {
    var p1: Article -> bool := (a: Article) => CategoryActive(f.category) ==> Lower(a.category) == Lower(f.category.value);
    var p2: Article -> bool := (a: Article) => p1(a) && (f.dateFrom.Some? ==> f.dateFrom.value <= a.publishedAt);
    var byCategory := if CategoryActive(f.category) then Filter(stored, SameCategory(f.category.value)) else stored;
    if CategoryActive(f.category) {
      FilterAgree(stored, SameCategory(f.category.value), p1);
    } else {
      FilterKeepsAll(stored, p1);
    }
    assert byCategory == Filter(stored, p1);
    var byFrom := if f.dateFrom.Some? then Filter(byCategory, NotBefore(f.dateFrom.value)) else byCategory;
    if f.dateFrom.Some? {
      FilterFilter(stored, p1, NotBefore(f.dateFrom.value), p2);
    } else {
      FilterAgree(stored, p1, p2);
    }
    assert byFrom == Filter(stored, p2);
    if f.dateTo.Some? {
      FilterFilter(stored, p2, NotAfter(f.dateTo.value), Matcher(f));
    } else {
      FilterAgree(stored, p2, Matcher(f));
    }
  }

  datatype Direction = Ascending | Descending

  /** The comparator `getArticles` sorts with: ascending for 'oldest'; descending for 'newest', 'relevance' and anything else. */
  function DirectionOf(sortBy: string): (d: Direction)
    ensures d == Ascending <==> sortBy == Oldest.Name()
  {
    match ParseSortBy(sortBy)
    case Some(Oldest) => Ascending
    case _ => Descending
  }

  /** An article published at `x` may precede one published at `y`. */
  predicate InOrder(dir: Direction, x: int, y: int) {
    if dir == Ascending then x <= y else y <= x
  }

  predicate SortedByDate(s: seq<Article>, dir: Direction) {
    forall i, j :: 0 <= i < j < |s| ==> InOrder(dir, s[i].publishedAt, s[j].publishedAt)
  }

  /** Articles with equal publication times appear in id order. */
  predicate TiesByInsertion(s: seq<Article>) {
    forall i, j :: 0 <= i < j < |s| && s[i].publishedAt == s[j].publishedAt ==> s[i].id < s[j].id
  }

  predicate IdsIncreasing(s: seq<Article>) {
    forall i, j :: 0 <= i < j < |s| ==> s[i].id < s[j].id
  }

  predicate DistinctDates(s: seq<Article>) {
    forall i, j :: 0 <= i < j < |s| ==> s[i].publishedAt != s[j].publishedAt
  }

  /** Filtering keeps the relative order of what it keeps. */
  lemma {:induction false} FilterIdsIncreasing(s: seq<Article>, p: Article -> bool)
    requires IdsIncreasing(s)
    ensures IdsIncreasing(Filter(s, p))
  {
    if s != [] {
      var rest := Filter(s[1..], p);
      FilterIdsIncreasing(s[1..], p);
      FilterMembers(s[1..], p);
      forall k | 0 <= k < |rest| ensures s[0].id < rest[k].id {
        assert rest[k] in rest;
        var m :| 0 <= m < |s[1..]| && s[1..][m] == rest[k];
        assert s[m + 1] == rest[k];
      }
      if p(s[0]) {
        assert Filter(s, p) == [s[0]] + rest;
        IdsCons(s[0], rest);
      } else {
        assert Filter(s, p) == rest;
      }
    }
  }

  lemma IdsCons(x: Article, t: seq<Article>)
    requires forall k :: 0 <= k < |t| ==> x.id < t[k].id
    requires IdsIncreasing(t)
    ensures IdsIncreasing([x] + t)
  {
    var r := [x] + t;
    forall i, j | 0 <= i < j < |r| ensures r[i].id < r[j].id {
      assert r[j] == t[j - 1];
      if i > 0 {
        assert r[i] == t[i - 1];
      }
    }
  }

  /** Places `x` before the first element of the sorted `t` it may precede, so ahead of its ties. */
  function Insert(x: Article, t: seq<Article>, dir: Direction): (r: seq<Article>)
    ensures multiset(r) == multiset(t) + multiset{x}
  {
    if t == [] then [x]
    else if InOrder(dir, x.publishedAt, t[0].publishedAt) then [x] + t
    else
      assert t == [t[0]] + t[1..];
      [t[0]] + Insert(x, t[1..], dir)
  }

  /** The stable sort of `filteredArticles.sort(...)` by publication time. */
  function SortByDate(s: seq<Article>, dir: Direction): (r: seq<Article>)
    ensures multiset(r) == multiset(s)
  {
    if s == [] then []
    else
      assert s == [s[0]] + s[1..];
      Insert(s[0], SortByDate(s[1..], dir), dir)
  }

  /** A sequence headed by `x` is sorted iff `x` may precede everything after it and the rest is sorted. */
  lemma SortedCons(x: Article, t: seq<Article>, dir: Direction)
    ensures SortedByDate([x] + t, dir) <==>
              (forall k :: 0 <= k < |t| ==> InOrder(dir, x.publishedAt, t[k].publishedAt)) && SortedByDate(t, dir)
  {
    var r := [x] + t;
    if (forall k :: 0 <= k < |t| ==> InOrder(dir, x.publishedAt, t[k].publishedAt)) && SortedByDate(t, dir) {
      forall i, j | 0 <= i < j < |r| ensures InOrder(dir, r[i].publishedAt, r[j].publishedAt) {
        assert r[j] == t[j - 1];
        if i > 0 {
          assert r[i] == t[i - 1];
        }
      }
    }
    if SortedByDate(r, dir) {
      forall k | 0 <= k < |t| ensures InOrder(dir, x.publishedAt, t[k].publishedAt) {
        assert r[0] == x && r[k + 1] == t[k];
      }
      forall i, j | 0 <= i < j < |t| ensures InOrder(dir, t[i].publishedAt, t[j].publishedAt) {
        assert r[i + 1] == t[i] && r[j + 1] == t[j];
      }
    }
  }

  /** The same for ties: `x` has a smaller id than every later article with its time, and the rest keeps ties in id order. */
  lemma TiesCons(x: Article, t: seq<Article>)
    ensures TiesByInsertion([x] + t) <==>
              (forall k :: 0 <= k < |t| && t[k].publishedAt == x.publishedAt ==> x.id < t[k].id) && TiesByInsertion(t)
  {
    var r := [x] + t;
    if (forall k :: 0 <= k < |t| && t[k].publishedAt == x.publishedAt ==> x.id < t[k].id) && TiesByInsertion(t) {
      forall i, j | 0 <= i < j < |r| && r[i].publishedAt == r[j].publishedAt ensures r[i].id < r[j].id {
        assert r[j] == t[j - 1];
        if i > 0 {
          assert r[i] == t[i - 1];
        }
      }
    }
    if TiesByInsertion(r) {
      forall k | 0 <= k < |t| && t[k].publishedAt == x.publishedAt ensures x.id < t[k].id {
        assert r[0] == x && r[k + 1] == t[k];
      }
      forall i, j | 0 <= i < j < |t| && t[i].publishedAt == t[j].publishedAt ensures t[i].id < t[j].id {
        assert r[i + 1] == t[i] && r[j + 1] == t[j];
      }
    }
  }

  /** Every element of `Insert(x, t, dir)` is `x` or an element of `t`. */
  lemma InsertMembers(x: Article, t: seq<Article>, dir: Direction, k: int)
    requires 0 <= k < |Insert(x, t, dir)|
    ensures Insert(x, t, dir)[k] == x || Insert(x, t, dir)[k] in t
  {
    var u := Insert(x, t, dir);
    assert u[k] in multiset(u);
  }

  lemma {:induction false} InsertSorted(x: Article, t: seq<Article>, dir: Direction)
    requires SortedByDate(t, dir)
    ensures SortedByDate(Insert(x, t, dir), dir)
  {
    if t == [] {
    } else if InOrder(dir, x.publishedAt, t[0].publishedAt) {
      SortedCons(t[0], t[1..], dir);
      assert t == [t[0]] + t[1..];
      SortedCons(x, t, dir);
    } else {
      assert t == [t[0]] + t[1..];
      SortedCons(t[0], t[1..], dir);
      var u := Insert(x, t[1..], dir);
      InsertSorted(x, t[1..], dir);
      forall k | 0 <= k < |u| ensures InOrder(dir, t[0].publishedAt, u[k].publishedAt) {
        InsertMembers(x, t[1..], dir, k);
      }
      SortedCons(t[0], u, dir);
    }
  }

  lemma {:induction false} InsertTies(x: Article, t: seq<Article>, dir: Direction)
    requires SortedByDate(t, dir) && TiesByInsertion(t)
    requires forall k :: 0 <= k < |t| ==> x.id < t[k].id
    ensures TiesByInsertion(Insert(x, t, dir))
  {
    if t == [] {
    } else if InOrder(dir, x.publishedAt, t[0].publishedAt) {
      TiesCons(x, t);
    } else {
      var rest := t[1..];
      assert t == [t[0]] + rest;
      TiesCons(t[0], rest);
      SortedCons(t[0], rest, dir);
      var u := Insert(x, rest, dir);
      InsertTies(x, rest, dir);
      HeadBeforeTies(t[0], x, rest, dir, u);
      TiesCons(t[0], u);
      assert TiesByInsertion([t[0]] + u);
      assert Insert(x, t, dir) == [t[0]] + u;
    }
  }

  /** An article `x` that cannot precede `h` is no tie of `h`, so inserting it keeps `h` ahead of its ties. */
  lemma HeadBeforeTies(h: Article, x: Article, rest: seq<Article>, dir: Direction, u: seq<Article>)
    requires !InOrder(dir, x.publishedAt, h.publishedAt)
    requires forall m :: 0 <= m < |rest| && rest[m].publishedAt == h.publishedAt ==> h.id < rest[m].id
    requires u == Insert(x, rest, dir)
    ensures forall k :: 0 <= k < |u| && u[k].publishedAt == h.publishedAt ==> h.id < u[k].id
  {
    forall k | 0 <= k < |u| && u[k].publishedAt == h.publishedAt ensures h.id < u[k].id {
      InsertMembers(x, rest, dir, k);
      if u[k] != x {
        var m :| 0 <= m < |rest| && rest[m] == u[k];
      }
    }
  }

  /**
   * The sort orders by publication time in the requested direction, and when the
   * input is in id order (as the store's articles are), ties stay in id order.
   */
  lemma {:induction false} SortByDateOrdered(s: seq<Article>, dir: Direction)
    ensures SortedByDate(SortByDate(s, dir), dir)
    ensures IdsIncreasing(s) ==> TiesByInsertion(SortByDate(s, dir))
  {
    if s != [] {
      var t := SortByDate(s[1..], dir);
      SortByDateOrdered(s[1..], dir);
      if IdsIncreasing(s) {
        forall k | 0 <= k < |t| ensures s[0].id < t[k].id {
          assert t[k] in multiset(s[1..]);
          var m :| 0 <= m < |s[1..]| && s[1..][m] == t[k];
          assert s[m + 1] == t[k];
        }
      }
      InsertSorted(s[0], t, dir);
      if IdsIncreasing(s) {
        InsertTies(s[0], t, dir);
      }
    }
  }

  /** Two arrangements of the same articles, both sorted with ties in id order, are equal. */
  lemma {:induction false} OrderDetermined(a: seq<Article>, b: seq<Article>, dir: Direction)
    requires multiset(a) == multiset(b)
    requires SortedByDate(a, dir) && TiesByInsertion(a)
    requires SortedByDate(b, dir) && TiesByInsertion(b)
    ensures a == b
  {
    assert |a| == |multiset(a)| == |multiset(b)| == |b|;
    if a != [] {
      assert a[0] in multiset(b);
      var j :| 0 <= j < |b| && b[j] == a[0];
      assert b[0] in multiset(a);
      var i :| 0 <= i < |a| && a[i] == b[0];
      if i != 0 && j != 0 {
        assert false;
      }
      assert a == [a[0]] + a[1..] && b == [b[0]] + b[1..];
      SortedCons(a[0], a[1..], dir);
      SortedCons(b[0], b[1..], dir);
      TiesCons(a[0], a[1..]);
      TiesCons(b[0], b[1..]);
      MultisetTail(a, b);
      OrderDetermined(a[1..], b[1..], dir);
    }
  }

  lemma MultisetTail<T>(a: seq<T>, b: seq<T>)
    requires a != [] && b != [] && a[0] == b[0]
    requires multiset(a) == multiset(b)
    ensures multiset(a[1..]) == multiset(b[1..])
  {
    assert a == [a[0]] + a[1..] && b == [b[0]] + b[1..];
    assert multiset(a) == multiset{a[0]} + multiset(a[1..]);
    assert multiset(b) == multiset{b[0]} + multiset(b[1..]);
    var ma, mb := multiset(a[1..]), multiset(b[1..]);
    forall x ensures ma[x] == mb[x] {
      assert multiset(a)[x] == multiset{a[0]}[x] + ma[x];
      assert multiset(b)[x] == multiset{a[0]}[x] + mb[x];
    }
  }

  /**
   * Any stable sort of id-ordered articles by publication time, such as
   * `Array.prototype.sort`, yields exactly `SortByDate`.
   */
  lemma StableSortIsSortByDate(s: seq<Article>, r: seq<Article>, dir: Direction)
    requires IdsIncreasing(s)
    requires multiset(r) == multiset(s)
    requires SortedByDate(r, dir) && TiesByInsertion(r)
    ensures r == SortByDate(s, dir)
  {
    SortByDateOrdered(s, dir);
    OrderDetermined(r, SortByDate(s, dir), dir);
  }

  function Reverse(s: seq<Article>): (r: seq<Article>)
    ensures |r| == |s|
    ensures forall i :: 0 <= i < |s| ==> r[i] == s[|s| - 1 - i]
    ensures multiset(r) == multiset(s)
  {
    if s == [] then []
    else
      assert s == [s[0]] + s[1..];
      Reverse(s[1..]) + [s[0]]
  }

  /** Reversing a newest-first sequence gives an oldest-first one, without creating ties. */
  lemma ReverseFlipsOrder(d: seq<Article>)
    requires SortedByDate(d, Descending)
    ensures SortedByDate(Reverse(d), Ascending)
    ensures DistinctDates(d) ==> DistinctDates(Reverse(d))
  {
    var rv, n := Reverse(d), |d|;
    forall i, j | 0 <= i < j < n ensures InOrder(Ascending, rv[i].publishedAt, rv[j].publishedAt) {
      assert rv[i] == d[n - 1 - i] && rv[j] == d[n - 1 - j];
    }
    if DistinctDates(d) {
      forall i, j | 0 <= i < j < n ensures rv[i].publishedAt != rv[j].publishedAt {
        assert rv[i] == d[n - 1 - i] && rv[j] == d[n - 1 - j];
      }
    }
  }

  /** A rearrangement of articles with distinct times, with ties in id order, also has distinct times. */
  lemma DistinctDatesPermutation(d: seq<Article>, s: seq<Article>)
    requires multiset(d) == multiset(s)
    requires DistinctDates(s) && TiesByInsertion(d)
    ensures DistinctDates(d)
  {
    forall i, j | 0 <= i < j < |d| ensures d[i].publishedAt != d[j].publishedAt {
      assert d[i] in multiset(s) && d[j] in multiset(s);
      var p :| 0 <= p < |s| && s[p] == d[i];
      var q :| 0 <= q < |s| && s[q] == d[j];
      if p == q {
        assert false;
      } else if p < q {
        assert s[p].publishedAt != s[q].publishedAt;
      } else {
        assert s[q].publishedAt != s[p].publishedAt;
      }
    }
  }

  /** With pairwise distinct publication times, 'oldest' is exactly 'newest' reversed. */
  lemma NewestOldestReversed(s: seq<Article>)
    requires IdsIncreasing(s) && DistinctDates(s)
    ensures SortByDate(s, Ascending) == Reverse(SortByDate(s, Descending))
  {
    var d := SortByDate(s, Descending);
    SortByDateOrdered(s, Descending);
    DistinctDatesPermutation(d, s);
    ReverseFlipsOrder(d);
    SortByDateOrdered(s, Ascending);
    OrderDetermined(SortByDate(s, Ascending), Reverse(d), Ascending);
  }

  /** The `if (filters.sortBy)` step: sort when `sortBy` is set, otherwise keep the order. */
  function Arrange(kept: seq<Article>, sortBy: Option<string>): seq<Article> {
    if SortActive(sortBy) then SortByDate(kept, DirectionOf(sortBy.value)) else kept
  }

  /** The matching articles of `stored`, as members and as a multiset. */
  lemma MatchingMembers(stored: seq<Article>, f: Filters, r: seq<Article>)
    requires multiset(r) == multiset(Filter(stored, Matcher(f)))
    ensures forall k :: 0 <= k < |r| ==> r[k] in stored && Matches(f, r[k])
    ensures forall k :: 0 <= k < |stored| && Matches(f, stored[k]) ==> stored[k] in r
  {
    var kept := Filter(stored, Matcher(f));
    FilterMembers(stored, Matcher(f));
    forall k | 0 <= k < |r| ensures r[k] in stored && Matches(f, r[k]) {
      assert r[k] in multiset(kept);
      assert Matcher(f)(r[k]);
    }
    forall k | 0 <= k < |stored| && Matches(f, stored[k]) ensures stored[k] in r {
      assert Matcher(f)(stored[k]);
      assert stored[k] in multiset(kept);
    }
  }

  /** What the filter-then-sort query promises about id-ordered stored articles. */
  lemma ArrangedFacts(stored: seq<Article>, f: Filters)
    requires IdsIncreasing(stored)
    ensures var r := Arrange(Filtered(stored, f), f.sortBy);
      && (forall k :: 0 <= k < |r| ==> r[k] in stored && Matches(f, r[k]))
      && (forall k :: 0 <= k < |stored| && Matches(f, stored[k]) ==> stored[k] in r)
      && multiset(r) == multiset(Filter(stored, Matcher(f)))
      && (SortActive(f.sortBy) ==> SortedByDate(r, DirectionOf(f.sortBy.value)) && TiesByInsertion(r))
      && (!SortActive(f.sortBy) ==> r == Filter(stored, Matcher(f)))
  {
    var kept := Filtered(stored, f);
    FilteredIsMatching(stored, f);
    FilterIdsIncreasing(stored, Matcher(f));
    var r := Arrange(kept, f.sortBy);
    if SortActive(f.sortBy) {
      SortByDateOrdered(kept, DirectionOf(f.sortBy.value));
    }
    assert multiset(r) == multiset(Filter(stored, Matcher(f)));
    MatchingMembers(stored, f, r);
  }

  class MemStorage {
    /** `this.articles.values()` in insertion order. */
    var articles: seq<Article>
    var currentId: int

    /** Ids are handed out from 1 upwards, so the article at position k holds id k + 1. */
    ghost predicate Valid()
      reads this
    {
      && currentId == |articles| + 1
      && forall k :: 0 <= k < |articles| ==> articles[k].id == k + 1
    }

    constructor ()
      ensures Valid()
      ensures articles == [] && currentId == 1
    {
      articles := [];
      currentId := 1;
    }

    lemma ValidIdsIncreasing()
      requires Valid()
      ensures IdsIncreasing(articles)
    {
    }

    /**
     * The articles that pass every active filter, permuted by the sort when
     * `sortBy` is set and otherwise in insertion order.  Reading only `this`,
     * it leaves the collection and the counter as they were.
     */
    function GetArticles(filters: Option<Filters>): (r: seq<Article>)
      reads this
      requires Valid()
      ensures filters.None? ==> r == articles
      ensures filters.Some? ==> forall k :: 0 <= k < |r| ==> r[k] in articles && Matches(filters.value, r[k])
      ensures filters.Some? ==> forall k :: 0 <= k < |articles| && Matches(filters.value, articles[k]) ==> articles[k] in r
      ensures filters.Some? ==> multiset(r) == multiset(Filter(articles, Matcher(filters.value)))
      ensures filters.Some? && SortActive(filters.value.sortBy) ==>
                SortedByDate(r, DirectionOf(filters.value.sortBy.value)) && TiesByInsertion(r)
      ensures filters.Some? && !SortActive(filters.value.sortBy) ==> r == Filter(articles, Matcher(filters.value))
    {
      match filters
      case None => articles
      case Some(f) =>
        ValidIdsIncreasing();
        ArrangedFacts(articles, f);
        Arrange(Filtered(articles, f), f.sortBy)
    }

    /** Stores `x` under the next id and advances the counter. */
    method CreateArticle(x: InsertArticle) returns (a: Article)
      requires Valid()
      modifies this
      ensures Valid()
      ensures a == WithId(x, old(currentId))
      ensures forall k :: 0 <= k < |old(articles)| ==> old(articles)[k].id < a.id
      ensures articles == old(articles) + [a]
      ensures currentId == old(currentId) + 1
    {
      var id := currentId;
      currentId := currentId + 1;
      a := WithId(x, id);
      articles := articles + [a];
    }

    /** Stores each of `xs` in turn; the k-th gets id `currentId + k`. */
    method CreateArticles(xs: seq<InsertArticle>) returns (created: seq<Article>)
      requires Valid()
      modifies this
      ensures Valid()
      ensures |created| == |xs|
      ensures forall k :: 0 <= k < |xs| ==> created[k] == WithId(xs[k], old(currentId) + k)
      ensures articles == old(articles) + created
      ensures currentId == old(currentId) + |xs|
    {
      created := [];
      for i := 0 to |xs|
        invariant Valid()
        invariant |created| == i
        invariant forall k :: 0 <= k < i ==> created[k] == WithId(xs[k], old(currentId) + k)
        invariant articles == old(articles) + created
        invariant currentId == old(currentId) + i
      {
        var a := CreateArticle(xs[i]);
        created := created + [a];
      }
    }

    /** Empties the store and restarts ids at 1. */
    method ClearArticles()
      modifies this
      ensures Valid()
      ensures articles == [] && currentId == 1
    {
      articles := [];
      currentId := 1;
    }
  }

  /**
   * Clearing twice is clearing once: `once` and `twice` are the contents and
   * counters after the first and the second clear.  The next insert gets id 1.
   */
  method ClearIsIdempotent(store: MemStorage, x: InsertArticle)
    returns (once: (seq<Article>, int), twice: (seq<Article>, int), a: Article)
    modifies store
    ensures once == twice
    ensures store.Valid()
    ensures a.id == 1 && a.Insert() == x
    ensures store.articles == [a] && store.currentId == 2
  {
    store.ClearArticles();
    once := (store.articles, store.currentId);
    store.ClearArticles();
    twice := (store.articles, store.currentId);
    a := store.CreateArticle(x);
  }
}
