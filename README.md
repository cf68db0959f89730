# NewsStreamline core in Dafny

NewsStreamline is a small news reader. Its server keeps articles in an
in-memory store (`MemStorage`). It answers listing requests that filter by
category and date window and sort by publication time. A refresh request
empties the store and refills it with the top headlines of five fixed
categories from a news provider. The client renders each article as a card:
a coloured category badge and a relative publication time ("3 hours ago").

The model has seven modules:

- `Wrappers`: `Option`.
- `Text`: ASCII `toLowerCase`/`toUpperCase` and decimal printing of
  naturals. `NatToStringRoundTrip` proves the printed digits read back to the
  same number.
- `Arrays`: `Array.prototype.filter` and `map` on sequences, with their
  algebra.
- `Schema`: the shared record shapes and the closed enumerations.
- `Storage`:
  - the filter chain and the sort of `getArticles`;
  - the sort is a stable insertion sort, specified by `SortedByDate` and
    `TiesByInsertion`;
  - `MemStorage`, a class with the `articles` sequence (the Map's values in
    insertion order) and the `currentId` counter as fields.
- `Routes`:
  - the date-window `switch` and the `sortBy` default of the listing
    handler;
  - the listing handler itself;
  - the refresh handler, as a method that clears the store, loops over the
    five categories skipping failed ones, and makes one bulk insert.
- `ArticleCard`: `getCategoryColor`, `formatTimeAgo` with the current time as
  a parameter, and the badge capitalisation. `ReadTimeAgo` reads a
  relative-time text back. It is the independent partner of `FormatTimeAgo`.

Timestamps are integer milliseconds since the epoch. The provider is a
parameter of type `(category, country) -> FetchResult`, where `FetchResult`
is either `Failed` (non-ok status or a thrown error) or the parsed response.
Whether an API key is configured is a boolean parameter. The four
calendar-dependent instants of the listing handler are fields of a `Clock`
value: now, and the starts of today, of tomorrow and of this month.

## Model

| member | source | states |
|---|---|---|
| Schema.WithId | shared/schema.ts:19-24 | a stored article is its insert record plus the given id, and nothing else |
| Schema.ArticleIsInsertPlusId | shared/schema.ts:19-24 | every article is exactly its insert record plus its id |
| Schema.ParseCategoryFilter | shared/schema.ts:48 | a recognised category-filter name parses to the member with that name |
| Schema.ParseDateFilter | shared/schema.ts:49 | a recognised date-filter name parses to the member with that name |
| Schema.ParseSortBy | shared/schema.ts:55 | a recognised sort name parses to the member with that name |
| Schema.EnumerationsRoundTrip | shared/schema.ts:48-55 | the three enumerations are closed: parsing each member's name gives that member back |
| Schema.CategoryNamesDistinct | shared/schema.ts:48 | the six category-filter names are pairwise distinct |
| Text.Lower | server/storage.ts:36 | lower-casing keeps the length and lower-cases each ASCII letter, leaving other characters as they are |
| Text.NatToStringRoundTrip | client/src/components/ArticleCard.tsx:35 | the decimal text a template literal prints for a count reads back to that count |
| Text.NatToStringInjective | client/src/components/ArticleCard.tsx:35 | different counts print differently |
| Arrays.FilterMembers | server/storage.ts:35-50 | `filter` keeps exactly the elements that satisfy the predicate |
| Arrays.FilterFilter | server/storage.ts:35-50 | two filters in a row are one filter by the conjunction |
| Storage.FilteredIsMatching | server/storage.ts:32-51 | the three conditional filter stages keep exactly the stored articles that pass every active filter, in stored order; an empty or 'all' category and absent bounds filter nothing |
| Storage.DirectionOf | server/storage.ts:59-67 | the comparator is ascending exactly for 'oldest', and descending for 'newest', 'relevance' and every other value |
| Storage.FilterIdsIncreasing | server/storage.ts:30-51 | filtering keeps the insertion (id) order of what it keeps |
| Storage.SortByDate | server/storage.ts:55-68 | the sort is a permutation of its input |
| Storage.SortByDateOrdered | server/storage.ts:55-68 | the sort orders by publication time in the chosen direction, and equal times keep id order when the input is in id order (stability) |
| Storage.OrderDetermined | server/storage.ts:55-68 | two permutations of the same articles that are both sorted and keep ties in id order are equal |
| Storage.StableSortIsSortByDate | server/storage.ts:55-68 | any stable sort of an id-ordered input by publication time gives exactly `SortByDate` |
| Storage.NewestOldestReversed | server/storage.ts:59-63 | with pairwise distinct publication times, 'oldest' is 'newest' reversed |
| Storage.MatchingMembers | server/storage.ts:30-51 | a permutation of the matching articles returns only stored, matching articles and misses none |
| Storage.ArrangedFacts | server/storage.ts:30-72 | the query result is sound, complete and a permutation of the matching articles; it is sorted and tie-stable when `sortBy` is set, and in insertion order otherwise |
| Storage.MemStorage.constructor | server/storage.ts:19-22 | a new store is empty, its counter starts at 1 and the id invariant holds |
| Storage.MemStorage.ValidIdsIncreasing | server/storage.ts:16-17 | in a valid store the ids increase in insertion order |
| Storage.MemStorage.GetArticles | server/storage.ts:24-73 | without filters, all articles in insertion order; with filters, only matching stored articles, all of them, as a permutation of the matching ones; sorted by time with ties in id order when `sortBy` is set, otherwise insertion order; it reads the store and cannot change it |
| Storage.MemStorage.CreateArticle | server/storage.ts:75-80 | the new article is the insert record with the old counter as id; that id exceeds every stored id; the article is appended and the counter grows by one |
| Storage.MemStorage.CreateArticles | server/storage.ts:82-89 | returns one record per input in input order; the k-th has id old counter + k; the store is the old store followed by them; the counter grows by the batch length |
| Storage.MemStorage.ClearArticles | server/storage.ts:91-94 | the store is empty and the counter is back at 1 |
| Storage.ClearIsIdempotent | server/storage.ts:91-94 | the contents and counter after a second clear equal those after the first, and the next insert gets id 1 |
| Routes.DateWindow | server/routes.ts:20-40 | 'today' is [start of day, start of tomorrow]; 'week' is [now - 604800000, now]; 'month' is [start of month, now]; 'custom' with a date d is [d, d + 86400000]; 'custom' without a date, an absent value or an unknown value gives no bounds; the two bounds are always set together |
| Routes.NowInWindow | server/routes.ts:21-33 | for 'today', 'week' and 'month', the current instant lies inside the window |
| Routes.SortParam | server/routes.ts:46 | an absent or empty `sortBy` becomes 'newest', any other value passes through, so the store always sorts |
| Routes.ListArticles | server/routes.ts:12-49 | the listing holds only matching stored articles and all of them, always sorted with ties in id order, and `total` is their number |
| Routes.CategoriesAreFilters | server/routes.ts:69 | the five refresh categories are exactly the category filters other than 'all' |
| Routes.OrEmpty | server/routes.ts:88-89 | `value \|\| ''` is the value when present and non-empty, and '' otherwise |
| Routes.Normalize | server/routes.ts:86-96 | title, url, urlToImage, author and publication time are copied; description and content default to ''; source is the source name; category is the loop category |
| Routes.CollectArticles | server/routes.ts:69-102 | the category loop, skipping failed requests, collects exactly the batch: each category's normalised kept entries in the fixed category order |
| Routes.RefreshArticles | server/routes.ts:57-110 | without a key, the outcome is 'not configured' and the store is untouched; with a key, the store holds exactly the batch with ids 1..n and the reported count is n |
| Routes.BatchComplete | server/routes.ts:72-98 | every kept entry of every category that answered ends up normalised in the batch |
| Routes.BatchSound | server/routes.ts:72-98 | every batch record comes from a kept entry of a category that answered, so it has a title and url, is not "[Removed]", has description and content, and carries one of the five categories |
| Routes.DroppedEntriesExcluded | server/routes.ts:85 | an entry with no title, no url or the title "[Removed]" never reaches the store |
| Routes.BatchInCategoryOrder | server/routes.ts:69-72 | the batch is the five contributions concatenated in the order technology, business, sports, entertainment, health |
| Routes.FailureContributesNothing | server/routes.ts:77-80 | a category whose request fails changes the batch exactly as an empty answer would; the other categories are unaffected |
| Routes.TwoCategoriesAnswer | server/routes.ts:72-101 | with technology and business answering and the other three failing, the batch is the technology records followed by the business records |
| Routes.BatchOfAgree | server/routes.ts:72-101 | the batch depends only on what each category contributes |
| ArticleCard.CategoryColor | client/src/components/ArticleCard.tsx:11-26 | the default gray class is returned exactly when the lower-cased category is none of the five known names |
| ArticleCard.CategoryColorIgnoresCase | client/src/components/ArticleCard.tsx:12 | the colour depends only on the lower-cased category |
| ArticleCard.CategoryColorsDistinct | client/src/components/ArticleCard.tsx:13-22 | each of the five categories has its own class, and none of them is the default |
| ArticleCard.BadgeLabel | client/src/components/ArticleCard.tsx:62 | the label has the category's length, a first character that is not a lower-case letter, the rest unchanged, and the same lower-case form |
| ArticleCard.BadgeKeepsColor | client/src/components/ArticleCard.tsx:61-62 | the capitalised label gets the same colour as the category |
| ArticleCard.FormatTimeAgo | client/src/components/ArticleCard.tsx:28-40 | less than an hour elapsed (future dates included) exactly when the text is "Less than an hour ago"; below a day, the whole hours elapsed (1 to 23); from a day on, the whole days elapsed (at least 1) |
| ArticleCard.LeadingDigits | client/src/components/ArticleCard.tsx:35-38 | the length of the leading run of decimal digits |
| ArticleCard.ReadAgo | client/src/components/ArticleCard.tsx:35-38 | an "n hour(s) ago" or "n day(s) ago" text reads back as that count and unit, with the singular used exactly for n = 1 |
| ArticleCard.TimeAgoReadsBack | client/src/components/ArticleCard.tsx:28-40 | every relative-time text reads back to under an hour, the whole hours elapsed, or the whole days elapsed, with correct singular and plural |
| ArticleCard.ElapsedIsWholeUnits | client/src/components/ArticleCard.tsx:30-38 | the count read back lies within an hour (or a day) of the elapsed time, from below |

## Left out

- Network I/O: the `fetch` call, the URL with the key and JSON decoding. What each category's request produced is a `Provider` parameter.
- Environment: reading `process.env`. Whether a key is configured is a boolean.
- Dates: ISO date-string parsing (`new Date(string)`), invalid-date (NaN) comparisons and local-time calendar arithmetic. Timestamps are integers, and the starts of today, tomorrow and the month are inputs.
- `customDate` is modelled after parsing, as an optional integer. An empty string counts as absent.
- An unparsable `customDate`, which gives NaN bounds that no article passes, is not modelled.
- Case mapping covers ASCII letters only. Unicode case mapping of `toLowerCase`/`toUpperCase` is not modelled.
- `BadgeLabel` upper-cases a UTF-16 code unit via ASCII only. Characters outside ASCII are left unchanged.
- The two 500 responses are not modelled. The in-memory store never throws, so those catch blocks are unreachable in this model.
- HTTP handling is not modelled: Express routing, `res.status`/`res.json`, query parameters given as repeated values (arrays), and the unused `category` body field.
- `RefreshOutcome.Status` and `Message` carry the 400/200 status and the message text. The JSON body itself is not modelled.
- Concurrency: interleaved async requests against the shared store. A single sequential caller is modelled.
- Storage.MemStorage: the `Map<number, Article>` is a sequence of its values in insertion order. Ids are always fresh, so `set` never overwrites.
- Provider entries are modelled with a present `title` and `url`. Missing or null values count as the empty string, which is falsy and so dropped alike.
- The React rendering, JSX, `window.open`, the image error handler and the other client components are not modelled.
- Storage.SortByDate: models the comparator outcome, not the raw subtraction. JavaScript's sort with a consistent comparator is stable, which is what the model states.
- ArticleCard.FormatTimeAgo: `Math.floor` of a double-precision quotient is modelled as integer division rounding down. The two agree for every elapsed time below about 9·10^15 ms.
- The client's `ArticleFilters` record is not modelled. The server receives its fields as query-string values, which `Routes.ArticlesQuery` models.
