# boki ingestion pipeline

boki is a Danish real-estate listing site written in TypeScript. Listings reach its
catalog in three stages, and this project models all three.

1. **Crawl.** Four crawl scripts fetch search results from nybolig.dk and home.dk. Each
   result is classified against the staging table `scraped_listings`, keyed by
   (`externalSource`, `externalId`):
   - absent: inserted with its `ohash` digest;
   - present with an equal digest: skipped;
   - present with a different digest: json, digest and `updatedAt` are rewritten.

   Each script has its own rule for fetching the next page.
2. **Promotion.** The API's process-listing handlers take one unprocessed staged record.
   - They check its address with the national address-washing service and reject the
     record when the address is not valid.
   - Otherwise one transaction re-checks the record, inserts the address, gets or
     creates the listing type, inserts the listing and its images and links the record
     to the new listing.

   The update-listing handlers refresh the listing of a source that was updated longest
   ago. Optimistic concurrency on `updatedAt` protects that write.
3. **Detail pages.** The two detail-page scrapers turn an HTML page into the record of
   optional fields that the handlers write.

## Modules

| file | module | what it holds |
|---|---|---|
| wrappers.dfy | Wrappers | `Option`, and `Field` (a JavaScript value: undefined, null or a value) with `??` and Drizzle's insert and update rules |
| text.dfy | Text | JavaScript string and number operations over digit strings: `replace(/\D/g,'')`, `Number`, `split`, `replace` with a string pattern, `indexOf`, `slice`, `substring`, `+=` accumulation |
| staging.dfy | Staging | the staged row and the classification of every crawl script, as functions on the table: one page's upsert, its idempotence and the rows it keeps |
| database.dfy | Database | class `Db`: the tables as fields, one method per SQL statement, and the page upsert as the lookup loop and the insert loop |
| crawl_log.dfy | CrawlLog | the requests and pauses a crawl makes, in order |
| nybolig_scrape.dfy, home_scrape.dfy, home_scrape_all.dfy, nybolig_scrape_all.dfy | NyboligScrape, HomeScrape, HomeScrapeAll, NyboligScrapeAll | each script's recursion, first as a function with its termination measure and then as a recursive method on `Db` proved equal to it |
| slug.dfy | Slugs | the address slug |
| catalog.dfy | Catalog | catalog rows, listing statuses, the detail record, NaN-free number columns |
| promotion.dfy | Promotion | selection, the address test, the listing and image rows, the promotion transaction, the rejection, one handler call |
| process_listing.dfy | ProcessListing | the process-listing handler as statements on `Db`, including the transaction's rollback |
| refresh.dfy | Refresh | selection of the oldest listing, the optimistic re-check, the two kinds of update, the handler |
| interleaving.dfy | Interleaving | concurrent handler calls as interleavings of their atomic writes; the at-most-once promotion invariant |
| home_html.dfy | HomeHtml | the home.dk page: text callbacks, case id, status, `n \|\| null`, year truncation |
| nybolig_html.dfy | NyboligHtml | the nybolig.dk page: image callbacks, the case-facts table, digits, rooms, years |
| pipeline.dfy | Pipeline | what the detail-page results mean for the refresh that follows them |

Modelling decisions:
- **Variants.** Where the code has a defect, the operation takes a `Variant`: `AsWritten` is the code, `Corrected` the evidently intended form. The handlers, the home.dk scraper and the interleavings are stated for both.
- **Tables.** Tables are sequences, and a row's id is its position.
- **The fetched world.** What a crawl fetches is the finite sequence `responses`,
  consumed in order; a request with no answer left fails and ends the script. The
  digest, the clock, the detail-page scraper and the address services are function
  parameters.
- **One page.** The script classifies a page with `Promise.all`; this is modelled as a
  left fold over the page against the table as it stands, and all inserts come after
  it. Inserts happen only after classification, and every classification write is an
  UPDATE by key, so no lookup of the page sees a row inserted for the same page.
- **Number columns.** A number field is a JavaScript number of integer value or NaN.
  PostgreSQL refuses NaN in an integer column, so an insert or update holding one fails.
- **Detail-page parsing.** The HTML parser's callbacks become a sequence of events in
  document order. The home.dk Nuxt payload is decoded by a parameter `decode`.

The code decides where the repository's documentation and the code differ:
- `packages/api/src/db/schema.ts` does not declare the columns the code uses
  (`externalSource`, `externalId`, `hash`, `processedAt`, the catalog tables). Row
  shapes here follow the code's use, and an INSERT is taken to store NULL in every
  column it leaves out except the two timestamps.
- `index.ts` imports `scrapeNyboligListing`, but `nyboligHtmlScraper.ts` exports
  `scrapeListing`. That function returns no `status`, so the handlers read the detail
  record as the abstract record `Catalog.Detail` of optional fields.
  `NyboligHtml.Result` is that record for a nybolig.dk page. By
  `Pipeline.NyboligListingsAreNeverRefreshed`, a promoted nybolig.dk listing then has a
  NULL status, and the refresh query never selects it.
- The newest-listings crawl of nybolig.dk always sends `scrollToken: ''` and `top: 10`,
  whatever its arguments. The model keeps that behaviour and proves what it implies
  (`NyboligScrape.CrawlIgnoresCountAndToken`, `NyboligScrape.StableSourceStopsAfterTwo`).
- The status enum's values are taken in the order active, reserved, sold, unlisted;
  index 3 is the one the code names 'unlisted'.

## Model

| member | source | states |
|---|---|---|
| Wrappers.Coalesce | packages/api/src/index.ts:505-513 | `a ?? b` is `a` when it holds a value and `b` when it is null or undefined |
| Wrappers.Stored | packages/api/src/index.ts:497-517 | an INSERT stores NULL exactly when the field is null or undefined, and the value otherwise |
| Wrappers.Updated | packages/api/src/index.ts:598-615 | an UPDATE keeps the column when the field is undefined, writes NULL for null, writes the value otherwise |
| Text.StripNonDigits | packages/api/src/nyboligHtmlScraper.ts:131 | the result is all digits and no longer than the input; a digit string is left unchanged |
| Text.DecimalValueAppend | packages/api/src/nyboligHtmlScraper.ts:131 | one more digit multiplies the value by ten and adds that digit |
| Text.DecimalValueBound | packages/api/src/nyboligHtmlScraper.ts:131 | a number of k digits is below 10^k |
| Text.Trim | packages/api/src/nyboligHtmlScraper.ts:117 | trimming never lengthens a string; a non-empty result neither starts nor ends with white space |
| Text.JsNumber | packages/api/src/nyboligHtmlScraper.ts:117 | `Number` of a digit string is its decimal value; no result is negative |
| Text.TrimDigits | packages/api/src/nyboligHtmlScraper.ts:117 | trimming a digit string, the empty one included, removes nothing |
| Text.NumberOfDigits | packages/api/src/nyboligHtmlScraper.ts:131 | `Number(s.replace(/\D/g, ''))` is never NaN: it is the value of the digits, 0 when there are none |
| Text.AddNum | packages/api/src/nyboligHtmlScraper.ts:118 | JavaScript `+` on numbers gives a number exactly when both operands are numbers, and it is their sum |
| Text.Split | packages/api/src/nyboligHtmlScraper.ts:113-121 | `split` gives at least one part, and no part contains the separator |
| Text.SplitJoin | packages/api/src/nyboligHtmlScraper.ts:114-118 | joining the parts with the separator gives the string back: splitting loses no character |
| Text.SplitNoSeparator | packages/api/src/nyboligHtmlScraper.ts:120-121 | a string without the separator is a single part |
| Text.SplitAfterPart | packages/api/src/nyboligHtmlScraper.ts:113 | `a + sep + rest` splits into `a` followed by the parts of `rest` |
| Text.IndexOf | packages/api/src/index.ts:469-471 | the position found is the leftmost occurrence at or after the start; none is found only when there is no occurrence |
| Text.LastIndexOf | packages/api/src/homeHtmlScraper.ts:52 | the position found is the rightmost occurrence at or before the bound; none is found only when there is no occurrence |
| Text.AfterLastSpec | packages/api/src/homeHtmlScraper.ts:52 | `split(pat).pop()` is a suffix of the string with no occurrence of `pat`; when `pat` occurs, one occurrence ends exactly where that suffix starts |
| Text.DropLast | packages/api/src/homeHtmlScraper.ts:52 | `slice(0, -1)` removes exactly the final character; the empty string stays empty |
| Text.Prefix | packages/api/src/homeHtmlScraper.ts:117-118 | `substring(0, n)` is the initial part of length min(n, length) |
| Text.ReplaceFirstSpec | packages/api/src/index.ts:469-471 | `replace` with a string pattern changes nothing when the pattern is absent, and otherwise replaces only its leftmost occurrence, keeping everything around it |
| Text.ConcatSpec | packages/api/src/homeHtmlScraper.ts:30-36 | the accumulated text holds every chunk, in order, at its running offset |
| Text.Accumulate | packages/api/src/nyboligHtmlScraper.ts:35-41 | the `+=` loop over the chunks yields their concatenation |
| Catalog.IntField | packages/api/src/index.ts:503-517 | an integer column receives the number when there is one, NULL for null and nothing for undefined |
| Catalog.AsNum | packages/api/src/homeHtmlScraper.ts:128 | a JSON number read from the page is never NaN and keeps whether it is defined or null |
| Catalog.UnlistedOnly | packages/api/src/homeHtmlScraper.ts:48-50 | the fallback record's status is `enumValues[3]` |
| Catalog.FirstImage | packages/api/src/index.ts:512-513 | `images?.[0]` is defined exactly when the list is present and non-empty, and it is the first element |
| CrawlLog.Fetches | packages/api/src/nyboligScrape.ts:120-124 | a log never holds more requests than entries |
| CrawlLog.FetchesAppend | packages/api/src/nyboligScrape.ts:120-124 | the requests of two consecutive logs add up |
| CrawlLog.FetchesOfStep | packages/api/src/nyboligScrape.ts:120-124 | a request, a pause and a rest hold one request more than the rest |
| Staging.FirstMatch | packages/api/src/nyboligScrape.ts:77-92 | the row found is the first row with the candidate's source and id; none is found only when no row has that key. The model's choice among several such rows is id order; the query's `limit(1)` leaves it to the database |
| Staging.FirstMatchSameKeys | packages/api/src/nyboligScrape.ts:77-84 | the lookup depends on the rows' keys only |
| Staging.FirstMatchAppend | packages/api/src/nyboligScrape.ts:112-119 | appending rows never changes a lookup that already finds a row; otherwise it searches the new rows |
| Staging.Classify | packages/api/src/nyboligScrape.ts:85-105 | new exactly when the key is absent; unchanged exactly when the first matching row's digest equals the candidate's; changed otherwise |
| Staging.UpdateKeyed | packages/api/src/nyboligScrape.ts:95-104 | every row with the key gets the new json, digest and `updatedAt`, and every other column and row is kept |
| Staging.InsertRows | packages/api/src/nyboligScrape.ts:112-119 | one new row per new candidate, in order |
| Staging.AbsentOnes | packages/api/src/nyboligScrape.ts:108 | the unknown candidates are a sub-list of the page |
| Staging.ClassifyPageSpec | packages/api/src/nyboligScrape.ts:77-108 | the lookup pass keeps every row's key and bookkeeping, leaves rows of keys not on the page untouched, and reports as new exactly the candidates absent at the start of the page, so updated and skipped ones are never counted |
| Staging.ClassifyStepSpec | packages/api/src/nyboligScrape.ts:79-105 | one lookup keeps keys and bookkeeping, touches only rows of its key, and adds the candidate to the new ones exactly when it is absent |
| Staging.ClassifyPage | packages/api/src/nyboligScrape.ts:77-108 | the lookup pass keeps the number of rows and reports at most one new candidate per page entry |
| Staging.UpsertPage | packages/api/src/nyboligScrape.ts:77-119 | the table grows by exactly the number of new candidates, and no more candidates are new than the page holds |
| Staging.UpsertPageSpec | packages/api/src/nyboligScrape.ts:77-119 | the page keeps every existing row's key, `createdAt`, `listingId` and `processedAt`, and appends exactly one row per new candidate with its id, json and digest |
| Staging.AbsentIsInserted | packages/api/src/nyboligScrape.ts:85-119 | an absent candidate is counted new and inserted once with its digest |
| Staging.EqualHashIsSkipped | packages/api/src/nyboligScrape.ts:92-94 | an equal digest changes no row and counts nothing |
| Staging.ChangedHashIsUpdated | packages/api/src/nyboligScrape.ts:95-104 | a different digest rewrites json, digest and `updatedAt` of the key's rows, keeps `listingId` and `processedAt`, inserts nothing and counts nothing |
| Staging.OnePage | packages/api/src/nyboligScrape.ts:77-108 | a page of one candidate is one lookup |
| Staging.StepSettles | packages/api/src/nyboligScrape.ts:85-104 | after its lookup a candidate is stored with its own digest or waits to be inserted |
| Staging.StepKeepsSettled | packages/api/src/nyboligScrape.ts:85-104 | a later lookup of a candidate with another key, or with the same key and digest, keeps an earlier candidate stored or waiting |
| Staging.ClassifyPrefixSettles | packages/api/src/nyboligScrape.ts:77-108 | after the lookups of a page's first m candidates, each of them is stored with its digest or waiting, and only page candidates wait |
| Staging.PrefixStepSettles | packages/api/src/nyboligScrape.ts:77-108 | the same property carries from m - 1 candidates to m |
| Staging.SettledPageIsNoOp | packages/api/src/nyboligScrape.ts:92-94 | a page whose candidates are all stored with their digests writes nothing and finds nothing new |
| Staging.UpsertPageIdempotent | packages/api/src/homeScrape.ts:64-92 | for a consistent page (a key repeated on the page carries equal digests), feeding the same page a second time, at any later time, writes nothing and finds nothing new |
| Staging.InsertSettles | packages/api/src/nyboligScrape.ts:112-119 | after the inserts, every candidate that was stored or waiting is stored with its digest |
| Staging.UpsertKeepsRows | packages/api/src/nyboligScrape.ts:77-119 | the page upsert only rewrites and appends rows, keeping every existing row's key and bookkeeping |
| Database.TypeNamed | packages/api/src/index.ts:477-483 | the type found carries the name; none is found only when no type has it |
| Database.Db.constructor | packages/api/src/index.ts:46 | the database starts with the given contents |
| Database.Db.Rollback | packages/api/src/index.ts:443 | a failed transaction leaves every table as it was at its start |
| Database.Db.LookupStaged | packages/api/src/nyboligScrape.ts:80-84 | the lookup returns the first row of the key |
| Database.Db.RewriteStaged | packages/api/src/nyboligScrape.ts:96-103 | the UPDATE by key rewrites exactly the rows `Staging.UpdateKeyed` describes and nothing else |
| Database.Db.InsertStaged | packages/api/src/nyboligScrape.ts:113-118 | the INSERT appends exactly the candidate's row |
| Database.Db.ClassifyCandidates | packages/api/src/nyboligScrape.ts:77-108 | the lookup loop leaves the table and the list of new candidates that the classification pass specifies |
| Database.Db.InsertCandidates | packages/api/src/nyboligScrape.ts:112-119 | the insert loop appends one row per new candidate, in order |
| Database.Db.StorePage | packages/api/src/nyboligScrape.ts:77-119 | one fetched page leaves the table of the page upsert and returns its number of new candidates |
| Database.Db.SetBookkeeping | packages/api/src/index.ts:540-546 | the UPDATE by id sets `listingId` and `processedAt` of that row only; an id outside the table changes nothing |
| Database.Db.InsertAddress | packages/api/src/index.ts:454-474 | the address is appended and its id returned |
| Database.Db.LookupType | packages/api/src/index.ts:477-483 | the lookup returns the first type of the name |
| Database.Db.InsertType | packages/api/src/index.ts:487-492 | the type is appended and its id returned |
| Database.Db.InsertListing | packages/api/src/index.ts:495-518 | the listing is appended and its id returned |
| Database.Db.RewriteListing | packages/api/src/index.ts:596-617 | the UPDATE by id replaces that listing only; an id outside the table changes nothing |
| Database.Db.InsertImages | packages/api/src/index.ts:521-536 | the image rows are appended in order |
| NyboligScrape.Cadence | packages/api/src/nyboligScrape.ts:120-124 | n requests for the same body, the first one leading, a pause between each two |
| NyboligScrape.Crawl | packages/api/src/nyboligScrape.ts:14-124 | the crawl consumes responses and never goes back: the next unread response is at or after the first one |
| NyboligScrape.CrawlLogShape | packages/api/src/nyboligScrape.ts:14-124 | every request the crawl makes sends the same body, `scrollToken: ''` and `top: 10`, with a five-second pause between each two |
| NyboligScrape.CrawlFetchBound | packages/api/src/nyboligScrape.ts:120-124 | a crawl makes at least one and at most `maxRec + 1` requests |
| NyboligScrape.ContinuesIff | packages/api/src/nyboligScrape.ts:120 | a second request is made exactly when the first succeeded, its page held more than eight new records and `maxRec > 0` |
| NyboligScrape.CrawlIgnoresCountAndToken | packages/api/src/nyboligScrape.ts:71-72 | the count and the scroll token passed down change nothing the crawl does |
| NyboligScrape.CrawlKeepsBookkeeping | packages/api/src/nyboligScrape.ts:95-119 | the crawl keeps every existing row's key and bookkeeping |
| NyboligScrape.StableSourceStopsAfterTwo | packages/api/src/nyboligScrape.ts:120-124 | when the source answers the repeated request with the same page, the crawl stops after at most two requests |
| NyboligScrape.StopsWhenNothingNew | packages/api/src/nyboligScrape.ts:120 | a second page with nothing new ends the crawl after at most two requests |
| NyboligScrape.CrawlStep | packages/api/src/nyboligScrape.ts:108-124 | one level of the recursion: fetch, store, then either pause and recurse with `maxRec - 1` or stop |
| NyboligScrape.GetListings | packages/api/src/nyboligScrape.ts:14-125 | the recursive method leaves the table, the requests and the outcome of the crawl function |
| NyboligScrape.ScrapeNewest | packages/api/src/nyboligScrape.ts:128 | `getListings(10, 5)` makes at most six requests |
| HomeScrape.Pages | packages/api/src/homeScrape.ts:39 | n requests, one per page in turn |
| HomeScrape.Crawl | packages/api/src/homeScrape.ts:20-98 | the crawl consumes responses and never goes back: the next unread response is at or after the first one |
| HomeScrape.CrawlLogShape | packages/api/src/homeScrape.ts:20-98 | the crawl requests pages `page`, `page + 1`, … in turn with the same page size, at least one of them, with a five-second pause between each two |
| HomeScrape.PagesStep | packages/api/src/homeScrape.ts:96-97 | n + 1 pages are the first page, a pause, and n pages from the next one on |
| HomeScrape.OnePage | packages/api/src/homeScrape.ts:39 | a log of one request is one page |
| HomeScrape.CrawlFetchBound | packages/api/src/homeScrape.ts:94-98 | a crawl makes at least one request; from a page p of at most five it makes at most 7 - p, and from any later page exactly one |
| HomeScrape.ContinuesIff | packages/api/src/homeScrape.ts:94 | a second page is requested exactly when the first request succeeded, its page held more than eight new records, the page number was at most five and the source reported a next page |
| HomeScrape.CrawlKeepsBookkeeping | packages/api/src/homeScrape.ts:67-92 | the crawl keeps every existing row's key and bookkeeping |
| HomeScrape.CrawlStep | packages/api/src/homeScrape.ts:80-98 | one level of the recursion: fetch, store, then either pause and recurse on `page + 1` or stop |
| HomeScrape.GetListings | packages/api/src/homeScrape.ts:20-99 | the recursive method leaves the table, the requests and the outcome of the crawl function |
| HomeScrape.ScrapeNewest | packages/api/src/homeScrape.ts:102 | `getListings(1)` requests pages 1, 2, … in turn, at least one and at most six, without a page size |
| HomeScrapeAll.Labels | packages/api/src/homeScrapeAll.ts:101-105 | each postal-code filter value is `nr + ' ' + navn`, one per area, in list order |
| HomeScrapeAll.Crawl | packages/api/src/homeScrapeAll.ts:23-98 | a crawl never goes back in the list of answers |
| HomeScrapeAll.Pages | packages/api/src/homeScrapeAll.ts:43 | n search requests, one per page in turn |
| HomeScrapeAll.OnePage | packages/api/src/homeScrapeAll.ts:43 | a log of one request is one page |
| HomeScrapeAll.PagesStep | packages/api/src/homeScrapeAll.ts:96-97 | n + 1 pages are the first page, a pause, and n pages from the next one on |
| HomeScrapeAll.CrawlLogShape | packages/api/src/homeScrapeAll.ts:23-98 | a postal code's crawl requests pages `page`, `page + 1`, … of that postal code with the same page size, at least one of them |
| HomeScrapeAll.CrawlFollowsNextPage | packages/api/src/homeScrapeAll.ts:94-98 | the crawl goes on exactly when the request succeeded and the source reported a next page, whatever the novelty; a normal end is at the first answer without a next page, one answer per request |
| HomeScrapeAll.StartedAppend | packages/api/src/homeScrapeAll.ts:112-116 | the first-page requests of two consecutive logs add up |
| HomeScrapeAll.StartedPages | packages/api/src/homeScrapeAll.ts:114 | a postal code's pages start that postal code exactly when they start at page 1 |
| HomeScrapeAll.CrawlAllVisitsInOrder | packages/api/src/homeScrapeAll.ts:112-116 | the postal codes are crawled in list order from page 1, each once; the ones started are a prefix of the list, and all of them when the run ends normally |
| HomeScrapeAll.VisitStep | packages/api/src/homeScrapeAll.ts:113-115 | one postal code, the half-second pause and the rest start the codes in order |
| HomeScrapeAll.CrawlKeepsBookkeeping | packages/api/src/homeScrapeAll.ts:70-93 | a postal code's crawl keeps every existing row's key and bookkeeping |
| HomeScrapeAll.CrawlAllKeepsBookkeeping | packages/api/src/homeScrapeAll.ts:112-116 | the whole loop keeps every existing row's key and bookkeeping |
| HomeScrapeAll.CrawlStep | packages/api/src/homeScrapeAll.ts:82-98 | one level of the recursion: fetch, store, then either pause and recurse on `page + 1` or stop |
| HomeScrapeAll.GetListings | packages/api/src/homeScrapeAll.ts:23-99 | the recursive method leaves the table, the requests and the outcome of the crawl function |
| HomeScrapeAll.CrawlAllStep | packages/api/src/homeScrapeAll.ts:113-115 | one round of the loop: a postal code crawled from page 1 with page size 999, then the pause and the rest, or the end after a failed request |
| HomeScrapeAll.LoopStep | packages/api/src/homeScrapeAll.ts:113-115 | one round keeps the loop's invariant, or completes the run after a failed request |
| HomeScrapeAll.CrawlLabels | packages/api/src/homeScrapeAll.ts:113-116 | the `for` loop over the postal codes leaves the table, the requests and the outcome of the loop function |
| HomeScrapeAll.ScrapeAll | packages/api/src/homeScrapeAll.ts:101-116 | the script requests the postal areas, then crawls their labels as the loop function says; a failed area request ends it |
| NyboligScrapeAll.Crawl | packages/api/src/nyboligScrapeAll.ts:12-115 | a crawl never goes back in the list of answers |
| NyboligScrapeAll.Follow | packages/api/src/nyboligScrapeAll.ts:68-69 | the reference request sequence starts with a request for the given token and count |
| NyboligScrapeAll.CrawlFollowsTokens | packages/api/src/nyboligScrapeAll.ts:68-115 | each request carries the scroll token of the answer before it, each is followed by a pause, including the last; a failed request carries the last token received |
| NyboligScrapeAll.CrawlStopsAtFalsyToken | packages/api/src/nyboligScrapeAll.ts:113-115 | a normal end is exactly at the first answer whose scroll token is falsy; a failure only after every answer carried a truthy one |
| NyboligScrapeAll.ContinuesIff | packages/api/src/nyboligScrapeAll.ts:113 | a second request is made exactly when the first succeeded and carried a truthy scroll token |
| NyboligScrapeAll.CrawlIgnoresStore | packages/api/src/nyboligScrapeAll.ts:102-115 | the requests, the outcome and the answers used do not depend on the database, and new records do not drive the continuation |
| NyboligScrapeAll.CrawlKeepsCount | packages/api/src/nyboligScrapeAll.ts:69 | every request asks for `count` cases |
| NyboligScrapeAll.CrawlKeepsBookkeeping | packages/api/src/nyboligScrapeAll.ts:89-111 | the crawl keeps every existing row's key and bookkeeping |
| NyboligScrapeAll.CrawlStep | packages/api/src/nyboligScrapeAll.ts:104-115 | one level of the recursion: fetch, store, pause, then recurse on the token or stop |
| NyboligScrapeAll.GetListings | packages/api/src/nyboligScrapeAll.ts:12-116 | the recursive method leaves the table, the requests and the outcome of the crawl function |
| NyboligScrapeAll.ScrapeAll | packages/api/src/nyboligScrapeAll.ts:118 | `getListings(100)` first requests without a scroll token, and every request asks for 100 cases |
| Slugs.LowerChar | packages/api/src/index.ts:467 | lower-casing leaves no ASCII capital, moves an ASCII capital to its small letter and keeps every other ASCII and non-capital character |
| Slugs.Lower | packages/api/src/index.ts:467 | the string is lower-cased character by character, keeping its length |
| Slugs.KeepWord | packages/api/src/index.ts:472 | only characters of `[\w-]` remain, never more than there were, and a string of them is kept whole |
| Slugs.DashRunsChars | packages/api/src/index.ts:468 | after collapsing runs of white space and commas to '-', none of them is left, no capital appears, and a string without them is kept |
| Slugs.ReplaceFirstNoUpper | packages/api/src/index.ts:469-471 | the transliterations add no capital |
| Slugs.SlugChars | packages/api/src/index.ts:466-472 | every character of a slug is a small ASCII letter, a digit, '_' or '-' |
| Slugs.Slug | packages/api/src/index.ts:466-472 | every character of the result is a small ASCII letter, a digit, '_' or '-' |
| Slugs.KeepWordKeepsNoUpper | packages/api/src/index.ts:472 | deleting characters adds no capital |
| Slugs.ReplaceFirstAbsent | packages/api/src/index.ts:469-471 | a string of slug characters is left unchanged by the transliterations |
| Slugs.LowerSlug | packages/api/src/index.ts:467 | lower-casing leaves slug characters alone |
| Slugs.SlugOfSlugChars | packages/api/src/index.ts:466-472 | a string of slug characters is its own slug |
| Slugs.KeepWordSlug | packages/api/src/index.ts:472 | the deletion leaves slug characters alone |
| Slugs.SlugIdempotent | packages/api/src/index.ts:466-472 | the slug of a slug is the slug itself |
| Slugs.LetterAbsent | packages/api/src/index.ts:469-471 | a letter that does not occur is not replaced |
| Slugs.SecondLetterIsDropped | packages/api/src/index.ts:469-472 | only the first 'æ' is transliterated: "Ææ" becomes "ae", the second letter being deleted |
| Slugs.LowerAndDash | packages/api/src/index.ts:467-468 | "Ææ" lower-cases to "ææ" |
| Slugs.KeepLetters | packages/api/src/index.ts:472 | the deletion removes the remaining 'æ' |
| Promotion.SelectStaged | packages/api/src/index.ts:355-368 | the row chosen is the first row of the source with both bookkeeping columns NULL that passes the source's filter; none is chosen only when no row does. The model's choice is id order; the query has no `orderBy` and leaves it to the database |
| Promotion.Wash | packages/api/src/index.ts:408-412 | the address is accepted exactly when a first washing result exists with status 1 and no end of validity, and then its id is used |
| Promotion.WashAsWritten | packages/api/src/index.ts:408-412 | as written the address is accepted exactly when the test holds, with the first result's id; an empty result list throws |
| Promotion.AddressVerdict | packages/api/src/index.ts:408-412 | in either variant the address is accepted exactly when the test holds; only the code as written throws, and only on an empty result list |
| Promotion.WashAsWrittenThrowsOnEmpty | packages/api/src/index.ts:408 | the expression as written throws exactly on an empty result list and agrees with the test otherwise |
| Promotion.EmptyWashThrows | packages/api/src/index.ts:408 | an empty result list throws as written and is rejected by the corrected test |
| Promotion.NewAddress | packages/api/src/index.ts:454-473 | the new address shows the service's designation and carries its slug |
| Promotion.WashKey | packages/api/src/index.ts:405-714 | the nybolig.dk washing query is the record's `addressDisplayName`; for a home.dk record reading `address.full` throws exactly when `address` is missing |
| Promotion.NyboligListing | packages/api/src/index.ts:495-518 | a listing row built for a nybolig.dk record has the nybolig.dk source, the detail URL, the page's status and both timestamps at the call's time |
| Promotion.PlotArea | packages/api/src/index.ts:806 | reading `stats.plotArea` throws exactly when `stats` is missing |
| Promotion.FloorArea | packages/api/src/index.ts:807 | reading `stats.floorArea` throws exactly when `stats` is missing |
| Promotion.PriceAmount | packages/api/src/index.ts:809 | reading `offer.price.amount` throws exactly when `offer` or `offer.price` is missing |
| Promotion.CoalesceRead | packages/api/src/index.ts:806-809 | `a ?? b` reads `b` only when `a` is null or undefined, so it throws exactly when it must read a `b` that throws, and otherwise gives `a` or the number `b` |
| Promotion.HomeListing | packages/api/src/index.ts:796-819 | a listing row built for a home.dk record has the home.dk source, the detail URL, the page's status and both timestamps at the call's time |
| Promotion.HomeType | packages/api/src/index.ts:748 | a category is mapped exactly when it has a `HOME_TYPE_MAP` entry |
| Promotion.HomeTypeSynonyms | packages/api/src/index.ts:30-44 | several home.dk categories fall into one catalog type, and an unknown or missing one into none |
| Promotion.NyboligDetailWins | packages/api/src/index.ts:495-518 | each number and the energy class come from the detail page when it has them, and from the staged record only when the page's value is null or undefined; the row fails exactly on a NaN |
| Promotion.HomeDetailWins | packages/api/src/index.ts:796-819 | the same for home.dk, where the basement area falls back on 0 and is never NULL; a fallback read through a missing `stats`, `offer` or `offer.price` object fails the row as well |
| Promotion.ImageRows | packages/api/src/index.ts:521-536 | the photos come first and then the floor plans, each list numbered from 0 with its own kind |
| Promotion.ImagesToInsert | packages/api/src/index.ts:520-537 | an unlisted page gets no image rows, and every image row points at the new listing |
| Promotion.ImagesToInsertSpec | packages/api/src/index.ts:520-537 | no images for an unlisted page or two empty lists; otherwise the photos and the floor plans; the insert fails exactly when the page is listed and a list is missing |
| Promotion.TypeFor | packages/api/src/index.ts:477-492 | an existing type of the name is reused; otherwise exactly one type of that name is created |
| Promotion.MakePlan | packages/api/src/index.ts:454-518 | the transaction's address shows the service's designation, its status and image lists are the detail page's, and its listing row has the detail URL and the record's source |
| Promotion.Promote | packages/api/src/index.ts:443-549 | the transaction commits exactly when the staged row exists and has no listing, the type name is defined, the listing row can be written and the image lists can be read; it then adds one listing at the end and changes no other staged row |
| Promotion.PromoteGuard | packages/api/src/index.ts:443-452 | the transaction returns early, writing nothing, exactly when the staged row is gone or already has a listing |
| Promotion.PromoteEffect | packages/api/src/index.ts:443-549 | a committed promotion adds one address and one listing that points at it and at its type, adds the image rows, and links the staged row to the new listing with `processedAt`; nothing else changes |
| Promotion.PromoteKeepsTypeNamesUnique | packages/api/src/index.ts:477-492 | get-or-create never gives two types the same name |
| Promotion.RejectSpec | packages/api/src/index.ts:413-419 | a rejection marks the record processed, leaves it without listing and touches no catalog table; the guarded form leaves a promoted record alone, while the write as written unlinks it |
| Promotion.RejectAsWritten | packages/api/src/index.ts:413-419 | the write as written touches no catalog table and no other staged row, and leaves the row unlinked and processed at the call's time, whatever it held |
| Promotion.Reject | packages/api/src/index.ts:413-419 | the guarded form touches no catalog table and no other staged row, and never changes the row's `listingId` |
| Promotion.Rejection | packages/api/src/index.ts:413-419 | in either variant the rejection write leaves the catalog tables alone and marks an unlinked record processed at the call's time, changing nothing else |
| Promotion.NothingToProcess | packages/api/src/index.ts:370-372 | the handler answers 200 "No listings found" exactly when no row is eligible, and then changes nothing |
| Promotion.RejectsIffInvalidAddress | packages/api/src/index.ts:408-422 | in either variant the handler rejects exactly when the selected record's address fails the test (as written, except on an empty result list, which throws), and then only marks that record processed |
| Promotion.FailureChangesNothing | packages/api/src/index.ts:392-439 | a failed request, a throw or a guarded call leaves the database as it was; a failing detail-page, washing or address request answers 500 |
| Promotion.CreatedLinksRecord | packages/api/src/index.ts:540-555 | a successful call returns the new last listing, and the selected record points at it with `processedAt` set |
| Promotion.Gather | packages/api/src/index.ts:390-717 | in both handlers, the call reaches its decision exactly when the detail-page request, reading the address text and the washing request all succeed, with their answers |
| Promotion.Decide | packages/api/src/index.ts:408-555 | after the requests, only the selected record can change among the staged rows; the call rejects exactly when the address verdict is a rejection; a 500 or a guarded transaction writes nothing |
| Promotion.Process | packages/api/src/index.ts:352-856 | one call of the nybolig.dk or home.dk process-listing handler, in either variant, keeps the number of staged rows and changes at most the selected one |
| Promotion.EmptyWashIsServerError | packages/api/src/index.ts:408 | on an empty washing result the code as written answers 500 and writes nothing, so the record stays eligible and a later call can select it again; the corrected handler rejects it with 400 and marks it processed |
| Promotion.DecideAgrees | packages/api/src/index.ts:408-419 | on an unlinked record and a non-empty washing result, the decision is the same in both variants |
| Promotion.VariantsAgree | packages/api/src/index.ts:352-556 | the handler as written and the corrected one give the same reply and state unless the selected record meets an empty washing result |
| ProcessListing.PromoteTx | packages/api/src/index.ts:443-549 | the statements of the transaction commit what `Promotion.Promote` describes, and roll back to the state before it on failure |
| ProcessListing.ProcessListing | packages/api/src/index.ts:352-556 | in either variant, one handler call as statements has the reply and the end state of the handler function |
| Refresh.SelectOldest | packages/api/src/index.ts:559-562 | the listing chosen belongs to the source, has a status other than unlisted and the smallest `updatedAt`; none is chosen only when no listing qualifies. Among listings of equal `updatedAt` the model's choice is id order; the query leaves it to the database |
| Refresh.RefreshCommitSpec | packages/api/src/index.ts:573-620 | the refresh conflicts exactly when the listing is gone or its `updatedAt` changed; otherwise it rewrites only that listing, keeps its source, URL, address, type and creation time, and stamps it |
| Refresh.RefreshCommit | packages/api/src/index.ts:573-620 | a committed refresh keeps the number of listings, stamps the listing with the call's time and leaves the staged rows and the images alone |
| Refresh.Rewritten | packages/api/src/index.ts:596-617 | the rewritten listing keeps its source, URL, address, type and creation time, is stamped with the call's time, and keeps its status and price when the page leaves them undefined |
| Refresh.UnlistedIsFinal | packages/api/src/index.ts:581-593 | an unlisted page changes only status and `updatedAt`, and the listing is never selected again |
| Refresh.EmptyPageOnlyTouches | packages/api/src/index.ts:596-617 | fields the page leaves undefined keep their values; a page that defines none only moves `updatedAt` |
| Refresh.RewrittenIdempotent | packages/api/src/index.ts:596-617 | rewriting with the same page twice is the same as rewriting once |
| Refresh.NoLostUpdate | packages/api/src/index.ts:579 | after a refresh read at one version has committed, a second refresh that read the same version conflicts instead of overwriting it |
| Refresh.RefreshRunAlone | packages/api/src/index.ts:558-627 | run alone the handler never conflicts: it refreshes the oldest eligible listing and returns it, answers 500 and changes nothing when the detail request fails or a number is NaN, or finds none exactly when no listing is eligible |
| Refresh.RefreshRun | packages/api/src/index.ts:558-627 | one update-listing call keeps the number of listings and leaves the staged rows and the images alone |
| Refresh.RefreshTx | packages/api/src/index.ts:573-620 | the transaction's statements leave the state the refresh commit describes, and nothing on a conflict or failure |
| Refresh.RefreshListing | packages/api/src/index.ts:858-927 | one update-listing call as statements has the reply and the end state of the handler function |
| Interleaving.InvAtMostOnce | packages/api/src/index.ts:452 | the catalog invariant implies that no staged row was promoted twice |
| Interleaving.PromoteKeepsInv | packages/api/src/index.ts:443-549 | a promotion keeps the invariant that the k-th listing was created by the k-th promotion, whose staged row still points at it |
| Interleaving.RejectKeepsInv | packages/api/src/index.ts:413-419 | the guarded rejection keeps the invariant |
| Interleaving.RefreshKeepsInv | packages/api/src/index.ts:573-620 | a refresh keeps the invariant |
| Interleaving.SameBookkeepingKeepsInv | packages/api/src/nyboligScrape.ts:95-119 | rewriting staged rows while keeping their bookkeeping keeps the invariant |
| Interleaving.CrawlKeepsInv | packages/api/src/nyboligScrape.ts:77-119 | a crawled page keeps the invariant |
| Interleaving.AtMostOncePromotion | packages/api/src/index.ts:443-452 | under any interleaving of promotions, guarded rejections, refreshes and crawled pages, no staged row is promoted twice |
| Interleaving.EmptyCatalog | packages/api/src/index.ts:443-452 | an empty catalog satisfies the invariant |
| Interleaving.RunSnoc | packages/api/src/index.ts:443-549 | one more write is applied to the world the others left |
| Interleaving.RunThree | packages/api/src/index.ts:443-549 | three writes apply in turn |
| Interleaving.UnlistedPromotionCommits | packages/api/src/index.ts:443-549 | for an unprocessed staged row and a plan with a type name, a listing row and status unlisted (so that no image rows are needed): a promotion of an unprocessed row commits one listing and links the row to it |
| Interleaving.BlindRejectReopens | packages/api/src/index.ts:413-419 | for an unprocessed staged row and a plan with a type name, a listing row and status unlisted (so that no image rows are needed): as written, promote, reject and promote on one row commit two listings for it |
| Interleaving.GuardedRejectHolds | packages/api/src/index.ts:443-452 | for an unprocessed staged row and a plan with a type name, a listing row and status unlisted (so that no image rows are needed): with the guarded rejection the same three writes commit one listing |
| Interleaving.DoublePromotionAsWritten | packages/api/src/index.ts:355-452 | three calls that select the same unprocessed row can promote it twice as written, and only once with the guarded rejection |
| HomeHtml.ScanBuffers | packages/api/src/homeHtmlScraper.ts:12-44 | the heading buffer is the concatenation of every `h2.h1` chunk and the linked-data buffer that of every linked-data chunk; other callbacks leave them alone |
| HomeHtml.Rewriter.constructor | packages/api/src/homeHtmlScraper.ts:12-38 | the buffers start empty |
| HomeHtml.Rewriter.On | packages/api/src/homeHtmlScraper.ts:16-44 | a callback appends its text to its own buffer |
| HomeHtml.Rewriter.Transform | packages/api/src/homeHtmlScraper.ts:46 | the buffers after the page are those of the callbacks applied in document order |
| HomeHtml.CaseIdOfUrl | packages/api/src/homeHtmlScraper.ts:52 | for an address ending in "/sag-<id>/", with no '/' in the id, the id is found |
| HomeHtml.Status | packages/api/src/homeHtmlScraper.ts:123-127 | a home is reserved exactly when under sale, sold exactly when sold and not under sale, active otherwise, and never unlisted |
| HomeHtml.StatusAsWritten | packages/api/src/homeHtmlScraper.ts:123-127 | the expression as written picks one of the first three enum values and never the fourth, unlisted |
| HomeHtml.HomeStatus | packages/api/src/homeHtmlScraper.ts:123-127 | in either variant, a listed page's status is never unlisted |
| HomeHtml.StatusAsWrittenSwaps | packages/api/src/homeHtmlScraper.ts:123-127 | under the enum order taken here (active, reserved, sold, unlisted), the expression as written swaps reserved and sold and agrees otherwise |
| HomeHtml.StatusOrderDecides | packages/api/src/homeHtmlScraper.ts:123-127 | the swap rests on the enum order: with the values declared active, sold, reserved, unlisted the expression as written would equal the intended status, and in the order taken here it agrees only when the home is neither under sale nor sold |
| HomeHtml.ZeroIsNull | packages/api/src/homeHtmlScraper.ts:115-116 | a count of 0 becomes null, any other count is kept |
| HomeHtml.Year | packages/api/src/homeHtmlScraper.ts:117-118 | a year is null exactly when the date is null or empty |
| HomeHtml.YearOfDate | packages/api/src/homeHtmlScraper.ts:117-118 | a date starting with four digits gives that year |
| HomeHtml.ResultSpec | packages/api/src/homeHtmlScraper.ts:48-130 | in either variant, the page counts as unlisted exactly when it has no linked data or the payload has no case for its id, and then holds only the status; otherwise every number is defined and never NaN, zero counts are null, and the title is the heading |
| HomeHtml.Result | packages/api/src/homeHtmlScraper.ts:48-130 | in either variant the record's status is always defined |
| HomeHtml.ResultStatus | packages/api/src/homeHtmlScraper.ts:123-127 | for a listed page, the corrected form gives reserved exactly when under sale, sold exactly when sold and not under sale, and active otherwise; the form as written exchanges reserved and sold |
| HomeHtml.ScrapeHomeListing | packages/api/src/homeHtmlScraper.ts:7-131 | in either variant, the scraper returns the record of the page's buffers, and the unlisted record when the page has no linked-data text |
| NyboligHtml.ScanSnoc | packages/api/src/nyboligHtmlScraper.ts:110 | one more callback is one more step |
| NyboligHtml.StepCollects | packages/api/src/nyboligHtmlScraper.ts:11-41 | an image callback records its image only when its `src` is truthy, the title callback appends its text, other callbacks leave these alone |
| NyboligHtml.ScanImages | packages/api/src/nyboligHtmlScraper.ts:9-33 | the photo and floor-plan lists hold exactly their images with a non-empty `src`, in document order, kept apart |
| NyboligHtml.ScanTitle | packages/api/src/nyboligHtmlScraper.ts:35-41 | the title is the concatenation of the title element's text chunks |
| NyboligHtml.ScanFour | packages/api/src/nyboligHtmlScraper.ts:110 | four callbacks are four steps |
| NyboligHtml.FactRowWrites | packages/api/src/nyboligHtmlScraper.ts:77-98 | a case-facts row writes its value under its title and leaves every other title alone |
| NyboligHtml.ScanAppend | packages/api/src/nyboligHtmlScraper.ts:110 | scanning two runs of callbacks is scanning the first and then the second |
| NyboligHtml.LaterFactWins | packages/api/src/nyboligHtmlScraper.ts:92-97 | of two rows with the same title the later value wins |
| NyboligHtml.RatingClass | packages/api/src/nyboligHtmlScraper.ts:100-108 | the energy class is the class attribute with the rating prefix removed; an element without a class changes nothing |
| NyboligHtml.Rewriter.constructor | packages/api/src/nyboligHtmlScraper.ts:9-75 | the accumulators start empty |
| NyboligHtml.Rewriter.OnPhoto | packages/api/src/nyboligHtmlScraper.ts:11-20 | the photo handler does exactly one step of the callback model |
| NyboligHtml.Rewriter.OnPlan | packages/api/src/nyboligHtmlScraper.ts:24-33 | the floor-plan handler does exactly one step of the callback model |
| NyboligHtml.Rewriter.OnFactValue | packages/api/src/nyboligHtmlScraper.ts:92-97 | the fact-value handler does exactly one step of the callback model |
| NyboligHtml.Rewriter.OnRating | packages/api/src/nyboligHtmlScraper.ts:101-108 | the energy-label handler does exactly one step of the callback model |
| NyboligHtml.Rewriter.On | packages/api/src/nyboligHtmlScraper.ts:11-108 | each callback does exactly one step of the callback model |
| NyboligHtml.Rewriter.Transform | packages/api/src/nyboligHtmlScraper.ts:110 | the accumulators after the page are those of the callbacks applied in document order |
| NyboligHtml.Area | packages/api/src/nyboligHtmlScraper.ts:132 | an area is the value of the digits of the fact's first space-separated token, 0 when the fact is absent |
| NyboligHtml.Numbers | packages/api/src/nyboligHtmlScraper.ts:117 | `map(Number)` converts each part in place |
| NyboligHtml.SumNaN | packages/api/src/nyboligHtmlScraper.ts:118 | the sum is NaN exactly when some value is |
| NyboligHtml.Year | packages/api/src/nyboligHtmlScraper.ts:135-136 | a year is null exactly when its part is absent or empty |
| NyboligHtml.Price | packages/api/src/nyboligHtmlScraper.ts:131 | the price is the value of the price text's digits, 0 when there are none |
| NyboligHtml.Result | packages/api/src/nyboligHtmlScraper.ts:125-139 | the page gives no status |
| NyboligHtml.ResultNumbers | packages/api/src/nyboligHtmlScraper.ts:112-137 | price and both areas are never NaN; an absent floor-area fact gives 0, an absent rooms fact 0 rooms and 0 bedrooms |
| NyboligHtml.SumOfNumbersNaN | packages/api/src/nyboligHtmlScraper.ts:114-118 | the room sum is NaN exactly when some part is not a number |
| NyboligHtml.SumOfTwo | packages/api/src/nyboligHtmlScraper.ts:118 | the sum of two numbers starts from 0 and adds each |
| NyboligHtml.RoomsOfFact | packages/api/src/nyboligHtmlScraper.ts:113-118 | a fact "a/b" of digits gives a + b rooms and b bedrooms |
| NyboligHtml.SplitTwo | packages/api/src/nyboligHtmlScraper.ts:113-116 | a fact of two parts without '/' splits into those two parts |
| NyboligHtml.FactOfTwo | packages/api/src/nyboligHtmlScraper.ts:113-118 | a fact "x/y" gives `0 + x + y` rooms and `y` bedrooms, as JavaScript numbers |
| NyboligHtml.YearsOfFact | packages/api/src/nyboligHtmlScraper.ts:120-121 | the year built is the first '/'-part and the year renovated the second, absent when there is none |
| NyboligHtml.ScrapeListing | packages/api/src/nyboligHtmlScraper.ts:4-140 | the scraper returns the record of the page's accumulators, with exactly the images having a `src`, in order, and the title's chunks concatenated |
| Pipeline.NyboligListingsAreNeverRefreshed | packages/api/src/index.ts:504 | a promoted nybolig.dk listing has a NULL status, and the refresh never selects it |
| Pipeline.HomeListingsAreRefreshedUntilUnlisted | packages/api/src/index.ts:796-819 | an unlisted home.dk page gives a listing exactly when the staged record has `stats`, `offer` and `offer.price`; that listing is stored as unlisted and never refreshed; a listed page's listing can be refreshed |

## Left out

- HTTP serving: Hono routing, CORS, bearer authentication and `serve` are request plumbing; each handler is modelled as the function and method of one call.
- Network clients: every `fetch`/`ofetch` call to nybolig.dk, home.dk and the address services is a parameter or a list of answers. A failed request is `FetchFailed` in a crawl and `None` in a handler, where it becomes the 500 answer with nothing written; a malformed answer appears only as its fields being undefined.
- Order of rows: the staged-row lookup, the eligible-row query and the oldest-listing query (ties on `updatedAt`) leave the choice among several matching rows to the database. The model takes the first in id order, so which row a call picks is a modelling choice, not a promise of the code.
- Status enum order: the declaration of `listingStatusEnum` is not part of this model. The order active, reserved, sold, unlisted is an assumption, and the third finding holds only under it (HomeHtml.StatusOrderDecides).
- HTML and payload parsing: HTMLRewriter, `devalue` and `destr` are outside libraries; the model starts from the callbacks they make and the decoded `case-<id>` entry (`decode`).
- `ohash`: the digest is an uninterpreted function, and equal digests are taken to mean an unchanged record, as the code does.
- Pauses: `setTimeout` pauses appear only as entries of the crawl log, with their length.
- Concurrency within one page: `Promise.all` runs the lookups of one page concurrently; the model runs them in page order against the table as each update leaves it.
- Concurrency between calls: each handler call is modelled as its reads followed by one atomic write (`Interleaving`); statement-level interleavings inside a transaction are not modelled.
- The refresh re-check reads through `db` rather than through `tx`: the model treats the re-check and the update as one atomic step, which is the intended reading.
- Clock: `new Date()` is a parameter; different calls may pass any times.
- Numbers: `Number()` is modelled over decimal digit strings with surrounding white space. Any other non-empty text (a sign, a decimal point, exponent notation) is NaN, and floating point is not modelled.
- Lower-casing: `toLocaleLowerCase('da-DK')` is modelled for ASCII and the Latin-1 capitals only.
- Columns the inserts leave out: they are taken as NULL, and both timestamps as the insert's time, because the schema file does not declare them.
- Unused outputs: `nuxtData`, `pageTitle`, the nybolig.dk `description` `<br>` handler and the `type`/`price` text accumulators are captured as the code captures them, but only what the handlers read is derived from them.
- Console logging, including the duplicate-key message, is left out.
- The read-only query endpoints (`/listings`, `/listings/map`, `/search`, the single-listing route, `/listing-types`, both `scrape-listing` routes) and all of `packages/www` are not part of this model.
- Configuration files (`drizzle.config.ts`, `dbml.ts`, `lib/utils.ts`) are not part of this model.
- NyboligHtml.Result: its own contract states only that the page gives no status; the numbers are stated in NyboligHtml.ResultNumbers and the images and title in NyboligHtml.ScrapeListing.

## Findings

| source | as written | input that shows it | evidently intended | confidence | as-written member | corrected member |
|---|---|---|---|---|---|---|
| packages/api/src/index.ts:408 | `cleanedAddressResult?.resultater?.[0].adresse` reads `.adresse` of the first result without `?.` | a washing answer whose `resultater` list is empty: the expression throws, the handler fails with a server error, and the record stays eligible, so a later call can select it again | an empty result list means that no valid address was found, so the record is rejected | high, not executed | Promotion.EmptyWashIsServerError | Promotion.Wash |
| packages/api/src/index.ts:413-419 | the rejection write runs outside any transaction and does not re-check `listingId` | three calls select the same unprocessed row before any of them writes. The first finds the address valid and commits a listing. The second gets a washing answer without a valid address (the service answered differently, or a crawl changed the staged json in between) and sets `listingId` back to NULL. The third call's transaction re-checks `listingId`, finds NULL and commits a second listing for the same record | the rejection is guarded like the promotion (only a row without a listing is marked), so a record is promoted at most once | medium, not executed | Interleaving.BlindRejectReopens | Interleaving.AtMostOncePromotion |
| packages/api/src/homeHtmlScraper.ts:123-127 | `isUnderSale` gives `enumValues[2]` and `isSold` gives `enumValues[1]` | a sold home (`isUnderSale` false, `isSold` true) is stored as reserved, and a reserved one as sold | reserved for a sale agreed, sold for a completed one | low to medium, not executed; depends on the order of `listingStatusEnum`'s values, whose declaration is not part of this model (see HomeHtml.StatusOrderDecides) | HomeHtml.StatusAsWrittenSwaps | HomeHtml.Status |
