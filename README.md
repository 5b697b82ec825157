# film-books-mcp core, modelled in Dafny

This project models the core of film-books-mcp, an MCP server that searches
several book, film and scholarly catalogues (Google Books, Open Library,
LIBRIS, OpenAlex, Crossref, OMDb, TMDb). The core has three parts:

- **The fetch layer (`src/http.ts`)**, which contains:
  - the sliding-window rate limiter `SimpleRateLimit`;
  - the per-host registry `getRateLimiter` over a fixed table of limits;
  - the TTL response cache `SimpleCache`;
  - the retry classifier `isRetryableError`;
  - `httpGet`, which builds the URL from the query, reads the cache when the headers allow it, waits for the rate limiter, and tries the request up to `retries + 1` times with exponential backoff;
  - the `httpGetWithRetry` default.
- **The record-linkage engine (`src/utils/deduplication.ts`)**, which contains:
  - text normalisation;
  - per-source field extraction;
  - the dynamic-programming Levenshtein distance;
  - string and record similarity;
  - greedy seed-relative clustering;
  - election of a canonical record by source priority;
  - the per-result count metadata of `deduplicateBookResults`.
- **The response summarisers (`src/utils/formatters.ts`)**, which contain:
  - abstract reconstruction from an inverted index;
  - the OpenAlex and Crossref work summaries;
  - the envelope formatters;
  - the numbered text listing of `formatSearchResults`.

Each source file keeps its form in the model.
- Objects whose fields change become classes with `modifies` clauses: `RateLimiting.RateLimit`, `RateLimiting.RateLimiters` and `ResponseCache.Cache`.
- Loops become methods with invariants. Each method is proved equal to a specification function:
  - the Levenshtein matrix fill over an `array2<int>`;
  - the extraction, placement and metadata passes of `deduplicateBookResults`;
  - the clustering scan;
  - the attempt loop;
  - the query loop;
  - the cache sweep;
  - the abstract word collection;
  - the listing loop.
- Expression-only code becomes functions and lemmas.

The clock, the network and the serialised response size are inputs:
- `now` is the time of the cache lookup and the rate-limit check;
- `storedAt` is the time a response is written to the cache;
- `outcome(k)` is what attempt `k` observes;
- `size` is `JSON.stringify(result).length`.

Waits are returned as values, not performed.

Files, one module each:

| file | module | models |
|---|---|---|
| wrappers.dfy | `Wrappers` | `Option` |
| strings.dfy | `Strings` | the JavaScript string primitives the core uses (`\s`, `\w`, case mapping, `trim`, `includes`, `join`, `substring`, `String(n)`) |
| rate_limit.dfy | `RateLimiting` | `SimpleRateLimit`, `getRateLimiter` |
| cache.dfy | `ResponseCache` | `SimpleCache` |
| fetch.dfy | `Fetch` | `isRetryableError`, `httpGet`, `httpGetWithRetry` |
| normalize.dfy | `TextNormalization` | `normalizeTitle`, `normalizeAuthor` |
| book_records.dfy | `BookRecords` | `extractBookInfo` |
| edit_distance.dfy | `EditDistance` | `levenshteinDistance` |
| similarity.dfy | `Similarity` | `calculateStringSimilarity`, `calculateSimilarity` |
| sorting.dfy | `StableSort` | the stable `Array.prototype.sort` with a numeric comparator |
| clustering.dfy | `Clustering` | the grouping loop and the canonical choice of `deduplicateBookResults` |
| dedup.dfy | `Deduplication` | `deduplicateBookResults` |
| formatters.dfy | `Formatters` | `reconstructAbstract`, the summaries, the envelope formatters, `formatSearchResults` |

Some behaviours of the code are easy to misread. The model follows the code:
- ISBNs are compared exactly as the provider sent them. No hyphens or blanks are stripped.
- A successful response is written to the cache whatever the request headers are. Only the cache read is gated by the headers.
- The rate limiter records the time taken before its wait. Right after an admission the window can therefore hold `maxRequests + 1` timestamps, not at most `maxRequests` (`RateLimiting.WindowBound`).
- Query parameters are set one by one in `Object.entries` order, and the model takes the query as that list of entries. A name already in the base URL keeps its place there, because `searchParams.set` replaces it in place (`Fetch.SetParam`). The parameters are not sorted.
- A record scored against itself gives 0.95 with an ISBN, 1.0 with authors and no ISBN, and 0.7 with neither. It does not give 1.0 in every case (`Similarity.ScoreSelf`).

## Model

| member | source | states |
|---|---|---|
| `Strings.TrimSlice` | src/utils/deduplication.ts:9-15 | `trim` returns a contiguous piece of the input. Only white space is cut off on either side, and none is left at either end. |
| `Strings.ToLower` | src/utils/deduplication.ts:11 | Lower-casing keeps the length and maps each character on its own. Afterwards no ASCII capital remains, and word characters and white space stay what they were. |
| `Strings.Includes` | src/http.ts:102 | `includes(sub)` is true exactly when `sub` occurs at some offset of the string. |
| `Strings.Abbreviate` | src/utils/formatters.ts:125-127 | Text of at most `n` characters is unchanged. Longer text becomes its first `n` characters followed by `...`, so the result never exceeds `n + 3` characters. |
| `Strings.Prefix` | src/http.ts:163 | `substring(0, n)` is a prefix of the string, of length `min(n, length)`. |
| `Strings.NatToStringRoundTrip` | src/utils/formatters.ts:205 | Reading back the decimal digits that `String(n)` writes gives `n` again. |
| `TextNormalization.StripPunctuation` | src/utils/deduplication.ts:12 | Deleting `[^\w\s]` keeps exactly the ASCII word characters and the white space, in order. A single character survives exactly when it is one of those, and a string made only of those is unchanged. |
| `TextNormalization.StripPunctuationAppend` | src/utils/deduplication.ts:12 | The deletion works character by character: stripping `a + b` gives the stripped `a` followed by the stripped `b`. |
| `TextNormalization.CollapseSpacesShape` | src/utils/deduplication.ts:13 | After `replace(/\s+/g, ' ')`, every white-space character is a blank, no two blanks are adjacent, and every other character comes from the input. |
| `TextNormalization.CollapseSpacesUnits` | src/utils/deduplication.ts:13 | A single non-space character is left alone, and a non-empty run made only of white space becomes one blank. |
| `TextNormalization.CollapseSpacesSplit` | src/utils/deduplication.ts:13 | Cutting the text where no run of white space is split, collapsing the two pieces and joining them gives the collapse of the whole. |
| `TextNormalization.CollapseSpacesNoop` | src/utils/deduplication.ts:13 | Collapsing white space leaves alone a string whose only spaces are single blanks. |
| `TextNormalization.Normalize` | src/utils/deduplication.ts:9-23 | Normalised text holds only lower-case ASCII letters, digits, `_` and single blanks between words. It has no blank at either end, and it is never longer than the input. |
| `TextNormalization.NormalizeFixesNormal` | src/utils/deduplication.ts:9-23 | Normalisation leaves text that is already in normal form unchanged. |
| `TextNormalization.NormalizeIdempotent` | src/utils/deduplication.ts:9-23 | `normalizeTitle` and `normalizeAuthor` are idempotent. |
| `BookRecords.FirstIsbnIndex` | src/utils/deduplication.ts:36-38 | `find` returns the first identifier of type ISBN_13 or ISBN_10. No earlier identifier has either type. |
| `BookRecords.ExtractBookInfo` | src/utils/deduplication.ts:25-70 | Returns null for an unknown source, and null exactly when the raw title is empty. Otherwise it returns the normalised title, every author normalised in order, and the ISBN passed through untouched. |
| `BookRecords.GoogleIsbnIsFirstMatch` | src/utils/deduplication.ts:32-40 | For a Google Books volume with a title, the ISBN is the identifier of the first ISBN_13/ISBN_10 entry. |
| `EditDistance.Min3` | src/utils/deduplication.ts:125-129 | `Math.min` of three values is one of them and no larger than any of them. |
| `EditDistance.LevenshteinDistance` | src/utils/deduplication.ts:109-135 | The matrix algorithm returns the recursive edit distance of the two strings. |
| `EditDistance.FillRow` | src/utils/deduplication.ts:121-131 | Filling row `i` from row `i - 1` makes every cell of row `i` the edit distance of the two prefixes. All other rows are left unchanged. |
| `EditDistance.DistanceStep` | src/utils/deduplication.ts:122-130 | The matrix recurrence holds for the recursive edit distance. Equal characters copy the diagonal; otherwise the value is one plus the least of the three neighbours. |
| `EditDistance.DistanceZeroIffEqual` | src/utils/deduplication.ts:109-135 | The distance is 0 exactly when the strings are equal. |
| `EditDistance.DistanceSymmetric` | src/utils/deduplication.ts:109-135 | The distance is symmetric. |
| `EditDistance.DistanceBounds` | src/utils/deduplication.ts:109-135 | The distance lies between the difference of the lengths and the larger length. |
| `Similarity.StringSimilarity` | src/utils/deduplication.ts:99-107 | String similarity is in [0, 1]. It is 1 exactly when the strings are equal, two empty strings included. |
| `Similarity.StringSimilaritySymmetric` | src/utils/deduplication.ts:99-107 | String similarity is symmetric. When the lengths are equal, line 100 picks `str2` as the longer string, so swapping the arguments swaps the strings given to the distance. The result is still the same, because the edit distance is symmetric (`EditDistance.DistanceSymmetric`). |
| `Similarity.CommonAuthors` | src/utils/deduplication.ts:89-91 | The kept authors are exactly those of the first list that have a counterpart with similarity above 0.8 in the second list. A one-author list is kept exactly when its author has such a counterpart. |
| `Similarity.CommonAuthorsAppend` | src/utils/deduplication.ts:89-91 | `filter` keeps the order: the authors kept from `a + b` are those kept from `a` followed by those kept from `b`. |
| `Similarity.AuthorSimilarity` | src/utils/deduplication.ts:86-94 | Author similarity is in [0, 1], and 0 when either list is empty. |
| `Similarity.AuthorSimilaritySelf` | src/utils/deduplication.ts:86-94 | A non-empty author list compared with itself gives 1. |
| `Similarity.CommonAuthorsAll` | src/utils/deduplication.ts:89-91 | When every author has a close counterpart, the filter keeps the whole list. |
| `Similarity.Score` | src/utils/deduplication.ts:72-97 | The record score is in [0, 1]. It is 0 when either record is missing, exactly 0.95 on a match of non-empty raw ISBNs, and otherwise 0.7 × title similarity + 0.3 × author similarity. |
| `Similarity.ScoreSelf` | src/utils/deduplication.ts:72-97 | A record scored against itself gives 0.95 with an ISBN, 1.0 with authors and no ISBN, and 0.7 with neither. |
| `Similarity.IsbnMatchScore` | src/utils/deduplication.ts:78-80 | Two records with the same non-empty ISBN score 0.95, whatever their titles and authors. |
| `StableSort.Insert` | src/utils/deduplication.ts:213 | Insertion adds exactly one element and keeps every other element. |
| `StableSort.InsertSorted` | src/utils/deduplication.ts:213 | Inserting into a sorted sequence keeps it sorted. |
| `StableSort.SortBy` | src/utils/formatters.ts:69 | The sort returns a permutation of its input, ordered by key. |
| `StableSort.SortByStable` | src/utils/formatters.ts:69 | The sort is stable: elements with equal keys keep their original order. |
| `StableSort.FirstMinIndex` | src/utils/deduplication.ts:213 | Finds the first position holding the smallest key. |
| `StableSort.SortByHead` | src/utils/deduplication.ts:213 | Element 0 after the stable sort is the first element with the smallest key. |
| `Clustering.MembersSpec` | src/utils/deduplication.ts:192-200 | The inner scan takes exactly the later unused records that reach the threshold against the seed, in increasing index order. |
| `Clustering.MembersFrame` | src/utils/deduplication.ts:192-200 | The inner scan depends on the used set only from its start position on. |
| `Clustering.ClustersFromCover` | src/utils/deduplication.ts:186-203 | The groups formed from position `i` on hold every unused record at or after `i`, each exactly once. |
| `Clustering.ScanStep` | src/utils/deduplication.ts:192-200 | One step of the inner scan adds record `j` to the group and to the used set exactly when it is unused and reaches the threshold. The collected group followed by the rest of the scan stays the whole scan. |
| `Clustering.ClustersFromGreedy` | src/utils/deduplication.ts:186-203 | Each group formed from position `i` on is well formed. Its seed is the lowest index not yet taken, and it takes every later free record that reaches the threshold against its seed. |
| `Clustering.ClustersPartition` | src/utils/deduplication.ts:183-203 | The groups partition the extracted records: every record is in exactly one group. |
| `Clustering.ClustersAreGreedy` | src/utils/deduplication.ts:183-203 | Every group is non-empty and increasing. Its seed is the lowest record not in an earlier group, and every member reaches the threshold against the seed. Every later free record that reaches the threshold is in the group. |
| `Clustering.GroupIsWellFormed` | src/utils/deduplication.ts:189-200 | A seed followed by the members of its scan forms a well-formed group. |
| `Clustering.ScanFrom` | src/utils/deduplication.ts:189-200 | The inner loop returns the seed followed by the scanned members, and the used set grows by exactly the group. |
| `Clustering.GroupBooks` | src/utils/deduplication.ts:183-203 | The grouping loops return exactly the greedy clusters. |
| `Clustering.Priority` | src/utils/deduplication.ts:208-213 | The ranking is Google Books 3, Open Library 2 and LIBRIS 1, each exactly for its source. Every other source gets 0, and no priority lies outside 0 to 3. |
| `Clustering.Canonical` | src/utils/deduplication.ts:207-213 | The record chosen for a group is one of the group's own records, and no member of the group has a higher source priority. |
| `Clustering.CanonicalIsFirstHighest` | src/utils/deduplication.ts:207-213 | The canonical record has the highest priority in its group, and it is the first member with that priority. |
| `Deduplication.BookFor` | src/utils/deduplication.ts:164-173 | An item yields at most one record. That record carries the item, the source and the output index, and only a known source yields one. |
| `Deduplication.BookForAccepts` | src/utils/deduplication.ts:165-172 | An item yields a record exactly when `extractBookInfo` accepts it. The record holds the extracted book, the item, the source and the output index. |
| `Deduplication.BooksOf` | src/utils/deduplication.ts:164-174 | The records of one result come from its own items, source and output index. A single item yields exactly its own record, if any. |
| `Deduplication.BooksOfAppend` | src/utils/deduplication.ts:164-174 | The item loop keeps the order: the records of `a + b` are those of `a` followed by those of `b`. |
| `Deduplication.BooksOfComplete` | src/utils/deduplication.ts:164-174 | Every item that `extractBookInfo` accepts contributes its record. |
| `Deduplication.Extracted` | src/utils/deduplication.ts:147-180 | Every extracted record points to an entry of the output that is not passed through. That entry has the record's source, and the record's item comes from the entry's own list. |
| `Deduplication.ExtractedOrdered` | src/utils/deduplication.ts:147-180 | The extracted records come in the order of the output entries they point to. |
| `Deduplication.ExtractedComplete` | src/utils/deduplication.ts:147-174 | Every accepted item of every entry that is not passed through yields its record among the extracted ones. |
| `Deduplication.Skeleton` | src/utils/deduplication.ts:147-180 | The first pass keeps the length. It copies pass-through entries (an error or no results) and empties the lists of every other entry. |
| `Deduplication.ExtractItems` | src/utils/deduplication.ts:164-174 | The item loop collects exactly the records `extractBookInfo` accepts. |
| `Deduplication.ExtractAll` | src/utils/deduplication.ts:147-180 | The first loop builds the emptied output and the extracted records. |
| `Deduplication.Groups` | src/utils/deduplication.ts:183-203 | The groups index only extracted records and none is empty. |
| `Deduplication.Placed` | src/utils/deduplication.ts:206-229 | Placing the canonical records keeps the output's length. |
| `Deduplication.PlaceAll` | src/utils/deduplication.ts:206-229 | The placement loop appends each group's canonical record to its own entry's list. |
| `Deduplication.AnnotateAll` | src/utils/deduplication.ts:232-243 | The metadata loop annotates every entry. |
| `Deduplication.OriginalCount` | src/utils/deduplication.ts:234 | The original count is `unknown` exactly when `totalItems`, `numFound` and `total_found` are all missing or zero. Otherwise it is the first non-zero one of them, and a non-zero `totalItems` always wins. |
| `Deduplication.WithMetadata` | src/utils/deduplication.ts:232-243 | An entry with an error or without results is unchanged. Any other entry changes only its `deduplication` field. That field holds the original count, the kept count and their difference, or `unknown` when there is no original count. |
| `Deduplication.DeduplicateBookResults` | src/utils/deduplication.ts:137-246 | The three passes compute the deduplicated results. |
| `Deduplication.Deduplicated` | src/utils/deduplication.ts:137-246 | The output has one entry per input entry, in input order. |
| `Deduplication.PlacedUntargeted` | src/utils/deduplication.ts:216-228 | An entry that no record points to is not changed by placement. |
| `Deduplication.PlacedEntry` | src/utils/deduplication.ts:215-228 | After placement each entry's `items`, `docs` and `list` hold the canonical items of the groups aimed at it, in group order. |
| `Deduplication.KeptForEmpty` | src/utils/deduplication.ts:219-228 | A list receives nothing when no record of that source points to the entry. |
| `Deduplication.PlacedTotal` | src/utils/deduplication.ts:206-229 | Each group adds exactly one item in all. |
| `Deduplication.SkeletonTotal` | src/utils/deduplication.ts:176-179 | The emptied output holds no items. |
| `Deduplication.MetadataTotal` | src/utils/deduplication.ts:232-243 | The metadata pass does not change any list. |
| `Deduplication.KeptForWithin` | src/utils/deduplication.ts:219-228 | The items placed in an entry come from the pool of its own records. |
| `Deduplication.DeduplicatedPassThrough` | src/utils/deduplication.ts:148-151 | An entry with an error or without results is returned unchanged. |
| `Deduplication.DeduplicatedEntry` | src/utils/deduplication.ts:137-246 | Any other entry has its three lists replaced by the canonical items aimed at it, and its metadata filled in. |
| `Deduplication.FilledMetadata` | src/utils/deduplication.ts:232-242 | `deduplicated_count` is the sum of the list lengths. `original_count` is the first non-zero of `totalItems`, `numFound` and `total_found`, else `unknown`. `removed_duplicates` is their difference when the original count is a number, else `unknown`. |
| `Deduplication.KeptFromOwnList` | src/utils/deduplication.ts:219-228 | Kept items come from the entry's own item list, and only the list of the entry's own source receives any. |
| `Deduplication.DeduplicatedTotal` | src/utils/deduplication.ts:205-243 | Across the output, the kept items number exactly the groups: one canonical item per cluster. |
| `RateLimiting.InWindow` | src/http.ts:23 | The filter keeps exactly the timestamps `t` with `now - t < windowMs`, in order. A single timestamp is kept exactly when it is that recent. |
| `RateLimiting.InWindowAppend` | src/http.ts:23 | `filter` keeps the order: the timestamps kept from `a + b` are those kept from `a` followed by those kept from `b`. |
| `RateLimiting.SeqMin` | src/http.ts:26 | `Math.min` returns an element that is no larger than any element. |
| `RateLimiting.Delay` | src/http.ts:25-31 | The wait is never negative. A positive wait happens only with at least `maxRequests` timestamps in the window, and it ends exactly `windowMs` after the oldest one. |
| `RateLimiting.RateLimit.constructor` | src/http.ts:12-18 | A new limiter has its limits and no requests. |
| `RateLimiting.RateLimit.CheckLimit` | src/http.ts:20-34 | `checkLimit` waits the delay computed on the filtered window and never fails. Its requests become the filtered timestamps followed by `now`. |
| `RateLimiting.InWindowDrops` | src/http.ts:23 | A timestamp a full window old is dropped. |
| `RateLimiting.FullWindowWaits` | src/http.ts:25-30 | A full window of recent timestamps forces a positive wait. |
| `RateLimiting.WindowBound` | src/http.ts:20-34 | With at most `maxRequests` recent timestamps, the window after the wait holds at most `maxRequests`. Right after the admission it holds up to `maxRequests + 1`. |
| `RateLimiting.LimitFor` | src/http.ts:80-91 | A host has a limit exactly when it is one of the six listed hosts: `api.crossref.org`, `www.googleapis.com`, `api.openalex.org`, `www.omdbapi.com`, `api.themoviedb.org` and `libris.kb.se`. Every limit allows 40 to 1000 requests over a 60000 ms window. |
| `RateLimiting.RateLimiters.constructor` | src/http.ts:74 | The registry starts empty. |
| `RateLimiting.RateLimiters.Get` | src/http.ts:76-98 | An unlisted host gets no limiter and the registry is unchanged. A listed host gets the stored limiter, or a fresh one with the table's limits that is stored for later calls. Distinct hosts never share a limiter object. |
| `ResponseCache.Lookup` | src/http.ts:43-50 | `get` returns the data exactly when the key is present and not older than the TTL. |
| `ResponseCache.AfterGet` | src/http.ts:43-48 | A miss deletes the key and a hit changes nothing. |
| `ResponseCache.Sweep` | src/http.ts:60-67 | The sweep keeps exactly the unexpired entries, unchanged. |
| `ResponseCache.Store` | src/http.ts:52-67 | `set` stores the data with the current time. With more than 1000 entries it sweeps. The new key then survives exactly when the sweep runs with a non-negative TTL or does not run. Every other key survives exactly when there is no sweep or its entry has not expired, and it keeps its value. |
| `ResponseCache.Cache.constructor` | src/http.ts:38-41 | A new cache is empty and keeps its TTL. |
| `ResponseCache.Cache.Get` | src/http.ts:43-50 | The method returns the lookup result and leaves the map as `AfterGet` describes. |
| `ResponseCache.Cache.Set` | src/http.ts:52-58 | The method leaves the map as `Store` describes. |
| `ResponseCache.Cache.Cleanup` | src/http.ts:60-67 | The deletion loop leaves exactly the sweep of the map. |
| `ResponseCache.StoreThenLookup` | src/http.ts:43-58 | `set(k, v)` followed by `get(k)` at the same instant returns `v`. |
| `ResponseCache.StoreKeepsOthers` | src/http.ts:52-67 | Storing one key does not change what `get` returns for any other key at that instant. |
| `ResponseCache.SweepInvisible` | src/http.ts:60-67 | A sweep changes no later lookup. |
| `ResponseCache.AfterGetInvisible` | src/http.ts:43-48 | The deletion done by `get` changes no later lookup. |
| `Fetch.WithRetryDefaults` | src/http.ts:218-223 | `httpGetWithRetry` passes every option other than `retries` through unchanged. |
| `Fetch.WithRetryRetries` | src/http.ts:218-223 | `httpGetWithRetry` gives 3 retries without a `retries` key, 2 when the key holds `undefined`, and otherwise the given number. |
| `Fetch.QueryText` | src/http.ts:131 | A query value is dropped exactly when it is `undefined`, `null` or `''`. `0` and `false` are kept. |
| `Fetch.Named` | src/http.ts:131 | Picks the parameters with a given name. |
| `Fetch.Without` | src/http.ts:131 | Removing a name leaves the parameters of every other name unchanged. |
| `Fetch.SetParam` | src/http.ts:131 | `searchParams.set` leaves exactly one parameter with the name, holding the value, and leaves every other name unchanged. |
| `Fetch.ApplyQuerySet` | src/http.ts:130-132 | After the query loop, a name whose value is kept occurs once, with that value. |
| `Fetch.ApplyQueryUnset` | src/http.ts:130-132 | A name whose values are all dropped keeps the base URL's parameters. |
| `Fetch.ApplyQuery` | src/http.ts:130-132 | Every parameter after the query loop is either one of the base URL's parameters or a name set by the query to the text of its kept value. |
| `Fetch.BuildUrl` | src/http.ts:128-134 | The query loop gives the base URL with the query applied. |
| `Fetch.HttpError` | src/http.ts:163 | The error for a non-2xx response is a plain `Error` whose message starts with `HTTP ` and ends with at most 400 characters of the body. |
| `Fetch.HttpErrorRetry` | src/http.ts:100-117 | An HTTP error is retryable by status exactly for 408, 429, 500, 502, 503 and 504. Rethrown without a status, it is never retryable. |
| `Fetch.RetryableErrorCases` | src/http.ts:100-117 | A `TypeError` whose message mentions `fetch` is retryable, and so is every `AbortError`, whatever the status. A thrown value that is not an `Error` is retryable exactly when its status is listed. Any other named `Error`, and a `TypeError` that does not mention `fetch`, is retryable exactly when its status is listed. |
| `Fetch.RunAttempts` | src/http.ts:153-212 | The loop returns only on a successful attempt. It returns or throws at an attempt index no larger than `retries`, and runs out of attempts only when `retries` is negative. |
| `Fetch.Pow2` | src/http.ts:171 | `Math.pow(2, k)` is at least 1. |
| `Fetch.Backoff` | src/http.ts:171 | The `k`-th backoff wait is `retryDelayMs * 2^k`. |
| `Fetch.AttemptLoop` | src/http.ts:153-212 | The `for` loop ends as `RunAttempts` describes, after one backoff wait per retried attempt. |
| `Fetch.AttemptsBound` | src/http.ts:153 | At most `retries + 1` attempts are made. |
| `Fetch.NonRetryableStops` | src/http.ts:166-208 | A first attempt that fails in a way that cannot be retried throws its error at once. |
| `Fetch.NotFoundFailsOnce` | src/http.ts:161-175 | A 404 ends the loop after exactly one attempt, with the error thrown. |
| `Fetch.TransientThenSuccess` | src/http.ts:153-212 | Retryable failures followed by a success within the budget return that success at its attempt. |
| `Fetch.RetriesExhausted` | src/http.ts:166-208 | When every attempt fails in a retryable way, the last attempt's error is thrown. |
| `Fetch.Settle` | src/http.ts:214 | A loop that ran out of attempts rejects with the unknown-error message. |
| `Fetch.ToCache` | src/http.ts:185-189 | A body is cached exactly when the attempt succeeded and its serialisation is shorter than 100000 characters. The cached value is that body. |
| `Fetch.MayReadCache` | src/http.ts:137 | The cache is read exactly when there are no headers, or when the only header is a non-empty `User-Agent`. |
| `Fetch.ReadCache` | src/http.ts:136-142 | The lookup result and the cache after it are those of `get` when the headers allow a read. Otherwise nothing is returned and the cache is unchanged. |
| `Fetch.WaitForLimit` | src/http.ts:144-148 | An unlisted host waits 0 and leaves the registry unchanged. A listed host's limiter drops the timestamps outside its window and records `now`, and the wait is the delay on the filtered window. No other host's requests change. |
| `Fetch.FetchUncached` | src/http.ts:144-215 | After a miss the host's limit is applied as `WaitForLimit` states. The attempts run as `RunAttempts` states, with one backoff wait per retry. The result settles the loop, and only a small enough success is stored. No other host's requests change. |
| `Fetch.HttpGet` | src/http.ts:119-215 | The request is answered from the cache exactly when the headers allow a read and `get` returns a non-null value. A hit waits for nothing, runs no attempt, and changes neither the cache nor any limiter. On a miss the host's limiter is applied, and the attempts run with their backoff waits. The result settles the loop, and a small enough success is stored in the cache whatever the headers. Every other host's requests are unchanged. |
| `Formatters.Take` | src/utils/formatters.ts:77 | `slice(0, n)` keeps the first `min(n, length)` elements. |
| `Formatters.Pairs` | src/utils/formatters.ts:62-66 | A single entry gives one pair per position, in position order. |
| `Formatters.PairsMembers` | src/utils/formatters.ts:62-66 | The collected pairs are exactly the (word, position) pairs of the index: each comes from an entry, and every position of every entry gives one. |
| `Formatters.PairsAppend` | src/utils/formatters.ts:62-66 | The loops keep the entry order: the pairs of `a + b` are the pairs of `a` followed by those of `b`. A single entry gives one pair per position, in position order. |
| `Formatters.Ordered` | src/utils/formatters.ts:69 | The sorted pairs are a permutation of the collected pairs, in non-decreasing position order. |
| `Formatters.ReconstructAbstract` | src/utils/formatters.ts:59-74 | The loops and the sort produce the joined words, cut to 300 characters plus `...`, and never longer than 303. |
| `Formatters.AbstractWords` | src/utils/formatters.ts:59-74 | The abstract has one word per (word, position) pair of the index, in non-decreasing position order. Words at the same position keep the order in which the loops collected them, because the sort is stable. |
| `Formatters.AuthorsText` | src/utils/formatters.ts:78 | No names gives `Unknown authors`. Otherwise the names are joined by `, `, with ` et al.` exactly when there are more than three authorships. |
| `Formatters.NonEmpty` | src/utils/formatters.ts:77 | `filter(Boolean)` keeps exactly the non-empty names, in order. A single name is kept exactly when it is present and non-empty. |
| `Formatters.NonEmptyAppend` | src/utils/formatters.ts:77 | The filter keeps the order: the names kept from `a + b` are those kept from `a` followed by those kept from `b`. |
| `Formatters.AuthorNamesBounded` | src/utils/formatters.ts:77 | At most three names are listed, all non-empty, all from the first three authorships. |
| `Formatters.HighScoring` | src/utils/formatters.ts:85 | A single concept is kept exactly when its score is present and above 0.3. |
| `Formatters.HighScoringMembers` | src/utils/formatters.ts:85 | The kept concepts are exactly those scored above 0.3. |
| `Formatters.HighScoringAppend` | src/utils/formatters.ts:85 | The filter keeps the order: the concepts kept from `a + b` are those kept from `a` followed by those kept from `b`. |
| `Formatters.TopConcepts` | src/utils/formatters.ts:85 | Without concepts the list is empty. Otherwise it holds the names of the first three concepts scored above 0.3, in order: its length is the smaller of 3 and the number of such concepts. |
| `Formatters.SummarizeOpenAlexWork` | src/utils/formatters.ts:76-105 | The title falls back from `display_name` to `title` to `Untitled`, and the authors line follows the rules above. Citations default to 0. The work is open access if either flag says so. The abstract is the reconstructed one, and the concepts are the top concepts. `url` is the DOI link exactly when a DOI is present. Every other field passes through. |
| `Formatters.OpenAlexAbstract` | src/utils/formatters.ts:80-83 | With an inverted index the abstract is `reconstructAbstract`'s text: the words in position order, cut to 300 characters plus `...`. Without an index it is empty. It is never longer than 303 characters. |
| `Formatters.SummarizeOpenAlex` | src/utils/formatters.ts:76-105 | The summary built with the reconstruction loop. |
| `Formatters.CrossrefName` | src/utils/formatters.ts:108-109 | A trimmed author name has no white space at either end. |
| `Formatters.CrossrefNameTrimmed` | src/utils/formatters.ts:108-109 | The name is a contiguous piece of `given + " " + family` (a missing part counts as `''`). Only white space is cut off before and after it. |
| `Formatters.AuthorNames` | src/utils/formatters.ts:108-109 | The `map` gives one trimmed name per author, in author order. |
| `Formatters.TrimmedNames` | src/utils/formatters.ts:108-110 | A single author contributes its trimmed name exactly when that name is non-empty. |
| `Formatters.TrimmedNamesMembers` | src/utils/formatters.ts:108-110 | A name is kept exactly when it is non-empty and is the trimmed name of some author. |
| `Formatters.TrimmedNamesAppend` | src/utils/formatters.ts:108-110 | The filter keeps the author order: the names kept from `a + b` are those kept from `a` followed by those kept from `b`. |
| `Formatters.CrossrefNames` | src/utils/formatters.ts:108-110 | The authors line uses the filtered names of the first three authors, in order: at most three names. A name is listed exactly when it is non-empty and is the trimmed name of one of the first three authors. |
| `Formatters.CrossrefYear` | src/utils/formatters.ts:114-118 | The year is the first print date part if it is non-zero, else the first online date part if it is non-zero, else none. |
| `Formatters.FirstOfList` | src/utils/formatters.ts:120-121 | `list[0]` is present exactly for a non-empty list, and it is the list's first element. |
| `Formatters.SummarizeCrossrefWork` | src/utils/formatters.ts:107-143 | The title falls back to `Untitled`, and the authors line and year follow the rules above. Citations default to 0. The journal is the first container title. An abstract of at most 300 characters is kept whole, and a longer one becomes its first 300 characters plus `...`. The subjects are the first three, in order. `url` is the DOI link when a DOI exists, else `URL`. |
| `Formatters.FormatOpenAlexResponse` | src/utils/formatters.ts:145-166 | The response is summarised exactly when it has results and summary mode is on. Otherwise it is returned unchanged. When summarised, each work is summarised in order. `count` is the response's count or 0. `page` and `per_page` are the response's own when non-zero, else 1 and 25. The response time passes through. |
| `Formatters.FormatCrossrefResponse` | src/utils/formatters.ts:168-189 | The response is summarised exactly when its message has items and summary mode is on. Otherwise it is returned unchanged. When summarised, each item is summarised in order, and the status and the query are kept. `total_results` is the response's own or 0. `items_per_page` is the response's own when non-zero, else 20. |
| `Formatters.ItemBlockNumbered` | src/utils/formatters.ts:205 | Each item's block opens with its number followed by `. `. |
| `Formatters.ConcatSnoc` | src/utils/formatters.ts:204-215 | Appending one more block appends its text. |
| `Formatters.BlocksSnoc` | src/utils/formatters.ts:204-215 | The blocks of one more item are the earlier blocks followed by the new one. |
| `Formatters.SearchResultsText` | src/utils/formatters.ts:192-193 | A missing result gives `No results from <source>`. |
| `Formatters.SearchResultsShape` | src/utils/formatters.ts:195-237 | Every listing opens with the heading. A recognised listing continues with its `Found` line, and any other value with its JSON text. |
| `Formatters.AppendBlocks` | src/utils/formatters.ts:204-231 | The `forEach` loop appends the blocks of the first five items. |
| `Formatters.FormatSearchResults` | src/utils/formatters.ts:192-241 | The method produces the listing text. |
| `Formatters.ListingNumbers` | src/utils/formatters.ts:204-231 | A listing shows at most five items, numbered 1, 2, … in the order given. |

## Left out

- Real time, sleeps and timers are not modelled. `Date.now()` becomes the `now` and `storedAt` parameters, and the waits are returned as values instead of being slept. The `AbortController`/`setTimeout` timeout is not modelled: `timeoutMs` is carried but unused, and a timeout shows up only as an attempt outcome that throws an `AbortError`.
- The network and response parsing are not modelled. `fetch`, `res.text()`, `res.json()` and the content-type switch are replaced by the per-attempt oracle `outcome: nat -> Outcome`, whose bodies arrive already parsed. `JSON.stringify(result).length` arrives as the `size` of a success.
- URL parsing is not modelled. `new URL(baseUrl)` is replaced by a given `Url` (origin, host name, path, parameters). `Fetch.UrlString` joins the parts without percent-encoding, so it is a stand-in for `url.toString()`, not its exact text.
- Logging (`errorLog`) is left out.
- `Fetch.RunAttempts`: `retries` and `retryDelayMs` are integers. The source compares the attempt counter with any number, so a fractional `retries` such as 2.5 (three retries) is not represented.
- The `Promise.all` fan-out and the interleaving of concurrent requests that share the cache and the limiters are not modelled. Each `Fetch.HttpGet` call is one uninterrupted step.
- The character model is simplified. Strings are sequences of Unicode scalar values. JavaScript `length`, `substring` and `charAt` count UTF-16 code units, so for text outside the Basic Multilingual Plane the 300- and 400-character cuts and the edit distance count differently.
- `Strings.ToLower` and `Strings.ToUpper` map ASCII letters only. `\w` is ASCII-only, so any other letter is deleted by the normalisation whatever its case. The exceptions are letters whose lower case is ASCII, such as `İ` (U+0130) and the Kelvin sign (U+212A); for these `toLowerCase` yields an ASCII letter that survives, and the model deletes them.
- Floating point is not modelled. Scores and thresholds are exact `real`s.
- `Fetch.QueryText`: numeric query values are integers only (`QNumber(n: int)`, rendered by `Strings.IntToString`). `String(v)` for a fractional or exponent-form number, such as `2.5` or `1e21` (src/http.ts:131), is not represented.
- Duck-typed payloads become tagged values. Items are a datatype with one variant per provider shape plus `Unrecognised`, so the `try/catch` of `extractBookInfo`, which guards property access, has no counterpart. Counts that are present but not numbers are not represented.
- `Array.prototype.sort` is modelled on values. It is modelled as a stable insertion sort returning a new sequence (`StableSort.SortBy`), not as the in-place reordering of the group array or the word array.
- `Object.entries` key order is not modelled. The inverted index (src/utils/formatters.ts:62) and the query object (src/http.ts:130) are each taken as the list of entries in the order `Object.entries` yields them. The rule that puts integer-like keys first, in ascending numeric order, is not modelled. For example, `{q: 'x', '2': 'y'}` is walked as `2`, then `q`.
- `formatSearchResults` is only partly modelled:
  - the `JSON.stringify(results, null, 2)` text of its fallback is given as the `json` field of the input;
  - its `catch` branch is left out, because no step of the model can throw.
- `toUpperCase` in the listing heading is ASCII-only, as above.
- The default `similarityThreshold = 0.8` of `deduplicateBookResults` (src/utils/deduplication.ts:137) is not modelled. `Deduplication.DeduplicateBookResults` takes the threshold as an explicit parameter, as its only caller in the repository passes it.
- Crossref `title` and `container-title` are modelled as arrays only. The source also accepts a plain string there (`Array.isArray` at src/utils/formatters.ts:120-121); that case is not represented.
- `Deduplication.Deduplicated`: its own contract states only the length. What each entry becomes is stated by `Deduplication.DeduplicatedPassThrough`, `Deduplication.DeduplicatedEntry` and `Deduplication.DeduplicatedTotal`.
- Everything outside `src/http.ts`, `src/utils/deduplication.ts` and `src/utils/formatters.ts` is not part of this model: the provider clients, MCP tool and resource registration, the server, configuration and logging.
