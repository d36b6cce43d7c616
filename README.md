# Place reviews and place search, modelled in Dafny

This project models the server side of a place-review web application. It has two parts.

**Reviews.** Visitors leave a review of a place: an author name, a rating from 1 to 5, a text and a password. The password is stored only as a hash.
- The first review of a place creates the place from the details the client sends along.
- Each place keeps a review count and an average rating, rounded half-up to one decimal.
- Reviews can be read, checked against a password, rewritten and deleted.
- Create and delete recompute the place's review count and average from the reviews table; update recomputes only the average.

**Search.** A query is validated and forwarded to an external local-search provider.
- The provider's items become search results: tags are stripped from the text fields and the coordinates are scaled.
- The results are validated and wrapped.
- Transport failures and thrown error codes are mapped onto the search error table.

Modules:

| module | file | models |
|---|---|---|
| `Wrappers` | wrappers.dfy | `Option`, `Result` and `Outcome` |
| `Json` | json.dfy | the untyped request bodies and JavaScript truthiness |
| `ReviewErrors` | review_errors.dfy | the review error table |
| `ReviewSchema` | review_schema.dfy | the request and place-details validators |
| `Aggregate` | aggregate.dfy | sum, mean and the rounding of the average |
| `ReviewService` | review_service.dfy | the tables and the class `ReviewStore` with the five service operations |
| `ReviewScenario` | review_scenario.dfy | one place's review lifecycle, end to end through the store |
| `SearchErrors` | search_errors.dfy | the search error table |
| `NaverClient` | naver_client.dfy | the search adapter |
| `SearchSchema` | search_schema.dfy | the query and response validators, with ECMAScript `trim` |
| `SearchService` | search_service.dfy | `searchPlaces` |

Modelling choices:
- **Tables.** The database becomes two fields of `ReviewStore`.
  - `places` is a map from place id to row.
  - `reviews` is a sequence of rows in insertion order.
  - The methods reassign these fields as the source's queries change the tables.
- **Store failures.** Every database round trip of the source can fail. The record `StoreFaults` says which ones fail on a call, so every error branch of the source is reachable in the model.
- **Averages.** An average is kept as an integer number of tenths: 4.5 is 45.
  - The stored value is computed as (20·sum + n) div 2n.
  - It is proved equal to `Math.round(10 × mean)` on exact reals.
- **Password hashing.** bcrypt is the `Hasher` value: a hash function and a verify function.
- **Search provider.** The provider's HTTP call is a function parameter answering a request with a response or a failure.
- **Search client.** The service sees the search client as a function returning results or a thrown value.

## Model

| member | source | states |
|---|---|---|
| Json.Truthy | src/features/reviews/backend/service.ts:40 | a value passes `if (v)` exactly when it is not null, `false`, zero or the empty string |
| Json.StringField | src/features/reviews/backend/schema.ts:4-7 | a string is found exactly when the body is an object holding a string under the key, and it is that string |
| Json.NumberField | src/features/reviews/backend/schema.ts:8-10 | a number is found exactly when the body is an object holding a number under the key, and it is that number |
| ReviewErrors.EntryOf | src/features/reviews/backend/error.ts:4-40 | every error kind has an entry in the table, stored under its own code |
| ReviewErrors.CodesAreKeys | src/features/reviews/backend/error.ts:4-40 | each entry's code equals its key; the keys are exactly the seven kinds' codes; distinct kinds have distinct codes |
| ReviewErrors.InvalidDataIsBadRequest | src/features/reviews/backend/error.ts:5-9 | invalid review data answers 400 |
| ReviewErrors.NotFoundAndUnauthorized | src/features/reviews/backend/error.ts:10-39 | a missing place or review answers 404 and a wrong password 401 |
| ReviewErrors.ServerErrors | src/features/reviews/backend/error.ts:15-29 | create, hashing and place-update failures answer 500 |
| ReviewSchema.ParseCreateReviewRequest | src/features/reviews/backend/schema.ts:3-21 | a body is accepted exactly when it holds a string author of 1..50 characters, a number rating that is an integer from 1 to 5, content of 1..1000 and a password of 4..100; each accepted value is the body's own field |
| ReviewSchema.RequestRoundTrip | src/features/reviews/backend/schema.ts:3-21 | a request written as a body parses back to itself exactly when every field is within its bounds, and is refused otherwise |
| ReviewSchema.FractionalRatingRefused | src/features/reviews/backend/schema.ts:8-12 | a body whose rating is not a whole number is refused |
| ReviewSchema.ParsePlaceInfo | src/features/reviews/backend/schema.ts:23-29 | place details are accepted exactly when name, address and category are strings and latitude and longitude are numbers, and the values are taken from the body |
| ReviewSchema.PlaceInfoRoundTrip | src/features/reviews/backend/schema.ts:23-29 | place details written as a body parse back to themselves |
| Aggregate.RoundedMeanTenths | src/features/reviews/backend/service.ts:143-148 | the integer quotient equals `Math.round` (floor of x + 0.5) of ten times the exact mean |
| Aggregate.SumIsLeftFold | src/features/reviews/backend/service.ts:146 | the sum of the ratings is the last rating added to the sum of the others, as the left-to-right `reduce` accumulates it |
| Aggregate.AverageTenths | src/features/reviews/backend/service.ts:329-334 | the stored average is `Math.round` of ten times the mean when there are ratings, and 0 when there are none |
| Aggregate.SumBounds | src/features/reviews/backend/service.ts:146 | n ratings from 1 to 5 sum to between n and 5n |
| Aggregate.RoundedMeanInRange | src/features/reviews/backend/service.ts:143-148 | a non-empty list of valid ratings averages between 1.0 and 5.0 |
| Aggregate.ConstantMean | src/features/reviews/backend/service.ts:420-425 | n equal ratings r average exactly r |
| Aggregate.SumOfConstant | src/features/reviews/backend/service.ts:146 | n copies of r sum to n·r |
| ReviewService.RatingsOf | src/features/reviews/backend/service.ts:129-132 | the ratings read for a place are no more than the rows; the RatingsOf lemmas below state which ones they are |
| ReviewService.RatingsOfConcat | src/features/reviews/backend/service.ts:129-132 | the ratings of a place over two row lists are the ratings over each, concatenated |
| ReviewService.RatingsOfRemove | src/features/reviews/backend/service.ts:392-409 | deleting a row removes exactly its rating from its own place's ratings (those before it, then those after it) and leaves every other place's ratings unchanged |
| ReviewService.RatingsOfReplace | src/features/reviews/backend/service.ts:298-319 | rewriting a row within its place keeps every place's rating count and every other place's ratings |
| ReviewService.RatingsOfEmpty | src/features/reviews/backend/service.ts:419-425 | a place has no ratings exactly when no review refers to it |
| ReviewService.RatingsOfValid | src/features/reviews/backend/service.ts:129-132 | ratings read from valid rows are all from 1 to 5 |
| ReviewService.FindReview | src/features/reviews/backend/service.ts:283-295 | a found index holds a row with the id; nothing is found exactly when no row has the id |
| ReviewService.NewPlace | src/features/reviews/backend/service.ts:55-66 | a created place carries the id and the validated name, address, category and coordinates, with the count and average of no reviews |
| ReviewService.Aggregated | src/features/reviews/backend/service.ts:150-156 | a recomputed place keeps its id, name, address, category and coordinates; its count is the number of ratings; its average is 0 when there are none and otherwise `Math.round` of ten times the mean, which lies from 1.0 to 5.0 when the ratings are valid |
| ReviewService.EnsurePlace | src/features/reviews/backend/service.ts:31-93 | a stored place is reused if it is read; otherwise the place is created from truthy, valid details unless the insert fails, and else it is PLACE_NOT_FOUND; a failed read of a stored place ends in a refused duplicate insert |
| ReviewService.EnsurePlaceIdempotent | src/features/reviews/backend/service.ts:31-93 | finding or creating the place a second time changes nothing |
| ReviewService.ValidAfterNewPlace | src/features/reviews/backend/service.ts:55-68 | adding a new place keeps the tables well formed |
| ReviewService.ValidAfterInsert | src/features/reviews/backend/service.ts:108-118 | inserting a valid review with a fresh id for a stored place keeps the tables well formed |
| ReviewService.ValidAfterDelete | src/features/reviews/backend/service.ts:392-395 | deleting a review keeps the tables well formed |
| ReviewService.ValidAfterRewrite | src/features/reviews/backend/service.ts:298-305 | rewriting author, rating and content keeps the tables well formed |
| ReviewService.ValidAfterPlaceUpdate | src/features/reviews/backend/service.ts:150-156 | rewriting a place's aggregates keeps the tables well formed |
| ReviewService.ConsistentAverageInRange | src/features/reviews/backend/service.ts:419-425 | in consistent tables a place with no reviews has average 0 and any other place has an average from 1.0 to 5.0 |
| ReviewService.ConsistentAfterNewPlace | src/features/reviews/backend/service.ts:55-68 | a new place with count 0 and average 0 keeps every place's aggregates equal to those of its reviews |
| ReviewService.ConsistentAfterInsert | src/features/reviews/backend/service.ts:108-164 | inserting a review and recounting its place keeps every place's aggregates equal to those of its reviews |
| ReviewService.ConsistentAfterDelete | src/features/reviews/backend/service.ts:392-441 | deleting a review and recounting its place keeps every place's aggregates equal to those of its reviews |
| ReviewService.ConsistentAfterRewrite | src/features/reviews/backend/service.ts:298-349 | rewriting a review and recomputing only its place's average keeps every place's aggregates equal to those of its reviews |
| ReviewService.ReviewStore.CreateReview | src/features/reviews/backend/service.ts:11-185 | invalid data gives INVALID_REVIEW_DATA and a missing place PLACE_NOT_FOUND, both with nothing changed; on success the place's count is its number of reviews and its average is between 1.0 and 5.0; success preserves consistency |
| ReviewService.ReviewStore.InsertReview | src/features/reviews/backend/service.ts:95-177 | a hashing failure gives PASSWORD_HASH_ERROR and a failed insert REVIEW_CREATE_ERROR, both changing nothing; after an insert the row stays even when the recount fails with PLACE_UPDATE_ERROR; success appends the row holding the hash and recounts the place |
| ReviewService.ReviewStore.VerifyReviewPassword | src/features/reviews/backend/service.ts:188-225 | REVIEW_NOT_FOUND exactly when the read fails or no review has the id; success exactly when `verify` accepts the password against the stored hash; nothing changes |
| ReviewService.ReviewStore.GetReviewById | src/features/reviews/backend/service.ts:228-262 | the review is returned exactly when its row is read, with id, author, rating, content and place but not the hash; otherwise REVIEW_NOT_FOUND |
| ReviewService.ReviewStore.UpdateReview | src/features/reviews/backend/service.ts:265-295 | invalid data gives INVALID_REVIEW_DATA and an unreadable or missing review REVIEW_NOT_FOUND, both with nothing changed; otherwise the found row (whose id is the one asked for) is rewritten as `Rewritten` states; success preserves consistency |
| ReviewService.ReviewStore.RewriteReview | src/features/reviews/backend/service.ts:297-358 | the tables end as `Rewritten` states: a failed rewrite gives REVIEW_CREATE_ERROR with nothing changed; otherwise only author, rating and content of the row change; a failed recompute gives PLACE_UPDATE_ERROR with places unchanged; success rewrites only the place's average, from its ratings; consistency is preserved |
| ReviewService.RewrittenKeepsIdentity | src/features/reviews/backend/service.ts:298-341 | an update keeps the number of reviews, every review's id, place and password hash, and every place's review count |
| ReviewService.RewriteIgnoresPassword | src/features/reviews/backend/service.ts:298-341 | the rewrite's outcome and new tables are the same whatever password the request carries: the submitted password takes no part in it |
| ReviewService.ReviewStore.DeleteReview | src/features/reviews/backend/service.ts:369-387 | an unreadable or missing review gives REVIEW_NOT_FOUND with nothing changed; otherwise the found row is removed as `Removed` states; on success the place's count is its number of remaining reviews, a zero count has a zero average and any other an average from 1.0 to 5.0, and no row keeps the id; success preserves consistency |
| ReviewService.ReviewStore.RemoveReview | src/features/reviews/backend/service.ts:389-450 | the tables end as `Removed` states: a failed delete gives REVIEW_CREATE_ERROR with nothing changed; otherwise the row is gone; a failed recount gives PLACE_UPDATE_ERROR with places unchanged; success recounts the place from its remaining ratings; consistency is preserved |
| ReviewService.RemovedIdGone | src/features/reviews/backend/service.ts:392-395 | with unique ids, after a successful delete no row has the deleted id |
| ReviewScenario.Lifecycle | src/features/reviews/backend/service.ts:11-458 | A (5 stars, new place), then B (3 stars), then A deleted, then B re-rated to 1 give counts 1, 2, 1, 1 and averages 5.0, 4.0, 3.0, 1.0; B's own password then passes and a wrong one gives INVALID_PASSWORD |
| SearchErrors.EntryOf | src/features/search/backend/error.ts:4-35 | every search error kind has an entry in the table, stored under its own code |
| SearchErrors.KindOf | src/features/search/backend/service.ts:56-64 | a message names a kind exactly when it is a key of the table, and the kind's code is that message |
| SearchErrors.KindOfKey | src/features/search/backend/error.ts:4-35 | looking up a kind's own code finds that kind |
| SearchErrors.CodesAreKeys | src/features/search/backend/error.ts:4-35 | every entry's code equals its key |
| SearchErrors.QueryErrorsAreBadRequest | src/features/search/backend/error.ts:5-14 | a missing or invalid query answers 400 |
| SearchErrors.TimeoutIsGatewayTimeout | src/features/search/backend/error.ts:25-29 | a timeout answers 504 |
| SearchErrors.UpstreamErrorsAreServerErrors | src/features/search/backend/error.ts:15-34 | API, credential and response-shape failures answer 500 |
| NaverClient.StripHtmlTags | src/lib/external/naver-client.ts:63-65 | the output is never longer than the input |
| NaverClient.StripIsSubsequence | src/lib/external/naver-client.ts:63-65 | the kept characters are characters of the input in their original order |
| NaverClient.StripAddsNothing | src/lib/external/naver-client.ts:63-65 | a character absent from the input is absent from the output |
| NaverClient.StripKeepsPlainPrefix | src/lib/external/naver-client.ts:63-65 | text with no '<' in front of the rest is kept, and the rest is stripped as usual |
| NaverClient.StripTagAtFront | src/lib/external/naver-client.ts:63-65 | a tag at the very front is dropped whole, up to its first '>' |
| NaverClient.StripRemovesSpan | src/lib/external/naver-client.ts:63-65 | a tag (a '<', characters other than '>', then a '>') after text without '<' is removed, and the rest is stripped as usual |
| NaverClient.StripKeepsTagFree | src/lib/external/naver-client.ts:63-65 | text with no '<' followed later by a '>' is left unchanged |
| NaverClient.NoOpenBracketUnchanged | src/lib/external/naver-client.ts:63-65 | text with no '<' is left unchanged |
| NaverClient.StripLeavesNoTag | src/lib/external/naver-client.ts:63-65 | the output has no '<' followed later by a '>' |
| NaverClient.StripIdempotent | src/lib/external/naver-client.ts:63-65 | stripping twice is stripping once |
| NaverClient.Katech2Wgs84 | src/lib/external/naver-client.ts:7-18 | the longitude is x and the latitude y, each divided by ten million |
| NaverClient.CoordinatesRoundTrip | src/lib/external/naver-client.ts:7-18 | scaling the converted degrees back gives x and y again, and the other way round |
| NaverClient.ToSearchResult | src/lib/external/naver-client.ts:92-100 | name, address and category are the item's title, address and category with tags stripped, so they hold no tag; its coordinates scaled back by ten million give the item's mapx and mapy, and its link is the item's |
| NaverClient.MapItems | src/lib/external/naver-client.ts:91-101 | one result per item in the same order; title, address and category tag-stripped into name, address and category; coordinates converted; link copied |
| NaverClient.ClassifyError | src/lib/external/naver-client.ts:102-113 | an abort is a timeout whatever the status; otherwise a 400 answer is an invalid query; everything else is an API error |
| NaverClient.Search | src/lib/external/naver-client.ts:70-114 | the request fails exactly when the transport fails, with the classified code; a response without items gives no results; otherwise the results are the mapped items |
| SearchSchema.TrimStart | src/features/search/backend/schema.ts:7 | a suffix of the input with no leading white space, and every dropped character is white space |
| SearchSchema.TrimEnd | src/features/search/backend/schema.ts:7 | a prefix of the input with no trailing white space, and every dropped character is white space |
| SearchSchema.Trim | src/features/search/backend/schema.ts:7 | no white space at either end; empty exactly when the input is all white space |
| SearchSchema.TrimIsSlice | src/features/search/backend/schema.ts:7 | the trimmed text is a contiguous slice of the input, starting after the leading white space |
| SearchSchema.TrimDropsOnlyWhitespace | src/features/search/backend/schema.ts:7 | every character trimmed away, before the slice and after it, is white space |
| SearchSchema.TrimKeepsClean | src/features/search/backend/schema.ts:7 | text without white space at either end is its own trim |
| SearchSchema.TrimIdempotent | src/features/search/backend/schema.ts:7 | trimming twice is trimming once |
| SearchSchema.ParseQuery | src/features/search/backend/schema.ts:3-7 | a query is accepted exactly when its untrimmed length is 2 to 50, and the accepted value is its trim |
| SearchSchema.TrimmedQueryUnchanged | src/features/search/backend/schema.ts:3-7 | an already trimmed query is accepted exactly when its length is 2 to 50, and comes back unchanged |
| SearchSchema.PaddingCountsTowardsMinimum | src/features/search/backend/schema.ts:3-7 | white space counts toward the minimum length: a space followed by any one non-white character is accepted, as that character alone |
| SearchSchema.ParseResponse | src/features/search/backend/schema.ts:9-21 | a response is accepted exactly when every item has a non-empty name and address; the accepted data is the results and total given |
| SearchSchema.ValidItem | src/features/search/backend/schema.ts:9-16 | an item is valid exactly when its name and its address are non-empty |
| SearchSchema.ValidItemIgnoresOtherFields | src/features/search/backend/schema.ts:11-15 | category, coordinates and link are unconstrained: changing them never changes whether an item is valid |
| SearchSchema.MappedItemValid | src/features/search/backend/schema.ts:9-16 | a mapped item is valid exactly when its stripped title and address are non-empty |
| SearchService.CaughtKind | src/features/search/backend/service.ts:55-72 | an `Error` whose message is a table key gives that entry; any other thrown value gives SEARCH_API_ERROR |
| SearchService.SearchPlaces | src/features/search/backend/service.ts:5-73 | an invalid query gives SEARCH_QUERY_INVALID; a success comes from the client's answer for the trimmed query and five results, has total equal to the number of results, and has only valid items; a throw gives the caught kind; results with an invalid item give SEARCH_RESPONSE_INVALID |
| SearchService.EmptyResultsSucceed | src/features/search/backend/service.ts:23-34 | no results is a success with results [] and total 0 |
| SearchService.OnlyTrimmedQueryConsulted | src/features/search/backend/service.ts:10-23 | two clients that agree on the trimmed query and five results give the same outcome; a refused query consults no client |
| SearchService.KnownCodesPassThrough | src/features/search/backend/service.ts:55-64 | an `Error` carrying any table code is answered with that code's kind |
| SearchService.ClientCodesAreKeys | src/lib/external/naver-client.ts:102-113 | every code the adapter throws is a key of the search error table |
| SearchService.TransportFailureKinds | src/lib/external/naver-client.ts:102-113 | end to end, an abort gives SEARCH_TIMEOUT_ERROR (504), a 400 SEARCH_QUERY_INVALID (400) and any other failure SEARCH_API_ERROR (500) |
| SearchService.MarkupOnlyTitleRefused | src/features/search/backend/service.ts:37-48 | end to end, an item whose title is only markup makes the search fail with SEARCH_RESPONSE_INVALID |

## Left out

- **Database I/O.** Supabase queries, their latency and their concurrency are left out. The tables are in memory, and one `StoreFaults` record per call decides which round trips fail. Concurrent requests recounting the same place are not modelled.
- **bcrypt.** The salt, the cost factor and the timing are left out. The `Hasher` is a pair of total functions. That `verify` accepts a password against its own hash (`Sound`) is a precondition only where a scenario needs it.
- **Generated values.** Database-generated review ids are the `newId` argument. The timestamps (`created_at`) are not modelled.
- **Floating point.** Ratings, coordinates and averages are exact reals or integers.
  - The source computes `Math.round(mean * 10) / 10` in doubles. The model proves the same rounding on the exact mean and stores tenths.
  - NaN and the infinities are not modelled: `Json.Number` holds a real.
- **Outer catch blocks.** The source wraps each operation in a `try`. Its `catch` turns unexpected exceptions into REVIEW_CREATE_ERROR or REVIEW_NOT_FOUND. Store failures are modelled by `StoreFaults`; nothing else in the model can throw.
- **String length.** Lengths are counted in characters, not UTF-16 code units as zod counts them. The two differ only outside the Basic Multilingual Plane.
- **Prototype keys.** `errorCode in SEARCH_ERRORS` also sees inherited keys such as `toString`. `SearchErrors.KindOf` looks at the table's own keys only.
- **HTTP routes.** The review route's guards on `placeId` and the password, and the search route's missing-query check, are not part of this model. Neither are the response helpers and the React components and hooks.
- **The HTTP client and credentials.** The axios instance, its base URL, its 10-second timeout and the credential headers are left out. A timeout reaches the model only as the abort error code it produces.
- **Provider coordinates.** `mapx` and `mapy` are typed as numbers, as the source declares them. The provider's textual encoding is not modelled.
- **Zod unknown keys.** Parsing a request does not model the stripping of unknown keys into a fresh object. Only the validated fields are read, so nothing observable is lost.
- **Search response total.** `total` is always an integer, so that half of `SearchResponseSchema` always holds.
- **NaverClient.StripHtmlTags:** its own contract states only the length bound. Its meaning is stated by the lemmas beside it.
