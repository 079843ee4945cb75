# Feedback service core in Dafny

This project models the core of a small feedback service. A user submits a star rating (1 to 5) and an optional text review. The service asks a text-generation provider for three texts and stores the review with them:

- a reply to the user;
- an internal summary;
- a list of recommended actions.

The service lists stored reviews newest first and reports aggregate statistics.

The model has five parts:

- **Generator** (`Ai`): the content generator.
  - Without a provider key, it returns fixed fallback text.
  - With a key, it issues three sequential provider calls. If any call raises, all three fields are the fallback and the replies already received are discarded.
  - On full success, each field is the stripped reply, or that field's default when the reply is empty.
  - The provider is an oracle. Its input is the reply each of the three calls would receive: a transport error, or a status and a JSON body at the level the code inspects it. Its output records how many calls were issued.
- **Schemas** (`Schemas`): request validation (rating 1..5; optional review of at most 5000 characters, possibly null) and the response records and `{success, data?, error?}` envelopes.
- **Handlers** (`Handlers`): the three HTTP handlers, as pure functions over the stored rows (`seq<Review>`).
  - Submit takes a store to a new store plus a response.
  - The database's answers are parameters: the id and creation time it assigns on commit, a failed commit, a `refresh` that fails after a successful commit, or a failed query.
- **Listing** (`Listing`): the listing order `created_at DESC, id DESC`, as a sort proved to be a permutation. With unique ids, the order is shown to be the only ordered arrangement.
- **Stats** (`Stats`): the statistics.
  - A `GROUP BY rating ORDER BY rating` count.
  - The average rounded to one decimal, carried as an integer number of tenths (3.5 is `35`).

`Text` models the Python string operations involved:

- `str.isspace` / `strip`;
- slicing;
- `or` on strings;
- `str(int)`.

`Wrappers` holds `Option` and `Result`. `Models` holds the stored row.

The request schema declares `max_length=5000` (backend/schemas.py:11), so a longer review is rejected before the handler runs. The handler's own cut (backend/main.py:97-99) is therefore defensive: it only matters for a payload that bypasses validation. `Handlers.TruncationIsDefensive` proves that the cut never changes a validated payload. `Handlers.LongReviewTruncated` proves what the cut does to an unvalidated one.

The code also strips the review before storing it (backend/main.py:95). The stored text is therefore the stripped text, not just the truncated text.

## Model

| member | source | states |
|---|---|---|
| Text.Strip | backend/main.py:95 | The result is the input with its leading and trailing Python whitespace removed: a contiguous slice, starting after the leading whitespace, with only whitespace after it; empty exactly when the input is all whitespace; otherwise it starts and ends with non-whitespace |
| Text.StripIdempotent | backend/ai.py:90-96 | Stripping an already stripped reply changes nothing |
| Text.Prefix | backend/ai.py:25 | `s[:n]` is a prefix of `s` of length `min(n, len(s))` |
| Text.OrDefault | backend/ai.py:163-179 | `text or default` is the text when it is non-empty and the default otherwise, so it is non-empty when the default is |
| Text.IntToString | backend/ai.py:24 | `str(rating)` is non-empty, starts with `-` exactly for negative values, and is otherwise all digits |
| Text.NatToStringRoundTrip | backend/ai.py:24 | The decimal digits of a natural number read back as that number |
| Text.IntToStringInjective | backend/ai.py:24 | Different ratings print differently |
| Ai.ReadReply | backend/ai.py:89-96 | A call yields text only on a 2xx response, and that text is stripped. A transport error or a status outside 2xx raises. On a 2xx response the outcome is whatever reading the body gives |
| Ai.ReadMessage | backend/ai.py:93-95 | String content is read as its stripped text, a missing `content` key as `""`, and a non-object message or non-string content raises |
| Ai.ReadChoice | backend/ai.py:92-95 | A first choice with a message reads as that message. A choice without `message` reads as `""` through the `{}` default; a non-object choice raises. A message with string content `t` gives `Strip(t)` |
| Ai.ReadBody | backend/ai.py:90-96 | A non-empty `choices` array reads as its first choice, so string content `t` there gives `Strip(t)`. A missing `choices` key yields the empty reply through the `[{}]` default. An empty `choices` list raises on the index, and a body that is not an object, or whose `choices` is not an array, raises |
| Ai.ReplyTakesFirstText | backend/ai.py:89-96 | A 2xx completion whose first choice's message has string content `t` yields `Strip(t)`, whatever further choices follow |
| Ai.IssueCalls | backend/ai.py:78-134 | Calls are issued in order and stop at the first one that raises. The result is all texts exactly when every call replied. Otherwise it is the first raising index, with every earlier call having replied |
| Ai.GenerateAiContent | backend/ai.py:11-179 | All three returned fields are non-empty for every input and every provider behaviour. No call is issued without a key; with a key, between one and three are issued |
| Ai.NoKeyIgnoresProvider | backend/ai.py:22-47 | Without a key, the result is exactly the fallback triple, no call is issued, and any two provider behaviours give the same result |
| Ai.AnyFailureFallsBackEntirely | backend/ai.py:78-161 | If any call raises, all three fields are the fallback. The calls issued are exactly those up to the first raising one, so later calls are never made |
| Ai.PartialRepliesDiscarded | backend/ai.py:134-161 | Two provider runs that each fail somewhere give the same content, whatever replies arrived before the failure |
| Ai.ErrorPathMatchesNoKey | backend/ai.py:134-161 | The exception path gives exactly the content the no-key path gives for the same rating and review |
| Ai.FallbackRepliesAgree | backend/ai.py:155-158 | The differently split reply literal of the exception path is the same text as the no-key reply (backend/ai.py:41-44) |
| Ai.SuccessReturnsProviderText | backend/ai.py:80-179 | When the three calls get well-formed 2xx completions with texts t0, t1, t2, the content is exactly `strip(t0) or` the reply default, `strip(t1) or` the fallback summary, and `strip(t2) or` the actions default |
| Ai.SuccessTakesReplies | backend/ai.py:163-179 | When every call replies, all three calls are issued and each field is its stripped reply, or that field's default when the reply is empty |
| Ai.EmptySummaryUsesFallbackTemplate | backend/ai.py:168-174 | An empty summary reply yields the same summary the fallback produces |
| Ai.DefaultsDifferFromFallback | backend/ai.py:163-179 | The per-field defaults for the reply and the actions differ from the fallback reply and from both fallback action lists |
| Ai.FallbackReplyIsFixed | backend/ai.py:27-47 | The fallback reply is the same for every rating and review. Two ratings get the same action list exactly when both are at least 4 or both are below 4 |
| Ai.SummaryDeterminesRatingAndExcerpt | backend/ai.py:23-26 | Equal fallback summaries mean equal ratings, equal emptiness of the review, and equal 100-character excerpts |
| Ai.SummaryQuotesExcerpt | backend/ai.py:23-26 | A non-empty review's summary starts with the printed rating and ends with `...`. Between `-star review: ` and the ellipsis is the review's first `min(100, len)` characters, even for a short review |
| Schemas.ValidateCreate | backend/schemas.py:7-13 | A body is accepted exactly when its rating is an integer in 1..5 and its review is absent, null, or a string of at most 5000 characters. An accepted body keeps the rating and review, absent meaning `""` and null kept. A rejected body has a non-empty error list, with each kind of error reported exactly when its field violates its constraint |
| Schemas.ValidateAcceptsValid | backend/schemas.py:7-13 | Every valid `ReviewCreate`, sent as text, as null or by omission, is accepted as exactly itself |
| Schemas.Succeeded | backend/schemas.py:57-60 | A success envelope carries its data and no error |
| Schemas.Failed | backend/schemas.py:57-60 | A failure envelope carries its non-empty message and no data |
| Schemas.ToReviewOut | backend/schemas.py:16-23 | A listing item carries each of the row's seven fields |
| Schemas.ReviewOutKeepsEveryField | backend/schemas.py:16-23 | The row can be rebuilt from its listing item, so nothing is lost |
| Schemas.ToSubmitData | backend/schemas.py:49-54 | The submission echo carries the row's id, rating, review, reply and creation time |
| Schemas.SubmitDataOmitsSummaryAndActions | backend/schemas.py:49-54 | The echo does not depend on the stored summary or actions |
| Listing.Insert | backend/main.py:141 | Inserting a row into an ordered sequence keeps it ordered and adds exactly that row |
| Listing.SortNewestFirst | backend/main.py:140-142 | The listed rows are a permutation of the store, ordered by creation time descending and then id descending |
| Listing.OrderIsDetermined | backend/main.py:141 | With unique ids, two ordered arrangements of the same rows are equal, so the order key fixes the listing completely |
| Listing.ToReviewOuts | backend/main.py:143-154 | Each listing item is the conversion of the row at the same position |
| Listing.ToReviewOutsPermutes | backend/main.py:143-154 | Converting two arrangements of the same rows gives two arrangements of the same items |
| Listing.ToReviewOutsKeepsOrder | backend/main.py:143-154 | Items keep their rows' order |
| Stats.CountRating | backend/main.py:172-177 | A rating's count is positive exactly when some row has that rating, and is at most the number of rows |
| Stats.Groups | backend/main.py:172-181 | Over a rating range, there is one entry per rating that occurs, in ascending order, each with its row count, and the counts add up to the rows in range |
| Stats.ByRating | backend/main.py:172-181 | `by_rating` is strictly ascending by rating. Each count is that rating's row count and is positive. Every stored rating appears, and the counts sum to the number of rows |
| Stats.ByRatingExactlyOnce | backend/main.py:172-181 | A rating has an entry exactly when some row has it, and no rating has two entries |
| Stats.RoundToNearest | backend/main.py:184 | The result is within one half of the exact quotient |
| Stats.AverageTenths | backend/main.py:183-184 | The average in tenths is within half a tenth of the exact mean rating, and is 0 for an empty store |
| Stats.AverageWithinRatingRange | backend/main.py:183-184 | The rounded average lies between the lowest and highest possible rating |
| Stats.ComputeStats | backend/main.py:169-190 | `total` is the number of rows and the per-rating counts sum to it. The ratings are strictly ascending, each count is that rating's row count and is positive, and every stored rating has an entry. There are no groups exactly for an empty store, whose average is 0; otherwise the average is within half a tenth of the exact mean |
| Stats.FourReviewsExample | backend/main.py:169-190 | Ratings 5, 5, 3, 1 give total 4, groups (1,1), (3,1), (5,2) and average 3.5 |
| Handlers.NormaliseReview | backend/main.py:95-99 | The stored text is a prefix of the stripped review, with null read as `""`. It is at most 5000 characters, equals the stripped review when that fits, and is exactly 5000 characters otherwise |
| Handlers.SubmitReview | backend/main.py:93-131 | On a failed commit the store is unchanged and the envelope carries the fixed submit failure message. Once the commit succeeds exactly one row is appended, with the assigned id and time, the payload's rating and the normalised text. The response echoes that row, or, when the `refresh` after the commit raises, carries the fixed submit failure message while the row stays stored |
| Handlers.StoredRowMatchesGenerator | backend/main.py:101-112 | Whenever the commit succeeds, including when the later `refresh` raises, the generator is given exactly the stored text, and the stored reply, summary and actions are its three fields, all non-empty |
| Handlers.StoredSummaryOnFallback | backend/main.py:101-112 | Whenever the commit succeeds, and there is no key or some call raises, the stored summary is the fallback template over the stored text and the actions are chosen by the rating |
| Handlers.LongReviewTruncated | backend/main.py:97-99 | A stripped review over 5000 characters is stored, whenever the commit succeeds, as exactly its first 5000 characters |
| Handlers.TruncationIsDefensive | backend/schemas.py:9-13 | For every payload the schema accepts, the cut is a no-op: the stored text is the stripped review |
| Handlers.PostReview | backend/main.py:84-87 | A body is rejected exactly when validation fails. A rejected body leaves the store unchanged and reports at least one error. An accepted body is passed, as validated, to the submit handler, and the store and envelope are exactly what that handler gives. At most one row is added |
| Handlers.OutOfRangeRatingStoresNothing | backend/schemas.py:8 | A rating outside 1..5 is rejected as out of range and stores nothing |
| Handlers.NewRowIsValid | backend/main.py:103-109 | A row built from a validated body has a rating in 1..5, at most 5000 characters of review and non-empty generated text |
| Handlers.PostPreservesValidStore | backend/main.py:103-112 | Every request keeps the store valid (ratings in range, bounded reviews, non-empty generated text, unique ids), provided the database assigns an unused id |
| Handlers.ListReviews | backend/main.py:134-161 | On success the items are all the rows, converted and ordered newest first, as a permutation of the store's items. On failure the envelope carries the fixed list failure message |
| Handlers.ListingIsDetermined | backend/main.py:140-142 | With unique ids, the listing equals the conversion of any newest-first arrangement of the rows |
| Handlers.ListingExample | backend/main.py:141 | Rows created at times 1, 2 and 3 are listed as 3, 2, 1 |
| Handlers.GetStats | backend/main.py:164-197 | On success the total is the row count, counts per rating present are positive, ascending, cover every row and sum to the total, and the average is 0 for no rows and otherwise within half a tenth of the exact mean. On failure the envelope carries the fixed stats failure message |
| Handlers.StatsAverageOnValidStore | backend/main.py:183-184 | On a store this service wrote, the average is between 1.0 and 5.0 and within half a tenth of the exact mean |

## Left out

- Prompt construction (backend/ai.py:49-71): the prompts only feed the provider, and the provider is an oracle here.
- HTTP transport: the client, URL, headers, model name and the 30-second timeout. A timeout is one form of `TransportError`.
- JSON parsing: bodies are modelled at the level the code inspects them. `Choices` that are a non-array JSON value are treated as raising.
- `Ai.GenerateAiContent`: does not model that the key is read once from the environment at import time; the key is a parameter.
- `Stats.AverageTenths`: rounds the exact rational mean half-to-even in tenths. It does not model Python's `round` on a binary float of the database's average. The two can differ on values whose float representation lies just off a tie.
- `Schemas.ValidateCreate`: does not model pydantic's lax coercion (a string `"3"`, a float `3.0` or `true` read as an integer). Any such value is either an `IntValue` or `NotAnInteger`. Several errors are reported as a list, without pydantic's message texts or locations.
- `Handlers.SubmitReview`: does not model the `HTTPException` re-raise branch (backend/main.py:124-125). Nothing in the modelled body raises one. The failures modelled are a failed `add`/`commit` and a `refresh` that raises after a successful commit. Provider calls still happen before a failed commit; the response does not show them.
- `Ai.GenerateAiContent`: does not model the HTTP client failing to be built or closed (backend/ai.py:78). That code sits outside the generator's `try`, so such an error propagates out of `generate_ai_content`. `submit_review`'s `except` (backend/main.py:126-131) then returns the fixed failure message and stores nothing, which is the same result `CommitFailed` gives.
- `Handlers.ListReviews` and `Handlers.GetStats`: a failed query is one parameter. Which query fails is not modelled, since every failure gives the same envelope.
- The database: the session lifecycle, the table definition in backend/models.py, and the actual assignment of ids and creation times. Ids and times are values supplied on commit. Times are integers.
- Strings are sequences of code points. Python's string operations are modelled per code point, without encodings.
- Logging (`print`), async/await, and concurrency between requests.
- FastAPI wiring, CORS, static files, HTML page routes and `/health`. Also run.py and the frontend scripts, which are user interface code.
