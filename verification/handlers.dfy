/** The three API handlers — submit, list and stats — as pure functions over
    the stored rows. The database's answers (the id and time it assigns on
    commit, or a failure) and the provider's replies are parameters. */
module Handlers {
  import opened Wrappers
  import opened Text
  import opened Models
  import opened Schemas
  import Ai
  import opened Listing
  import opened Stats

  const SubmitFailedMessage: string := "Failed to submit review. Please try again."
  const ListFailedMessage: string := "Failed to fetch reviews."
  const StatsFailedMessage: string := "Failed to fetch stats."

  /** The store's answer to `add` + `commit` + `refresh`. `Committed`: both
      succeed, with the row's assigned id and creation time. `RefreshFailed`:
      the commit succeeds (the row is stored with that id and time) and the
      `refresh` raises. `CommitFailed`: `add` or `commit` raises and nothing
      is stored. */
  datatype CommitOutcome =
    | Committed(id: int, createdAt: Timestamp)
    | RefreshFailed(id: int, createdAt: Timestamp)
    | CommitFailed

  /** The store's answer to a read query. */
  datatype QueryOutcome = Answered | QueryFailed

  /** The rows as this service writes them: ratings in 1..5, reviews of at
      most 5000 characters, non-empty generated text, unique ids. */
  predicate ValidStore(store: seq<Review>) {
    && UniqueIds(store)
    && forall i :: 0 <= i < |store| ==> ValidRow(store[i])
  }

  predicate ValidRow(r: Review) {
    && MinRating <= r.rating <= MaxRating
    && |r.review| <= MaxReviewLength
    && r.aiResponse != [] && r.aiSummary != [] && r.aiRecommendedActions != []
  }

  // ---- POST /api/reviews ----

  /** `(payload.review or "").strip()`, then cut to its first 5000
      characters. */
  function NormaliseReview(review: Option<string>): (t: string)
    ensures |t| <= MaxReviewLength
    ensures t <= Strip(review.GetOr(""))
    ensures |Strip(review.GetOr(""))| <= MaxReviewLength ==> t == Strip(review.GetOr(""))
    ensures |Strip(review.GetOr(""))| > MaxReviewLength ==> |t| == MaxReviewLength
    ensures t == [] || (!IsSpace(t[0]) && (|t| < MaxReviewLength ==> !IsSpace(t[|t| - 1])))
  {
    var stripped := Strip(review.GetOr(""));
    if |stripped| > MaxReviewLength then stripped[..MaxReviewLength] else stripped
  }

  /** The row a submission stores, before the store assigns its key. */
  function NewRow(cfg: Ai.Config, payload: ReviewCreate, replies: seq<Ai.HttpReply>, id: int, createdAt: Timestamp): Review
    requires |replies| == Ai.CallsPerGeneration
  {
    var text := NormaliseReview(payload.review);
    var content := Ai.GenerateAiContent(cfg, payload.rating, text, replies).content;
    Review(id, payload.rating, text, content.userResponse, content.summary, content.recommendedActions, createdAt)
  }

  datatype Submitted = Submitted(store: seq<Review>, response: Envelope<SubmitResponseData>)

  /** `submit_review` on a validated body. On a commit failure nothing is
      stored and the fixed failure message is returned. Once the commit
      succeeds exactly one row is appended; it is echoed without its summary
      and actions, unless the `refresh` raises, in which case the row stays
      stored and the fixed failure message is returned. */
  function SubmitReview(store: seq<Review>, cfg: Ai.Config, payload: ReviewCreate,
                        replies: seq<Ai.HttpReply>, commit: CommitOutcome): (out: Submitted)
    requires |replies| == Ai.CallsPerGeneration
    ensures out.response.WellFormed()
    ensures commit.CommitFailed? ==> out.store == store && out.response.error == Some(SubmitFailedMessage)
    ensures !commit.CommitFailed? ==>
      && |out.store| == |store| + 1
      && out.store[..|store|] == store
      && var row := out.store[|store|];
      && row.id == commit.id && row.createdAt == commit.createdAt
      && row.rating == payload.rating
      && row.review == NormaliseReview(payload.review)
      && (commit.Committed? ==> out.response.data == Some(ToSubmitData(row)))
    ensures commit.RefreshFailed? ==> out.response.error == Some(SubmitFailedMessage)
  {
    match commit
    case CommitFailed => Submitted(store, Failed(SubmitFailedMessage))
    case RefreshFailed(id, createdAt) =>
      var row := NewRow(cfg, payload, replies, id, createdAt);
      assert (store + [row])[..|store|] == store;
      Submitted(store + [row], Failed(SubmitFailedMessage))
    case Committed(id, createdAt) =>
      var row := NewRow(cfg, payload, replies, id, createdAt);
      assert (store + [row])[..|store|] == store;
      Submitted(store + [row], Succeeded(ToSubmitData(row)))
  }

  /** Whenever the commit succeeds, the stored generated text is what the
      generator returned for the stored review text, field by field, and none
      of it is empty. */
  lemma StoredRowMatchesGenerator(store: seq<Review>, cfg: Ai.Config, payload: ReviewCreate,
                                  replies: seq<Ai.HttpReply>, commit: CommitOutcome)
    requires |replies| == Ai.CallsPerGeneration
    requires !commit.CommitFailed?
    ensures var out := SubmitReview(store, cfg, payload, replies, commit);
      var row := out.store[|store|];
      var content := Ai.GenerateAiContent(cfg, payload.rating, row.review, replies).content;
      && row.aiResponse == content.userResponse
      && row.aiSummary == content.summary
      && row.aiRecommendedActions == content.recommendedActions
      && content.AllNonEmpty()
  {
  }

  /** Without a key, or when a provider call fails, the stored summary is the
      fallback template over the stored (normalised) review. */
  lemma StoredSummaryOnFallback(store: seq<Review>, cfg: Ai.Config, payload: ReviewCreate,
                                replies: seq<Ai.HttpReply>, commit: CommitOutcome, i: nat)
    requires |replies| == Ai.CallsPerGeneration
    requires !commit.CommitFailed?
    requires !Ai.HasKey(cfg) || (i < |replies| && Ai.ReadReply(replies[i]).Raised?)
    ensures var row := SubmitReview(store, cfg, payload, replies, commit).store[|store|];
      && row.aiSummary == Ai.SummaryTemplate(payload.rating, NormaliseReview(payload.review))
      && row.aiRecommendedActions == Ai.FallbackActions(payload.rating)
  {
    var text := NormaliseReview(payload.review);
    if Ai.HasKey(cfg) {
      Ai.AnyFailureFallsBackEntirely(cfg, payload.rating, text, replies, i);
    }
  }

  /** A review longer than 5000 characters is stored as exactly its first
      5000 characters after stripping. */
  lemma LongReviewTruncated(store: seq<Review>, cfg: Ai.Config, payload: ReviewCreate,
                            replies: seq<Ai.HttpReply>, commit: CommitOutcome)
    requires |replies| == Ai.CallsPerGeneration
    requires !commit.CommitFailed?
    requires |Strip(payload.review.GetOr(""))| > MaxReviewLength
    ensures var row := SubmitReview(store, cfg, payload, replies, commit).store[|store|];
      row.review == Strip(payload.review.GetOr(""))[..MaxReviewLength]
  {
  }

  /** For a body the schema accepted the cut never applies: the stored
      review is the stripped input. */
  lemma TruncationIsDefensive(payload: ReviewCreate)
    requires ValidCreate(payload)
    ensures NormaliseReview(payload.review) == Strip(payload.review.GetOr(""))
  {
  }

  /** What a POST to `/api/reviews` produces: a validation rejection, or the
      handler's envelope. */
  datatype SubmitReply = Rejected(errors: seq<FieldError>) | Handled(response: Envelope<SubmitResponseData>)

  datatype Posted = Posted(store: seq<Review>, reply: SubmitReply)

  /** Validation followed by `submit_review`. */
  function PostReview(store: seq<Review>, cfg: Ai.Config, rating: RatingField, review: ReviewField,
                      replies: seq<Ai.HttpReply>, commit: CommitOutcome): (out: Posted)
    requires |replies| == Ai.CallsPerGeneration
    ensures out.reply.Rejected? <==> ValidateCreate(rating, review).Failure?
    ensures out.reply.Rejected? ==> out.store == store && |out.reply.errors| > 0
    ensures out.reply.Handled? ==> out.reply.response.WellFormed()
    ensures |out.store| <= |store| + 1
    ensures ValidateCreate(rating, review).Success? ==>
      var s := SubmitReview(store, cfg, ValidateCreate(rating, review).value, replies, commit);
      out == Posted(s.store, Handled(s.response))
  {
    match ValidateCreate(rating, review)
    case Failure(errors) => Posted(store, Rejected(errors))
    case Success(payload) =>
      var s := SubmitReview(store, cfg, payload, replies, commit);
      Posted(s.store, Handled(s.response))
  }

  /** A rating outside 1..5 never reaches the store. */
  lemma OutOfRangeRatingStoresNothing(store: seq<Review>, cfg: Ai.Config, n: int, review: ReviewField,
                                      replies: seq<Ai.HttpReply>, commit: CommitOutcome)
    requires |replies| == Ai.CallsPerGeneration
    requires n < MinRating || n > MaxRating
    ensures var out := PostReview(store, cfg, IntValue(n), review, replies, commit);
      out.store == store && out.reply.Rejected? && RatingOutOfRange in out.reply.errors
  {
  }

  /** Every request keeps the store valid, a committed row included,
      provided the store assigns an id not yet in use. */
  lemma PostPreservesValidStore(store: seq<Review>, cfg: Ai.Config, rating: RatingField, review: ReviewField,
                                replies: seq<Ai.HttpReply>, commit: CommitOutcome)
    requires |replies| == Ai.CallsPerGeneration
    requires ValidStore(store)
    requires !commit.CommitFailed? ==> FreshId(store, commit.id)
    ensures ValidStore(PostReview(store, cfg, rating, review, replies, commit).store)
  {
    var v := ValidateCreate(rating, review);
    if v.Success? && !commit.CommitFailed? {
      var row := NewRow(cfg, v.value, replies, commit.id, commit.createdAt);
      assert PostReview(store, cfg, rating, review, replies, commit).store == store + [row];
      NewRowIsValid(cfg, v.value, replies, commit.id, commit.createdAt);
      AppendKeepsValidStore(store, row);
    }
  }

  /** A row built from a validated body satisfies the row invariant. */
  lemma NewRowIsValid(cfg: Ai.Config, payload: ReviewCreate, replies: seq<Ai.HttpReply>, id: int, createdAt: Timestamp)
    requires |replies| == Ai.CallsPerGeneration
    requires ValidCreate(payload)
    ensures ValidRow(NewRow(cfg, payload, replies, id, createdAt))
  {
  }

  lemma AppendKeepsValidStore(store: seq<Review>, row: Review)
    requires ValidStore(store) && ValidRow(row) && FreshId(store, row.id)
    ensures ValidStore(store + [row])
  {
    var s := store + [row];
    forall i, j | 0 <= i < j < |s| ensures s[i].id != s[j].id {
      assert s[i] == store[i];
      if j < |store| {
        assert s[j] == store[j];
      }
    }
  }

  // ---- GET /api/reviews ----

  /** `list_reviews`: every row as a listing item, newest first. */
  function ListReviews(store: seq<Review>, query: QueryOutcome): (e: Envelope<seq<ReviewOut>>)
    ensures e.WellFormed()
    ensures query.QueryFailed? ==> e.error == Some(ListFailedMessage)
    ensures query.Answered? ==>
      && e.data.Some?
      && |e.data.value| == |store|
      && ItemsNewestFirst(e.data.value)
      && multiset(e.data.value) == multiset(ToReviewOuts(store))
  {
    match query
    case QueryFailed => Failed(ListFailedMessage)
    case Answered =>
      var rows := SortNewestFirst(store);
      ToReviewOutsKeepsOrder(rows);
      ToReviewOutsPermutes(rows, store);
      Succeeded(ToReviewOuts(rows))
  }

  /** With unique ids the listing is the one newest-first arrangement of the
      rows: any ordering the database might return agrees with it. */
  lemma ListingIsDetermined(store: seq<Review>, rows: seq<Review>)
    requires UniqueIds(store)
    requires NewestFirst(rows) && multiset(rows) == multiset(store)
    ensures ListReviews(store, Answered).data == Some(ToReviewOuts(rows))
  {
    var sorted := SortNewestFirst(store);
    UniqueIdsPermute(store, sorted);
    OrderIsDetermined(sorted, rows);
  }

  /** Rows created at times 1, 2 and 3 are listed in the order 3, 2, 1. */
  lemma ListingExample(r1: Review, r2: Review, r3: Review)
    requires r1.createdAt == 1 && r2.createdAt == 2 && r3.createdAt == 3
    requires UniqueIds([r1, r2, r3])
    ensures ListReviews([r1, r2, r3], Answered).data == Some(ToReviewOuts([r3, r2, r1]))
  {
    assert multiset([r3, r2, r1]) == multiset([r1, r2, r3]);
    ListingIsDetermined([r1, r2, r3], [r3, r2, r1]);
  }

  lemma UniqueIdsPermute(a: seq<Review>, b: seq<Review>)
    requires UniqueIds(a) && multiset(a) == multiset(b)
    ensures UniqueIds(b)
  {
    forall i, j | 0 <= i < j < |b| ensures b[i].id != b[j].id {
      if b[i].id == b[j].id {
        assert b[i] in multiset(a) && b[j] in multiset(a);
        var p :| 0 <= p < |a| && a[p] == b[i];
        var q :| 0 <= q < |a| && a[q] == b[j];
        assert p == q;
        SameRowTwice(b, i, j);
        assert multiset(b)[b[i]] >= 2;
        SingleOccurrence(a, p);
        assert false;
      }
    }
  }

  lemma SameRowTwice(s: seq<Review>, i: nat, j: nat)
    requires i < j < |s| && s[i] == s[j]
    ensures multiset(s)[s[i]] >= 2
  {
    assert s == s[..i] + [s[i]] + s[i + 1..j] + [s[j]] + s[j + 1..];
  }

  lemma SingleOccurrence(s: seq<Review>, p: nat)
    requires p < |s| && UniqueIds(s)
    ensures multiset(s)[s[p]] == 1
  {
    assert s == s[..p] + [s[p]] + s[p + 1..];
    assert s[p] !in multiset(s[..p]);
    assert s[p] !in multiset(s[p + 1..]);
  }

  // ---- GET /api/stats ----

  /** `get_stats`: total, counts per rating present, rounded average. */
  function GetStats(store: seq<Review>, query: QueryOutcome): (e: Envelope<StatsData>)
    ensures e.WellFormed()
    ensures query.QueryFailed? ==> e.error == Some(StatsFailedMessage)
    ensures query.Answered? ==>
      && e.data.Some?
      && e.data.value.total == |store|
      && SumCounts(e.data.value.byRating) == |store|
      && StrictlyAscending(e.data.value.byRating)
      && (forall i :: 0 <= i < |e.data.value.byRating| ==>
            e.data.value.byRating[i].count == CountRating(store, e.data.value.byRating[i].rating) > 0)
      && (forall i :: 0 <= i < |store| ==> store[i].rating in RatingsOf(e.data.value.byRating))
      && (store == [] ==> e.data.value.averageTenths == 0)
      && (store != [] ==>
            -|store| <= 2 * (e.data.value.averageTenths * |store| - 10 * SumRatings(store)) <= |store|)
  {
    match query
    case QueryFailed => Failed(StatsFailedMessage)
    case Answered => Succeeded(ComputeStats(store))
  }

  /** On a valid store the reported average lies between 1.0 and 5.0 and is
      within half a tenth of the exact mean. */
  lemma StatsAverageOnValidStore(store: seq<Review>)
    requires ValidStore(store) && store != []
    ensures var a := GetStats(store, Answered).data.value.averageTenths;
      && 10 * MinRating <= a <= 10 * MaxRating
      && -|store| <= 2 * (a * |store| - 10 * SumRatings(store)) <= |store|
  {
    assert RatingsWithin(store, MinRating, MaxRating) by {
      forall i | 0 <= i < |store| ensures MinRating <= store[i].rating <= MaxRating {
        assert ValidRow(store[i]);
      }
    }
    AverageWithinRatingRange(store, MinRating, MaxRating);
  }
}
