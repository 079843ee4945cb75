/** Request validation and response shapes of the HTTP API. */
module Schemas {
  import opened Wrappers
  import opened Models

  const MinRating: int := 1
  const MaxRating: int := 5
  const MaxReviewLength: nat := 5000

  /** The `rating` member of a request body as the validator sees it.
      `NotAnInteger` stands for any JSON value that is not read as an int. */
  datatype RatingField = RatingMissing | IntValue(n: int) | NotAnInteger

  /** The `review` member of a request body: absent, an explicit `null`,
      a string, or any other JSON value. */
  datatype ReviewField = ReviewOmitted | ReviewNull | ReviewText(text: string) | ReviewNotText

  /** A validated request body (`ReviewCreate`); `None` is an explicit null. */
  datatype ReviewCreate = ReviewCreate(rating: int, review: Option<string>)

  datatype FieldError =
    | MissingRating
    | RatingNotInteger
    | RatingOutOfRange
    | ReviewNotString
    | ReviewTooLong

  /** The constraints `ReviewCreate` places on its fields. */
  predicate ValidCreate(p: ReviewCreate) {
    && MinRating <= p.rating <= MaxRating
    && (p.review.Some? ==> |p.review.value| <= MaxReviewLength)
  }

  function RatingErrors(f: RatingField): seq<FieldError> {
    match f
    case RatingMissing => [MissingRating]
    case NotAnInteger => [RatingNotInteger]
    case IntValue(n) => if MinRating <= n <= MaxRating then [] else [RatingOutOfRange]
  }

  function ReviewErrors(f: ReviewField): seq<FieldError> {
    match f
    case ReviewOmitted => []
    case ReviewNull => []
    case ReviewNotText => [ReviewNotString]
    case ReviewText(t) => if |t| <= MaxReviewLength then [] else [ReviewTooLong]
  }

  /** The value a field takes once accepted: an omitted review defaults to
      the empty string and an explicit null stays `None`. */
  function ReviewValue(f: ReviewField): Option<string> {
    match f
    case ReviewText(t) => Some(t)
    case ReviewNull => None
    case _ => Some("")
  }

  /** Parsing a request body into `ReviewCreate`; every violated field is
      reported, and a rejected body never reaches a handler. */
  function ValidateCreate(rating: RatingField, review: ReviewField): (r: Result<ReviewCreate, seq<FieldError>>)
    ensures r.Success? ==> ValidCreate(r.value)
    ensures r.Success? ==> rating == IntValue(r.value.rating) && r.value.review == ReviewValue(review)
    ensures r.Success? <==>
      && rating.IntValue? && MinRating <= rating.n <= MaxRating
      && !review.ReviewNotText?
      && (review.ReviewText? ==> |review.text| <= MaxReviewLength)
    ensures r.Failure? ==> |r.error| > 0
    ensures r.Failure? ==>
      (MissingRating in r.error <==> rating.RatingMissing?) &&
      (RatingNotInteger in r.error <==> rating.NotAnInteger?) &&
      (RatingOutOfRange in r.error <==> rating.IntValue? && !(MinRating <= rating.n <= MaxRating)) &&
      (ReviewNotString in r.error <==> review.ReviewNotText?) &&
      (ReviewTooLong in r.error <==> review.ReviewText? && |review.text| > MaxReviewLength)
  {
    var errors := RatingErrors(rating) + ReviewErrors(review);
    if errors == [] then Success(ReviewCreate(rating.n, ReviewValue(review)))
    else Failure(errors)
  }

  /** A body that sends the fields of a valid `ReviewCreate` is accepted as
      exactly that value, whichever way the review is sent. */
  lemma ValidateAcceptsValid(p: ReviewCreate)
    requires ValidCreate(p)
    ensures p.review.Some? ==> ValidateCreate(IntValue(p.rating), ReviewText(p.review.value)) == Success(p)
    ensures p.review.None? ==> ValidateCreate(IntValue(p.rating), ReviewNull) == Success(p)
    ensures p.review == Some("") ==> ValidateCreate(IntValue(p.rating), ReviewOmitted) == Success(p)
  {
  }

  /** The uniform response envelope `{success, data?, error?}`. */
  datatype Envelope<+T> = Envelope(success: bool, data: Option<T>, error: Option<string>) {

    /** What every handler returns: data exactly on success, a non-empty
        message exactly on failure. */
    predicate WellFormed() {
      && (success <==> data.Some?)
      && (success <==> error.None?)
      && (error.Some? ==> error.value != [])
    }
  }

  function Succeeded<T>(data: T): (e: Envelope<T>)
    ensures e.WellFormed() && e.data == Some(data)
  {
    Envelope(true, Some(data), None)
  }

  function Failed<T>(message: string): (e: Envelope<T>)
    requires message != []
    ensures e.WellFormed() && e.error == Some(message)
  {
    Envelope(false, None, Some(message))
  }

  /** A listing item (`ReviewOut`): every column of the row. */
  datatype ReviewOut = ReviewOut(
    id: int,
    rating: int,
    review: string,
    aiResponse: string,
    aiSummary: string,
    aiRecommendedActions: string,
    createdAt: Timestamp)

  /** The submission echo (`SubmitResponseData`): no summary, no actions. */
  datatype SubmitResponseData = SubmitResponseData(
    id: int,
    rating: int,
    review: string,
    aiResponse: string,
    createdAt: Timestamp)

  datatype StatsByRating = StatsByRating(rating: int, count: nat)

  /** `StatsData`; the average is carried in tenths (3.5 is 35). */
  datatype StatsData = StatsData(total: nat, byRating: seq<StatsByRating>, averageTenths: int)

  function ToReviewOut(r: Review): (o: ReviewOut)
    ensures o.id == r.id && o.rating == r.rating && o.review == r.review
    ensures o.aiResponse == r.aiResponse && o.aiSummary == r.aiSummary
    ensures o.aiRecommendedActions == r.aiRecommendedActions && o.createdAt == r.createdAt
  {
    ReviewOut(r.id, r.rating, r.review, r.aiResponse, r.aiSummary, r.aiRecommendedActions, r.createdAt)
  }

  /** A listing item loses nothing: the row can be rebuilt from it. */
  lemma ReviewOutKeepsEveryField(r: Review, o: ReviewOut)
    requires o == ToReviewOut(r)
    ensures Review(o.id, o.rating, o.review, o.aiResponse, o.aiSummary, o.aiRecommendedActions, o.createdAt) == r
  {
  }

  function ToSubmitData(r: Review): (d: SubmitResponseData)
    ensures d.id == r.id && d.rating == r.rating && d.review == r.review
    ensures d.aiResponse == r.aiResponse && d.createdAt == r.createdAt
  {
    SubmitResponseData(r.id, r.rating, r.review, r.aiResponse, r.createdAt)
  }

  /** The submission echo does not depend on the stored summary or actions:
      rows that differ only there echo identically. */
  lemma SubmitDataOmitsSummaryAndActions(r: Review, summary: string, actions: string)
    ensures ToSubmitData(r.(aiSummary := summary, aiRecommendedActions := actions)) == ToSubmitData(r)
  {
  }
}
