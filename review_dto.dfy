/** The validation schemas of the review endpoints. The create and update
    schemas are written out twice in the source with the same fields, so one
    decoder serves both. */
module ReviewDto {
  import opened Wrappers
  import opened Json
  import opened Zod
  import Text

  /** The parsed body of a review create or update. */
  datatype ReviewInput = ReviewInput(rating: int, comments: Maybe<string>)

  const ReviewRatingChecks := [MinCheck(1.0, "RATING_MIN"), MaxCheck(5.0, "RATING_MAX")]

  function RatingField(body: Json): Result<int, Issue> {
    CoercedInt(Get(body, "rating"), ["rating"], ReviewRatingChecks)
  }

  function CommentsField(body: Json): Result<Maybe<string>, Issue> {
    TrimmedText(Get(body, "comments"), ["comments"], 5000, "COMMENTS_TOO_LONG")
  }

  /** CreateReviewDTO and UpdateReviewDTO: `rating` coerced to an integer in
      [1, 5], then `comments` optional or null, trimmed, at most 5000. The
      body is accepted exactly when both fields pass their schemas, and is
      then made of what they give. */
  function DecodeReviewBody(body: Json): (r: Result<ReviewInput, Issue>)
    ensures r.Ok? <==> body.JObj? && RatingField(body).Ok? && CommentsField(body).Ok?
    ensures r.Ok? ==> r.value == ReviewInput(RatingField(body).value, CommentsField(body).value)
    ensures body.JObj? && RatingField(body).Err? ==> r == Err(RatingField(body).error)
    ensures r.Ok? ==> 1 <= r.value.rating <= 5 && TrimmedWithin(r.value.comments, 5000)
    ensures r.Ok? ==> Coerce(Get(body, "rating")) == Fin(r.value.rating as real)
    ensures body.JObj? && Coerce(Get(body, "rating")).NaN? ==> r == Err(Issue(["rating"], NanMessage))
    ensures !body.JObj? ==> r == Err(NotAnObject(body, []))
  {
    if !body.JObj? then Err(NotAnObject(body, []))
    else
      var rating :- RatingField(body);
      assert NumCheckPasses(ReviewRatingChecks[0], rating as real) && NumCheckPasses(ReviewRatingChecks[1], rating as real);
      var comments :- CommentsField(body);
      Ok(ReviewInput(rating, comments))
  }

  /** The rating is required on update as well: a body without it is
      refused, and because it is coerced the issue is the NaN message rather
      than "Required". */
  lemma RatingRequired(body: Json)
    requires body.JObj? && "rating" !in body.fields
    ensures DecodeReviewBody(body) == Err(Issue(["rating"], NanMessage))
  {
  }

  /** A rating given as a decimal string in range is accepted as that
      integer; comments are kept trimmed. */
  lemma RatingFromDigits(k: nat, body: Json)
    requires 1 <= k <= 5
    requires body.JObj? && body.fields == map["rating" := JStr(Text.NatToString(k))]
    ensures DecodeReviewBody(body) == Ok(ReviewInput(k, Undefined))
  {
    ParseNatString(k);
  }

  /** ReviewParamsDTO: a positive integer `review_id`. */
  function DecodeReviewParams(p: Json): (r: Result<int, Issue>)
    ensures r.Ok? ==> r.value >= 1
    ensures p.JObj? ==> r == PositiveId(Get(p, "review_id"), ["review_id"], "INVALID_REVIEW_ID")
    ensures !p.JObj? ==> r == Err(NotAnObject(p, []))
  {
    if !p.JObj? then Err(NotAnObject(p, []))
    else PositiveId(Get(p, "review_id"), ["review_id"], "INVALID_REVIEW_ID")
  }

  /** A zero or negative integer id is refused with INVALID_REVIEW_ID. */
  lemma NonPositiveReviewIdRejected(p: Json, x: real)
    requires p.JObj? && Coerce(Get(p, "review_id")) == Fin(x)
    requires IsInteger(x) && x <= 0.0
    ensures DecodeReviewParams(p) == Err(Issue(["review_id"], "INVALID_REVIEW_ID"))
  {
    var checks := [IntCheck(NotIntegerMessage)] + [PositiveCheck("INVALID_REVIEW_ID")];
    assert checks[1..] == [PositiveCheck("INVALID_REVIEW_ID")];
    assert FirstNumFailure(checks, x) == Some("INVALID_REVIEW_ID");
  }
}
